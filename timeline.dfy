/** The note timeline one layer's sweep produces, stated as a pure function of
    the sweep's integer parameters, with its closed form and ordering laws. */
module Timelines {
  import opened Midi

  /** What the generator's loop works from: the key range and stride, the
      note-on velocity, and the note and tail durations in sample frames. */
  datatype Sweep = Sweep(
    keyStart: int,
    keyEnd: int,
    keyStride: int,
    velocity: int,
    noteFrames: int,
    tailFrames: int)
  {
    /** Frames from one note-on to the next. */
    function Period(): int { noteFrames + tailFrames }
  }

  /** How many keys `key, key + stride, ...` stay at or below `keyEnd`. */
  function PairCount(key: int, keyEnd: int, stride: int): nat
    requires stride > 0
  {
    if key > keyEnd then 0 else (keyEnd - key) / stride + 1
  }

  function Count(s: Sweep): nat
    requires s.keyStride > 0
  {
    PairCount(s.keyStart, s.keyEnd, s.keyStride)
  }

  /** The events emitted from `key` on, with the frame cursor at `frame`: a
      note-on at the cursor, a note-off `noteFrames` later, then the rest of
      the sweep `tailFrames` after that. */
  function Pairs(s: Sweep, key: int, frame: int): (r: seq<NoteEvent>)
    requires s.keyStride > 0
    ensures r == [] <==> key > s.keyEnd
    decreases s.keyEnd - key
  {
    if key > s.keyEnd then []
    else
      [NoteOn(Channel, key, s.velocity, frame), NoteOff(Channel, key, frame + s.noteFrames)]
      + Pairs(s, key + s.keyStride, frame + s.Period())
  }

  /** One step of the sweep: the pair at `key`, then the rest. */
  lemma PairsStep(s: Sweep, key: int, frame: int)
    requires s.keyStride > 0 && key <= s.keyEnd
    ensures Pairs(s, key, frame)
            == [NoteOn(Channel, key, s.velocity, frame), NoteOff(Channel, key, frame + s.noteFrames)]
               + Pairs(s, key + s.keyStride, frame + s.Period())
  {
  }

  /** The whole sweep in emission order, starting at frame 0. */
  function Timeline(s: Sweep): (r: seq<NoteEvent>)
    requires s.keyStride > 0
    ensures r == [] <==> s.keyStart > s.keyEnd
  {
    Pairs(s, s.keyStart, 0)
  }

  /** The key of the `i`-th pair. */
  function KeyOf(s: Sweep, i: int): int
  {
    s.keyStart + i * s.keyStride
  }

  /** The frame of the `i`-th note-on. */
  function OnFrame(s: Sweep, i: int): int
  {
    i * s.Period()
  }

  /** Events `2i` and `2i+1` of `events` are the `i`-th note-on and note-off. */
  predicate PairAt(events: seq<NoteEvent>, s: Sweep, i: nat)
  {
    2 * i + 1 < |events|
    && events[2 * i] == NoteOn(Channel, KeyOf(s, i), s.velocity, OnFrame(s, i))
    && events[2 * i + 1] == NoteOff(Channel, KeyOf(s, i), OnFrame(s, i) + s.noteFrames)
  }

  /** Moving the start key up by one stride drops exactly one pair. */
  lemma CountStep(key: int, keyEnd: int, stride: int)
    requires stride > 0 && key <= keyEnd
    ensures PairCount(key + stride, keyEnd, stride) + 1 == PairCount(key, keyEnd, stride)
  {
    var d := keyEnd - key;
    if d >= stride {
      DivUnique(d, stride, (d - stride) / stride + 1, (d - stride) % stride);
    }
  }

  /** Euclidean division has a single quotient and remainder. */
  lemma DivUnique(n: int, d: int, q: int, r: int)
    requires d > 0 && 0 <= r < d && n == q * d + r
    ensures n / d == q && n % d == r
  {
    var q', r' := n / d, n % d;
    assert (q - q') * d == r' - r;
    MulBounds(q - q', d);
  }

  lemma MulBounds(k: int, d: int)
    requires d > 0
    ensures k >= 1 ==> k * d >= d
    ensures k <= -1 ==> k * d <= -d
  {
  }

  /** The `i`-th key is visited exactly when it does not pass `keyEnd`: the
      sweep stops at the first key beyond the range and skips none before. */
  lemma VisitedIff(s: Sweep, i: nat)
    requires s.keyStride > 0
    ensures i < Count(s) <==> KeyOf(s, i) <= s.keyEnd
  {
    var stride := s.keyStride;
    assert i * stride >= 0;
    if s.keyStart <= s.keyEnd {
      var d := s.keyEnd - s.keyStart;
      var q := d / stride;
      assert d == q * stride + d % stride;
      if i <= q {
        assert i * stride <= q * stride;
      } else {
        assert i * stride >= (q + 1) * stride;
      }
    }
  }

  /** Closed form of the sweep from any start: `2 * PairCount` events, pair
      `i` keyed `key + i * stride` with its note-on at `frame + i * period`
      and its note-off `noteFrames` after that. */
  lemma {:induction false} PairsAt(s: Sweep, key: int, frame: int, i: nat)
    requires s.keyStride > 0
    requires i < PairCount(key, s.keyEnd, s.keyStride)
    ensures |Pairs(s, key, frame)| == 2 * PairCount(key, s.keyEnd, s.keyStride)
    ensures Pairs(s, key, frame)[2 * i]
            == NoteOn(Channel, key + i * s.keyStride, s.velocity, frame + i * s.Period())
    ensures Pairs(s, key, frame)[2 * i + 1]
            == NoteOff(Channel, key + i * s.keyStride, frame + i * s.Period() + s.noteFrames)
    decreases i
  {
    var next := key + s.keyStride;
    CountStep(key, s.keyEnd, s.keyStride);
    PairsLength(s, next, frame + s.Period());
    if i > 0 {
      PairsAt(s, next, frame + s.Period(), i - 1);
      assert next + (i - 1) * s.keyStride == key + i * s.keyStride;
      assert frame + s.Period() + (i - 1) * s.Period() == frame + i * s.Period();
    }
  }

  /** The sweep from any start holds two events per visited key. */
  lemma {:induction false} PairsLength(s: Sweep, key: int, frame: int)
    requires s.keyStride > 0
    ensures |Pairs(s, key, frame)| == 2 * PairCount(key, s.keyEnd, s.keyStride)
    decreases s.keyEnd - key
  {
    if key <= s.keyEnd {
      CountStep(key, s.keyEnd, s.keyStride);
      PairsLength(s, key + s.keyStride, frame + s.Period());
    }
  }

  /** The timeline is exactly the pairs of the closed form, two per key. */
  lemma TimelineShape(s: Sweep)
    requires s.keyStride > 0
    ensures |Timeline(s)| == 2 * Count(s)
    ensures forall i: nat :: i < Count(s) ==> PairAt(Timeline(s), s, i)
  {
    PairsLength(s, s.keyStart, 0);
    forall i: nat | i < Count(s) ensures PairAt(Timeline(s), s, i) {
      PairsAt(s, s.keyStart, 0, i);
    }
  }

  /** With non-negative note and tail lengths every event of a sweep lies at
      or after its start cursor, and the frames never decrease. */
  lemma {:induction false} PairsInTimeOrder(s: Sweep, key: int, frame: int)
    requires s.keyStride > 0 && s.noteFrames >= 0 && s.tailFrames >= 0
    ensures forall j :: 0 <= j < |Pairs(s, key, frame)| ==> frame <= Pairs(s, key, frame)[j].frame
    ensures InTimeOrder(Pairs(s, key, frame))
    decreases s.keyEnd - key
  {
    if key <= s.keyEnd {
      var rest := Pairs(s, key + s.keyStride, frame + s.Period());
      PairsInTimeOrder(s, key + s.keyStride, frame + s.Period());
      var t := Pairs(s, key, frame);
      assert t[2..] == rest;
      forall a: nat, b: nat | a <= b < |t| ensures FrameAt(t, a) <= FrameAt(t, b) {
        if a >= 2 {
          assert t[a] == rest[a - 2] && t[b] == rest[b - 2];
          assert FrameAt(rest, a - 2) <= FrameAt(rest, b - 2);
        } else if b >= 2 {
          assert t[b] == rest[b - 2];
        }
      }
      forall j | 0 <= j < |t| ensures frame <= t[j].frame {
        if j >= 2 {
          assert t[j] == rest[j - 2];
        }
      }
    }
  }

  /** With non-negative lengths the whole timeline is in time order. */
  lemma TimelineInTimeOrder(s: Sweep)
    requires s.keyStride > 0 && s.noteFrames >= 0 && s.tailFrames >= 0
    ensures InTimeOrder(Timeline(s))
  {
    PairsInTimeOrder(s, s.keyStart, 0);
  }

  /** A positive note length puts every note-off strictly after its note-on,
      for the same key. */
  lemma NoteOffAfterNoteOn(s: Sweep, i: nat)
    requires s.keyStride > 0 && s.noteFrames > 0 && i < Count(s)
    ensures |Timeline(s)| == 2 * Count(s)
    ensures Timeline(s)[2 * i].NoteOn? && Timeline(s)[2 * i + 1].NoteOff?
    ensures Timeline(s)[2 * i].key == Timeline(s)[2 * i + 1].key
    ensures Timeline(s)[2 * i].frame < Timeline(s)[2 * i + 1].frame
  {
    TimelineShape(s);
    assert PairAt(Timeline(s), s, i);
  }

  /** Pairs never overlap: each later note-on comes no earlier than a
      note-off plus its tail, and the next one comes exactly then. */
  lemma PairsDoNotOverlap(s: Sweep, i: nat, j: nat)
    requires s.keyStride > 0 && s.noteFrames >= 0 && s.tailFrames >= 0
    requires i < j < Count(s)
    ensures |Timeline(s)| == 2 * Count(s)
    ensures Timeline(s)[2 * i + 1].frame + s.tailFrames <= Timeline(s)[2 * j].frame
    ensures j == i + 1 ==> Timeline(s)[2 * i + 1].frame + s.tailFrames == Timeline(s)[2 * j].frame
  {
    TimelineShape(s);
    assert PairAt(Timeline(s), s, i) && PairAt(Timeline(s), s, j);
    OnFrameGap(s, i, j);
  }

  /** With a non-negative period, later note-ons lie at least one period
      after earlier ones, and the next one exactly one period after. */
  lemma {:induction false} OnFrameGap(s: Sweep, i: nat, j: nat)
    requires s.Period() >= 0 && i < j
    ensures OnFrame(s, i) + s.Period() <= OnFrame(s, j)
    ensures j == i + 1 ==> OnFrame(s, i) + s.Period() == OnFrame(s, j)
    decreases j - i
  {
    var p := s.Period();
    assert j * p == (j - 1) * p + p;
    if j > i + 1 {
      OnFrameGap(s, i, j - 1);
    }
  }

  /** The cursor after the sweep, `Count * period`, is the last note-off plus
      its tail: the length of buffer the whole sweep needs. */
  lemma SweepEnd(s: Sweep)
    requires s.keyStride > 0 && Count(s) > 0
    ensures |Timeline(s)| == 2 * Count(s)
    ensures Timeline(s)[|Timeline(s)| - 1].frame + s.tailFrames == Count(s) * s.Period()
  {
    var n := Count(s);
    TimelineShape(s);
    assert PairAt(Timeline(s), s, n - 1);
    assert (n - 1) * s.Period() + s.Period() == n * s.Period();
  }

  /** The MidiMessageSequence a sweep builds: its events added one by one,
      in emission order, to an empty sequence. */
  function Collected(s: Sweep): (r: seq<NoteEvent>)
    requires s.keyStride > 0
    ensures |r| == |Timeline(s)|
  {
    AddEvents([], Timeline(s))
  }

  /** The sequence a sweep is collected into is in time order and holds
      exactly the sweep's events; with non-negative lengths it is the sweep
      itself, pair by pair in closed form. */
  lemma CollectedSweep(s: Sweep)
    requires s.keyStride > 0
    ensures InTimeOrder(Collected(s))
    ensures multiset(Collected(s)) == multiset(Timeline(s))
    ensures |Collected(s)| == 2 * Count(s)
    ensures s.noteFrames >= 0 && s.tailFrames >= 0 ==>
              Collected(s) == Timeline(s)
              && forall i: nat :: i < Count(s) ==> PairAt(Collected(s), s, i)
  {
    assert InTimeOrder([]);
    AddEventsKeepsTimeOrder([], Timeline(s));
    AddEventsPermutes([], Timeline(s));
    TimelineShape(s);
    if s.noteFrames >= 0 && s.tailFrames >= 0 {
      TimelineInTimeOrder(s);
      assert [] + Timeline(s) == Timeline(s);
      AddEventsInOrder([], Timeline(s));
    }
  }
}
