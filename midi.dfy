/** MIDI note events with sample-frame timestamps, and the ordered event list
    (JUCE's MidiMessageSequence) they are collected in. */
module Midi {

  /** The channel every generated note is sent on (MIDI channels count from 1). */
  const Channel := 1

  /** One timestamped note message; `frame` is the offset in sample frames from
      the start of the sequence. A note-off carries no velocity. */
  datatype NoteEvent =
    | NoteOn(channel: int, key: int, velocity: int, frame: int)
    | NoteOff(channel: int, key: int, frame: int)

  /** Conversion of an `int` to an 8-bit unsigned value (`static_cast<uint8>`):
      the value modulo 256. */
  function ToUint8(v: int): (r: int)
    ensures 0 <= r < 256
    ensures (v - r) % 256 == 0
    ensures 0 <= v < 256 ==> r == v
  {
    v % 256
  }

  /** The timestamp of event `i`. */
  function FrameAt(events: seq<NoteEvent>, i: nat): int
    requires i < |events|
  {
    events[i].frame
  }

  /** Timestamps never decrease along the list. */
  predicate InTimeOrder(events: seq<NoteEvent>)
  {
    forall a: nat, b: nat :: a <= b < |events| ==> FrameAt(events, a) <= FrameAt(events, b)
  }

  /** Adding an event to a MidiMessageSequence: scanning back from the end,
      the event goes after the last event whose timestamp is not later than
      its own. */
  function AddEvent(events: seq<NoteEvent>, e: NoteEvent): (r: seq<NoteEvent>)
    ensures |r| == |events| + 1
    ensures events == [] || events[|events| - 1].frame <= e.frame ==> r == events + [e]
    decreases |events|
  {
    if events == [] || events[|events| - 1].frame <= e.frame then
      events + [e]
    else
      AddEvent(events[..|events| - 1], e) + [events[|events| - 1]]
  }

  /** Adding an event adds exactly that event. */
  lemma {:induction false} AddEventPermutes(events: seq<NoteEvent>, e: NoteEvent)
    ensures multiset(AddEvent(events, e)) == multiset(events) + multiset{e}
    decreases |events|
  {
    if events != [] && e.frame < events[|events| - 1].frame {
      var init := events[..|events| - 1];
      assert events == init + [events[|events| - 1]];
      AddEventPermutes(init, e);
    }
  }

  /** Adding an event keeps a time-ordered list in time order. */
  lemma {:induction false} AddEventKeepsTimeOrder(events: seq<NoteEvent>, e: NoteEvent)
    requires InTimeOrder(events)
    ensures InTimeOrder(AddEvent(events, e))
    decreases |events|
  {
    if events == [] || events[|events| - 1].frame <= e.frame {
      var r := events + [e];
      forall a: nat, b: nat | a <= b < |r| ensures FrameAt(r, a) <= FrameAt(r, b) {
        if b < |events| {
          assert FrameAt(events, a) <= FrameAt(events, b);
        } else if a < |events| {
          assert FrameAt(events, a) <= FrameAt(events, |events| - 1);
        }
      }
    } else {
      var init, last := events[..|events| - 1], events[|events| - 1];
      assert events == init + [last];
      assert InTimeOrder(init) by {
        forall a: nat, b: nat | a <= b < |init| ensures FrameAt(init, a) <= FrameAt(init, b) {
          assert FrameAt(events, a) <= FrameAt(events, b);
        }
      }
      AddEventKeepsTimeOrder(init, e);
      AddEventPermutes(init, e);
      var m := AddEvent(init, e);
      forall k: nat | k < |m| ensures FrameAt(m, k) <= last.frame {
        assert m[k] in multiset(m);
        if m[k] != e {
          assert m[k] in multiset(init);
          var j :| 0 <= j < |init| && init[j] == m[k];
          assert FrameAt(events, j) <= FrameAt(events, |events| - 1);
        }
      }
      var r := m + [last];
      forall a: nat, b: nat | a <= b < |r| ensures FrameAt(r, a) <= FrameAt(r, b) {
        if b == |r| - 1 {
          if a < |m| {
            assert r[a] == m[a] && FrameAt(m, a) <= last.frame;
          }
        } else {
          assert r[a] == m[a] && r[b] == m[b];
          assert FrameAt(m, a) <= FrameAt(m, b);
        }
      }
    }
  }

  /** The list after adding each of `xs` in turn. */
  function AddEvents(events: seq<NoteEvent>, xs: seq<NoteEvent>): (r: seq<NoteEvent>)
    ensures |r| == |events| + |xs|
    decreases |xs|
  {
    if xs == [] then events else AddEvents(AddEvent(events, xs[0]), xs[1..])
  }

  /** Adding a run of events keeps a time-ordered list in time order. */
  lemma {:induction false} AddEventsKeepsTimeOrder(events: seq<NoteEvent>, xs: seq<NoteEvent>)
    requires InTimeOrder(events)
    ensures InTimeOrder(AddEvents(events, xs))
    decreases |xs|
  {
    if xs != [] {
      AddEventKeepsTimeOrder(events, xs[0]);
      AddEventsKeepsTimeOrder(AddEvent(events, xs[0]), xs[1..]);
    }
  }

  /** Adding a run of events adds exactly those events. */
  lemma {:induction false} AddEventsPermutes(events: seq<NoteEvent>, xs: seq<NoteEvent>)
    ensures multiset(AddEvents(events, xs)) == multiset(events) + multiset(xs)
    decreases |xs|
  {
    if xs != [] {
      AddEventPermutes(events, xs[0]);
      AddEventsPermutes(AddEvent(events, xs[0]), xs[1..]);
      assert xs == [xs[0]] + xs[1..];
    }
  }

  /** Events that come in time order are simply appended. */
  lemma {:induction false} AddEventsInOrder(events: seq<NoteEvent>, xs: seq<NoteEvent>)
    requires InTimeOrder(events + xs)
    ensures AddEvents(events, xs) == events + xs
    decreases |xs|
  {
    if xs != [] {
      var t := events + xs;
      if events != [] {
        assert FrameAt(t, |events| - 1) <= FrameAt(t, |events|);
      }
      assert AddEvent(events, xs[0]) == events + [xs[0]];
      assert (events + [xs[0]]) + xs[1..] == t;
      AddEventsInOrder(events + [xs[0]], xs[1..]);
    }
  }

  /** Adding a pair of events and then a run is adding the pair's run. */
  lemma AddEventsPair(events: seq<NoteEvent>, a: NoteEvent, b: NoteEvent, rest: seq<NoteEvent>)
    ensures AddEvents(events, [a, b] + rest) == AddEvents(AddEvent(AddEvent(events, a), b), rest)
  {
    var xs := [a, b] + rest;
    assert xs[0] == a && xs[1..] == [b] + rest;
    assert ([b] + rest)[0] == b && ([b] + rest)[1..] == rest;
  }
}
