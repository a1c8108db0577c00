/** The capture configuration of versicap (`vcp::RenderContext`): the key
    range, note timing, velocity layers, loop settings and naming of one
    sampling run, the MIDI sweep it generates for a layer, and the ValueTree
    it is saved as. */
module Vcp {
  import opened Midi
  import opened Timelines
  import opened ValueTrees

  /** The context has a fixed number of velocity layers. */
  const LayerCount := 4

  type LayerFlags = s: seq<bool> | |s| == LayerCount witness [true, false, false, false]
  type LayerVelocities = s: seq<int> | |s| == LayerCount witness [127, 96, 64, 32]

  /** The struct is plain data: the layer arrays are embedded in it and copied
      with it, so it is a value here. Lengths are in milliseconds; `loopMode`,
      `loopStart`, `loopEnd` and `crossfadeLength` are only stored. */
  datatype RenderContext = RenderContext(
    keyStart: int,
    keyEnd: int,
    keyStride: int,
    baseName: string,
    noteLength: int,
    tailLength: int,
    layerEnabled: LayerFlags,
    layerVelocities: LayerVelocities,
    loopMode: int,
    loopStart: int,
    loopEnd: int,
    crossfadeLength: int,
    instrumentName: string,
    outputPath: string)

  /** A context as a default-constructed struct holds it: keys C2 to C4 every
      fourth key, 3 s notes with 1 s tails, only the loudest layer enabled. */
  const Default := RenderContext(
    36, 60, 4,
    "Sample", 3000, 1000,
    [true, false, false, false], [127, 96, 64, 32],
    0, 500, 2500, 0,
    "", "")

  /** What the defaults amount to: a sweep the generator accepts, over keys
      inside the MIDI range, with only the loudest of four strictly
      decreasing velocities enabled, a loop that ends after it starts, and
      no instrument name or output path yet. */
  lemma DefaultContext()
    ensures Default.keyStride == 4 && Default.keyStride > 0
    ensures Default.keyStart == 36 && Default.keyEnd == 60
    ensures 0 <= Default.keyStart <= Default.keyEnd <= 127
    ensures Default.noteLength == 3000 && Default.tailLength == 1000
    ensures Default.layerEnabled[0] && forall i :: 1 <= i < LayerCount ==> !Default.layerEnabled[i]
    ensures Default.layerVelocities == [127, 96, 64, 32]
    ensures forall i :: 0 <= i < LayerCount ==> 0 < Default.layerVelocities[i] <= 127
    ensures forall i, j :: 0 <= i < j < LayerCount ==> Default.layerVelocities[i] > Default.layerVelocities[j]
    ensures Default.loopMode == 0 && Default.crossfadeLength == 0
    ensures Default.loopStart == 500 && Default.loopEnd == 2500 && Default.loopStart < Default.loopEnd
    ensures Default.baseName == "Sample" && Default.instrumentName == "" && Default.outputPath == ""
  {
  }

  // ---------------------------------------------------------------------
  // The MIDI sweep of one layer

  /** `n / 1000` cut toward zero, as a cast of a floating-point quotient to
      an integer does. */
  function Thousandths(n: int): (r: int)
    ensures 0 <= n ==> 0 <= r && r * 1000 <= n < r * 1000 + 1000
    ensures n < 0 ==> r <= 0 && r * 1000 - 1000 < n <= r * 1000
  {
    if n >= 0 then n / 1000 else -((-n) / 1000)
  }

  /** The number of whole frames in `ms` milliseconds at `sampleRate` Hz,
      `sampleRate * ms / 1000` cut toward zero; at a positive rate it has
      the sign of the length. */
  function FramesFor(sampleRate: int, ms: int): (r: int)
    ensures sampleRate > 0 && ms >= 0 ==> r >= 0
    ensures sampleRate > 0 && ms <= 0 ==> r <= 0
  {
    assert sampleRate > 0 && ms >= 0 ==> sampleRate * ms >= 0;
    assert sampleRate > 0 && ms <= 0 ==> sampleRate * ms <= 0;
    Thousandths(sampleRate * ms)
  }

  /** The loop parameters of the generator for `layer` at `sampleRate`: the
      key range as stored, the layer's velocity cut to a byte, and the note
      and tail lengths in frames, which are non-negative when the lengths
      are. */
  function SweepOf(ctx: RenderContext, layer: int, sampleRate: int): (s: Sweep)
    requires 0 <= layer < LayerCount
    ensures s.keyStart == ctx.keyStart && s.keyEnd == ctx.keyEnd && s.keyStride == ctx.keyStride
    ensures 0 <= s.velocity < 256
    ensures 0 <= ctx.layerVelocities[layer] < 256 ==> s.velocity == ctx.layerVelocities[layer]
    ensures sampleRate > 0 && ctx.noteLength >= 0 ==> s.noteFrames >= 0
    ensures sampleRate > 0 && ctx.tailLength >= 0 ==> s.tailFrames >= 0
  {
    Sweep(
      ctx.keyStart, ctx.keyEnd, ctx.keyStride,
      ToUint8(ctx.layerVelocities[layer]),
      FramesFor(sampleRate, ctx.noteLength),
      FramesFor(sampleRate, ctx.tailLength))
  }

  /** Builds the note sequence of one layer: for every key from `keyStart`
      up to `keyEnd` in steps of `keyStride`, a note-on at the frame cursor
      and a note-off `noteLength` later, the cursor then moving on by the
      tail. Each event is added to a time-ordered sequence as it is made, so
      the result is in time order and holds exactly the emitted events; with
      non-negative lengths it is the emitted sweep itself. */
  method CreateMidiMessageSequence(ctx: RenderContext, layer: int, sampleRate: int)
    returns (events: seq<NoteEvent>)
    requires sampleRate > 0
    requires 0 <= layer < LayerCount
    requires ctx.keyStride > 0
    ensures events == Collected(SweepOf(ctx, layer, sampleRate))
    ensures InTimeOrder(events)
    ensures multiset(events) == multiset(Timeline(SweepOf(ctx, layer, sampleRate)))
    ensures |events| == 2 * PairCount(ctx.keyStart, ctx.keyEnd, ctx.keyStride)
    ensures ctx.noteLength >= 0 && ctx.tailLength >= 0 ==>
              events == Timeline(SweepOf(ctx, layer, sampleRate))
              && forall i: nat :: i < Count(SweepOf(ctx, layer, sampleRate)) ==>
                   PairAt(events, SweepOf(ctx, layer, sampleRate), i)
  {
    var key := ctx.keyStart;
    var frame := 0;
    var noteFrames := FramesFor(sampleRate, ctx.noteLength);
    var tailFrames := FramesFor(sampleRate, ctx.tailLength);
    ghost var s := Sweep(ctx.keyStart, ctx.keyEnd, ctx.keyStride,
                         ToUint8(ctx.layerVelocities[layer]), noteFrames, tailFrames);
    assert s == SweepOf(ctx, layer, sampleRate);
    events := [];

    while key <= ctx.keyEnd
      invariant AddEvents(events, Pairs(s, key, frame)) == Collected(s)
      decreases ctx.keyEnd - key
    {
      var velocity := ToUint8(ctx.layerVelocities[layer]);
      var noteOn := NoteOn(Channel, key, velocity, frame);
      frame := frame + noteFrames;
      var noteOff := NoteOff(Channel, key, frame);
      frame := frame + tailFrames;

      ghost var rest := Pairs(s, key + ctx.keyStride, frame);
      PairsStep(s, key, noteOn.frame);
      assert Pairs(s, key, noteOn.frame) == [noteOn, noteOff] + rest;
      AddEventsPair(events, noteOn, noteOff, rest);
      assert AddEvents(AddEvent(AddEvent(events, noteOn), noteOff), rest) == Collected(s);
      events := AddEvent(events, noteOn);
      events := AddEvent(events, noteOff);
      key := key + ctx.keyStride;
    }
    assert events == Collected(s);
    CollectedSweep(s);
  }

  /** With the default context at 44100 Hz the loudest layer sweeps seven
      keys, 36 to 60; the first note-off is at 132300 frames and the second
      note-on at 176400. */
  lemma DefaultSweep()
    ensures Count(SweepOf(Default, 0, 44100)) == 7
    ensures |Timeline(SweepOf(Default, 0, 44100))| == 14
    ensures Timeline(SweepOf(Default, 0, 44100))[0] == NoteOn(Channel, 36, 127, 0)
    ensures Timeline(SweepOf(Default, 0, 44100))[1] == NoteOff(Channel, 36, 132300)
    ensures Timeline(SweepOf(Default, 0, 44100))[2] == NoteOn(Channel, 40, 127, 176400)
    ensures Timeline(SweepOf(Default, 0, 44100))[13] == NoteOff(Channel, 60, 1190700)
  {
    var s := SweepOf(Default, 0, 44100);
    assert s == Sweep(36, 60, 4, 127, 132300, 44100);
    TimelineShape(s);
    assert PairAt(Timeline(s), s, 0);
    assert PairAt(Timeline(s), s, 1);
    assert PairAt(Timeline(s), s, 6);
  }

  // ---------------------------------------------------------------------
  // Saving the context as a ValueTree

  /** The scalar properties the tree records (there is no `loopEnd`). */
  const SavedProperties: set<string> := {
    "keyStart", "keyEnd", "keyStride", "baseName", "noteLength", "tailLength",
    "loopMode", "loopStart", "crossfadeLength", "instrumentName", "outputPath"
  }

  function ScalarProperties(ctx: RenderContext): map<string, Var>
  {
    map[
      "keyStart" := IntVar(ctx.keyStart),
      "keyEnd" := IntVar(ctx.keyEnd),
      "keyStride" := IntVar(ctx.keyStride),
      "baseName" := StringVar(ctx.baseName),
      "noteLength" := IntVar(ctx.noteLength),
      "tailLength" := IntVar(ctx.tailLength),
      "loopMode" := IntVar(ctx.loopMode),
      "loopStart" := IntVar(ctx.loopStart),
      "crossfadeLength" := IntVar(ctx.crossfadeLength),
      "instrumentName" := StringVar(ctx.instrumentName),
      "outputPath" := StringVar(ctx.outputPath)
    ]
  }

  /** The child recording one velocity layer. */
  function LayerNode(enabled: bool, velocity: int): ValueTree
  {
    ValueTree("layer", map["enabled" := BoolVar(enabled), "velocity" := IntVar(velocity)], [])
  }

  /** The `layer` children recording the first `n` layers, in index order. */
  function LayerNodes(ctx: RenderContext, n: nat): (r: seq<ValueTree>)
    requires n <= LayerCount
    ensures |r| == n
    ensures forall i :: 0 <= i < n ==> r[i] == LayerNode(ctx.layerEnabled[i], ctx.layerVelocities[i])
  {
    if n == 0 then [] else LayerNodes(ctx, n - 1) + [LayerNode(ctx.layerEnabled[n - 1], ctx.layerVelocities[n - 1])]
  }

  /** The `layers` child holding the first `n` layers. */
  function LayersNode(ctx: RenderContext, n: nat): ValueTree
    requires n <= LayerCount
  {
    ValueTree("layers", map[], LayerNodes(ctx, n))
  }

  /** Appending layer `n` to the `layers` child of a tree that holds the
      first `n` layers gives the tree holding the first `n + 1`. */
  lemma AppendLayer(ctx: RenderContext, props: map<string, Var>, n: nat)
    requires n < LayerCount
    ensures AppendToChild(ValueTree("versicap", props, [LayersNode(ctx, n)]), 0,
                          LayerNode(ctx.layerEnabled[n], ctx.layerVelocities[n]))
            == ValueTree("versicap", props, [LayersNode(ctx, n + 1)])
  {
    var t := AppendToChild(ValueTree("versicap", props, [LayersNode(ctx, n)]), 0,
                           LayerNode(ctx.layerEnabled[n], ctx.layerVelocities[n]));
    assert t.children[0] == LayersNode(ctx, n + 1);
  }

  /** The tree a context is saved as: a `versicap` node with one property
      per saved field and a single `layers` child of four `layer` nodes. */
  function Serialise(ctx: RenderContext): (t: ValueTree)
    ensures t.name == "versicap"
    ensures t.props.Keys == SavedProperties && "loopEnd" !in t.props
    ensures |t.children| == 1 && t.children[0].name == "layers"
    ensures t.children[0].props == map[] && |t.children[0].children| == LayerCount
  {
    ValueTree("versicap", ScalarProperties(ctx), [LayersNode(ctx, LayerCount)])
  }

  /** Builds the saved form of the context: the scalar properties, then the
      `layers` child, then one `layer` child appended per layer. */
  method CreateValueTree(ctx: RenderContext) returns (t: ValueTree)
    ensures t == Serialise(ctx)
  {
    var versicap := NewTree("versicap");
    versicap := SetProperty(versicap, "keyStart", IntVar(ctx.keyStart));
    versicap := SetProperty(versicap, "keyEnd", IntVar(ctx.keyEnd));
    versicap := SetProperty(versicap, "keyStride", IntVar(ctx.keyStride));
    versicap := SetProperty(versicap, "baseName", StringVar(ctx.baseName));
    versicap := SetProperty(versicap, "noteLength", IntVar(ctx.noteLength));
    versicap := SetProperty(versicap, "tailLength", IntVar(ctx.tailLength));
    versicap := SetProperty(versicap, "loopMode", IntVar(ctx.loopMode));
    versicap := SetProperty(versicap, "loopStart", IntVar(ctx.loopStart));
    versicap := SetProperty(versicap, "crossfadeLength", IntVar(ctx.crossfadeLength));
    versicap := SetProperty(versicap, "instrumentName", StringVar(ctx.instrumentName));
    versicap := SetProperty(versicap, "outputPath", StringVar(ctx.outputPath));
    assert versicap == ValueTree("versicap", ScalarProperties(ctx), []);

    var found := GetOrCreateChildWithName(versicap, "layers");
    var layers;
    versicap, layers := found.0, found.1;

    for i := 0 to LayerCount
      invariant layers == 0
      invariant versicap == ValueTree("versicap", ScalarProperties(ctx), [LayersNode(ctx, i)])
    {
      var layer := NewTree("layer");
      layer := SetProperty(layer, "enabled", BoolVar(ctx.layerEnabled[i]));
      layer := SetProperty(layer, "velocity", IntVar(ctx.layerVelocities[i]));
      assert layer == LayerNode(ctx.layerEnabled[i], ctx.layerVelocities[i]);
      AppendLayer(ctx, ScalarProperties(ctx), i);
      versicap := AppendToChild(versicap, layers, layer);
    }
    t := versicap;
  }

  /** Every saved property holds the value of the field of the same name. */
  lemma SerialisedScalars(ctx: RenderContext)
    ensures Serialise(ctx).props["keyStart"] == IntVar(ctx.keyStart)
    ensures Serialise(ctx).props["keyEnd"] == IntVar(ctx.keyEnd)
    ensures Serialise(ctx).props["keyStride"] == IntVar(ctx.keyStride)
    ensures Serialise(ctx).props["baseName"] == StringVar(ctx.baseName)
    ensures Serialise(ctx).props["noteLength"] == IntVar(ctx.noteLength)
    ensures Serialise(ctx).props["tailLength"] == IntVar(ctx.tailLength)
    ensures Serialise(ctx).props["loopMode"] == IntVar(ctx.loopMode)
    ensures Serialise(ctx).props["loopStart"] == IntVar(ctx.loopStart)
    ensures Serialise(ctx).props["crossfadeLength"] == IntVar(ctx.crossfadeLength)
    ensures Serialise(ctx).props["instrumentName"] == StringVar(ctx.instrumentName)
    ensures Serialise(ctx).props["outputPath"] == StringVar(ctx.outputPath)
  {
  }

  /** Child `i` of `layers` records exactly layer `i`'s flag and velocity. */
  lemma SerialisedLayer(ctx: RenderContext, i: nat)
    requires i < LayerCount
    ensures Serialise(ctx).children[0].children[i].name == "layer"
    ensures Serialise(ctx).children[0].children[i].props.Keys == {"enabled", "velocity"}
    ensures Serialise(ctx).children[0].children[i].props["enabled"] == BoolVar(ctx.layerEnabled[i])
    ensures Serialise(ctx).children[0].children[i].props["velocity"] == IntVar(ctx.layerVelocities[i])
    ensures Serialise(ctx).children[0].children[i].children == []
  {
  }

  /** The scalar properties give back every field they record. */
  lemma ScalarPropertiesDetermine(a: RenderContext, b: RenderContext)
    requires ScalarProperties(a) == ScalarProperties(b)
    ensures a.keyStart == b.keyStart && a.keyEnd == b.keyEnd && a.keyStride == b.keyStride
    ensures a.baseName == b.baseName && a.noteLength == b.noteLength && a.tailLength == b.tailLength
    ensures a.loopMode == b.loopMode && a.loopStart == b.loopStart
    ensures a.crossfadeLength == b.crossfadeLength
    ensures a.instrumentName == b.instrumentName && a.outputPath == b.outputPath
  {
    var pa, pb := ScalarProperties(a), ScalarProperties(b);
    assert pa["keyStart"].i == a.keyStart && pb["keyStart"].i == b.keyStart;
    assert pa["keyEnd"].i == a.keyEnd && pb["keyEnd"].i == b.keyEnd;
    assert pa["keyStride"].i == a.keyStride && pb["keyStride"].i == b.keyStride;
    assert pa["baseName"].s == a.baseName && pb["baseName"].s == b.baseName;
    assert pa["noteLength"].i == a.noteLength && pb["noteLength"].i == b.noteLength;
    assert pa["tailLength"].i == a.tailLength && pb["tailLength"].i == b.tailLength;
    assert pa["loopMode"].i == a.loopMode && pb["loopMode"].i == b.loopMode;
    assert pa["loopStart"].i == a.loopStart && pb["loopStart"].i == b.loopStart;
    assert pa["crossfadeLength"].i == a.crossfadeLength && pb["crossfadeLength"].i == b.crossfadeLength;
    assert pa["instrumentName"].s == a.instrumentName && pb["instrumentName"].s == b.instrumentName;
    assert pa["outputPath"].s == a.outputPath && pb["outputPath"].s == b.outputPath;
  }

  /** A `layer` child gives back its flag and velocity. */
  lemma LayerNodeDetermines(enabled: bool, velocity: int, enabled': bool, velocity': int)
    requires LayerNode(enabled, velocity) == LayerNode(enabled', velocity')
    ensures enabled == enabled' && velocity == velocity'
  {
    assert LayerNode(enabled, velocity).props["enabled"] == BoolVar(enabled);
    assert LayerNode(enabled', velocity').props["velocity"] == IntVar(velocity');
  }

  /** Two contexts are saved as the same tree exactly when they agree on
      every field but `loopEnd`: the tree keeps everything else and loses
      `loopEnd`. */
  lemma SavedTreeDeterminesAllButLoopEnd(a: RenderContext, b: RenderContext)
    ensures Serialise(a) == Serialise(b) <==> a.(loopEnd := b.loopEnd) == b
  {
    if Serialise(a) == Serialise(b) {
      ScalarPropertiesDetermine(a, b);
      var la, lb := LayerNodes(a, LayerCount), LayerNodes(b, LayerCount);
      assert la == Serialise(a).children[0].children;
      forall i | 0 <= i < LayerCount
        ensures a.layerEnabled[i] == b.layerEnabled[i]
        ensures a.layerVelocities[i] == b.layerVelocities[i]
      {
        LayerNodeDetermines(a.layerEnabled[i], a.layerVelocities[i], b.layerEnabled[i], b.layerVelocities[i]);
      }
      assert a.layerEnabled == b.layerEnabled && a.layerVelocities == b.layerVelocities;
    } else if a.(loopEnd := b.loopEnd) == b {
      LoopEndIsNotSaved(a, b.loopEnd);
    }
  }

  /** Saving a context and saving the same context with any other
      `loopEnd` give the same tree, so `loopEnd` does not survive a save. */
  lemma LoopEndIsNotSaved(ctx: RenderContext, loopEnd: int)
    ensures Serialise(ctx.(loopEnd := loopEnd)) == Serialise(ctx)
  {
    var other := ctx.(loopEnd := loopEnd);
    assert ScalarProperties(other) == ScalarProperties(ctx);
    assert LayerNodes(other, LayerCount) == LayerNodes(ctx, LayerCount);
  }
}
