# versicap RenderContext in Dafny

versicap samples a MIDI instrument. It plays a sweep of notes and records
them. One sampling run is set up by `vcp::RenderContext`, which holds:

- the key range and the stride between keys;
- the note and tail lengths in milliseconds;
- four velocity layers, each with an enabled flag and a velocity;
- the loop settings;
- the base, instrument and output names.

The context has two operations, and this project models both:

- **`createMidiMessageSequence(layer, sampleRate)`** builds the MIDI
  timeline for one velocity layer. For each key it places a note-on at a
  frame cursor and a note-off `noteLength` later. The cursor then moves on
  by `tailLength`. Each message is added to a JUCE `MidiMessageSequence`,
  which keeps its events sorted by timestamp.
- **`createValueTree()`** saves the context as a JUCE `ValueTree`. The tree
  is a `versicap` node with one property per saved field and a `layers`
  child that holds four `layer` children.

The project has four modules:

- `Midi` (`midi.dfy`): note events with sample-frame timestamps, the
  `static_cast<uint8>` velocity conversion, and `MidiMessageSequence::addEvent`.
  Scanning back from the end, that function inserts the new event after
  the last event whose timestamp is not later than its own.
- `Timelines` (`timeline.dfy`): the sweep as a pure function of its integer
  parameters (`Timeline`). Lemmas give its closed form, event count,
  ordering, and the fact that pairs do not overlap. `Collected` is the
  sequence that adding the sweep's events one by one produces.
- `ValueTrees` (`value_tree.dfy`): a value-level `ValueTree` with a name, a
  property map and a list of children. It provides the three tree
  operations the serialiser uses.
- `Vcp` (`render_context.dfy`): the context, its defaults, the generator,
  and the serialiser.
  - The generator is a method with the source's `while` loop. It is proved
    equal to `Collected` of the sweep.
  - The serialiser is a method with the source's `for` loop. It is proved
    equal to the specification function `Serialise`.

The context is a datatype. The C++ struct embeds its arrays, so it is plain
data, and neither operation writes a field: both are `const` in effect. A
Dafny datatype value cannot change, so the model holds that by construction.

The sample rate is an integer number of hertz. A length of `ms`
milliseconds is `sampleRate * ms / 1000` frames, truncated toward zero as
`static_cast<int64>` truncates.

The serialiser never writes `loopEnd`, and the model keeps that. The lemma
`SavedTreeDeterminesAllButLoopEnd` shows that a saved tree fixes every
field of the context except `loopEnd`.

## Model

| member | source | states |
|---|---|---|
| Midi.ToUint8 | src/RenderContext.h:71 | the converted velocity is in 0..255, is congruent to the field modulo 256, and equals it when it is already in 0..255 |
| Midi.AddEvent | src/RenderContext.h:80-81 | adding an event adds exactly one element, and an event not earlier than the last one goes at the end |
| Midi.AddEventPermutes | src/RenderContext.h:80-81 | adding an event changes the multiset of events by exactly that event |
| Midi.AddEventKeepsTimeOrder | src/RenderContext.h:80-81 | adding an event to a time-ordered sequence leaves it time-ordered |
| Midi.AddEvents | src/RenderContext.h:80-81 | the events of the run added one at a time, in order; the result is one element longer per added event |
| Midi.AddEventsKeepsTimeOrder | src/RenderContext.h:69-83 | adding a run of events one by one keeps a time-ordered sequence time-ordered |
| Midi.AddEventsPermutes | src/RenderContext.h:69-83 | adding a run of events one by one adds exactly those events |
| Midi.AddEventsInOrder | src/RenderContext.h:69-83 | when the events come in time order, adding them one by one is the same as appending them |
| Timelines.VisitedIff | src/RenderContext.h:69-82 | the i-th key `keyStart + i*keyStride` is visited exactly when it does not exceed `keyEnd` |
| Timelines.Pairs | src/RenderContext.h:64-83 | the events the loop emits from a given key and cursor, in emission order; there are none exactly when the key is already beyond `keyEnd` |
| Timelines.Timeline | src/RenderContext.h:64-83 | the whole sweep in emission order from `keyStart` at frame 0; it is empty exactly when `keyStart > keyEnd` |
| Timelines.PairsLength | src/RenderContext.h:69-83 | from any key and cursor the loop emits two events per visited key |
| Timelines.PairsAt | src/RenderContext.h:64-83 | pair i from any start is a note-on for key `key + i*stride` at `frame + i*period`, followed by the note-off for that key `noteFrames` later |
| Timelines.TimelineShape | src/RenderContext.h:64-83 | the sweep has `2*Count` events, and events 2i and 2i+1 are the i-th note-on and note-off of the closed form |
| Timelines.PairsInTimeOrder | src/RenderContext.h:73-78 | with non-negative lengths every event lies at or after the starting cursor, and frames never decrease |
| Timelines.TimelineInTimeOrder | src/RenderContext.h:73-78 | with non-negative lengths the whole sweep is in time order |
| Timelines.NoteOffAfterNoteOn | src/RenderContext.h:71-77 | with a positive note length each note-off is for the same key as its note-on and comes strictly after it |
| Timelines.OnFrameGap | src/RenderContext.h:73-78 | with a non-negative period, a later note-on comes at least one period after an earlier one, and the next note-on exactly one period after |
| Timelines.PairsDoNotOverlap | src/RenderContext.h:73-78 | no later note-on comes before an earlier note-off plus the tail, and the next note-on comes exactly then |
| Timelines.SweepEnd | src/RenderContext.h:74-78 | the last note-off plus the tail is `Count * (noteFrames + tailFrames)`, the final cursor |
| Timelines.CountStep | src/RenderContext.h:82 | stepping the key by the stride leaves one pair fewer to emit |
| Timelines.Collected | src/RenderContext.h:80-81 | the sequence built by adding the sweep's events one by one to an empty sequence; it has as many events as the sweep |
| Timelines.CollectedSweep | src/RenderContext.h:61-83 | the sequence the sweep builds is time-ordered, holds exactly the sweep's events, and is the sweep itself pair by pair when both lengths are non-negative |
| ValueTrees.NewTree | src/RenderContext.h:30 | a freshly constructed tree has the given type name, no properties and no children (also the `layer` trees at line 46) |
| ValueTrees.SetProperty | src/RenderContext.h:31-41 | setting a property adds or replaces that key with that value; every other property keeps its value, and the name and children stay |
| ValueTrees.IndexOfChild | src/RenderContext.h:43 | returns the first child with the name, or -1 when no child has it |
| ValueTrees.GetOrCreateChildWithName | src/RenderContext.h:43 | when a child with the name exists, returns the tree unchanged and the position of the first such child; otherwise appends an empty child with that name and returns its position |
| ValueTrees.AppendToChild | src/RenderContext.h:49 | appends to the children of the chosen child and changes nothing else |
| Vcp.DefaultContext | src/RenderContext.h:9-26 | the default-initialised context (`Vcp.Default`, of the datatype `Vcp.RenderContext` that models the struct) has keys 36..60, inside the MIDI range, with stride 4 > 0; 3000 ms notes with 1000 ms tails; velocities 127, 96, 64, 32, in 1..127 and strictly decreasing, with only the first layer enabled; loop mode 0, loop start 500 before loop end 2500, crossfade 0; base name "Sample"; and an empty instrument name and output path |
| Vcp.Thousandths | src/RenderContext.h:66-67 | the quotient by 1000 truncated toward zero: for a non-negative n, r*1000 <= n < r*1000 + 1000; for a negative n, r*1000 - 1000 < n <= r*1000 |
| Vcp.FramesFor | src/RenderContext.h:66-67 | the frame count is `Thousandths(sampleRate * ms)`, i.e. trunc(sampleRate * ms / 1000); at a positive rate it is non-negative for a non-negative length and non-positive for a non-positive one |
| Vcp.SweepOf | src/RenderContext.h:64-71 | the loop's parameters: the stored key range, the layer velocity cut to a byte (unchanged when already in 0..255), and note and tail frame counts that are non-negative when the lengths are |
| Vcp.CreateMidiMessageSequence | src/RenderContext.h:55-86 | the result is the sweep's events added one by one; it is time-ordered, a permutation of the emitted sweep and has two events per visited key; with non-negative lengths it is exactly the closed-form sweep |
| Vcp.DefaultSweep | src/RenderContext.h:9-15 | the defaults at 44100 Hz give 7 pairs: first note-on at 0 for key 36 with velocity 127, first note-off at 132300, second note-on at 176400, last note-off for key 60 at 1190700 |
| Vcp.LayerNodes | src/RenderContext.h:44-50 | the first n `layer` children record layers 0..n-1 in index order |
| Vcp.AppendLayer | src/RenderContext.h:44-50 | appending layer n to the `layers` child of a tree that holds n layers gives the tree that holds n+1 |
| Vcp.Serialise | src/RenderContext.h:28-53 | the saved tree is `versicap`, has exactly the eleven saved properties with no `loopEnd`, and has one empty-property `layers` child with four children |
| Vcp.CreateValueTree | src/RenderContext.h:28-53 | the tree the method builds step by step is the saved form `Serialise` |
| Vcp.SerialisedScalars | src/RenderContext.h:31-41 | each saved property holds the value of the field of the same name |
| Vcp.SerialisedLayer | src/RenderContext.h:44-50 | layer child i is a `layer` with exactly `enabled = layerEnabled[i]` and `velocity = layerVelocities[i]` and no children |
| Vcp.ScalarPropertiesDetermine | src/RenderContext.h:31-41 | equal saved properties mean equal values in the eleven saved fields |
| Vcp.LayerNodeDetermines | src/RenderContext.h:46-47 | a `layer` child determines its flag and velocity |
| Vcp.SavedTreeDeterminesAllButLoopEnd | src/RenderContext.h:31-41 | two contexts save to the same tree exactly when they agree on every field except `loopEnd` |
| Vcp.LoopEndIsNotSaved | src/RenderContext.h:31-41 | changing only `loopEnd` does not change the saved tree |

## Left out

- The sample rate is a `double` in the source and an integer number of hertz here. The source computes `noteLength / 1000.0` in floating point before it multiplies and truncates toward zero, so when the exact product is a whole number, rounding can move the source's frame count one step toward zero from the model's: one lower for a positive product (100 Hz and 290 ms give 28 in the source, 29 here) and one higher for a negative one (100 Hz and -290 ms give -28 in the source, -29 here).
- Integer widths are not modelled. `int` keys and the `int64` frame cursor are unbounded here. Overflowing them is undefined behaviour in the source and is far outside any usable key range or length.
- Frame timestamps become `double` in the source. They are exact below 2^53 frames, so the model keeps them as integers.
- JUCE's byte encoding of messages is not modelled. That covers the status byte built from the channel, `key & 127`, and the velocity clamp inside `MidiMessage::noteOn`. An event records the channel, key, velocity and frame it was made with.
- The `jassert` checks at src/RenderContext.h:57-59 become preconditions of `Vcp.CreateMidiMessageSequence`. A release build does not enforce them, and the model does not cover calls that break them.
- `createMidiMessageSequence` returns a heap-allocated sequence owned by the caller. The model returns a value.
- `ValueTree` is a shared handle in JUCE. The `layers` handle and the tree's own child are the same object. The model addresses that child by its position instead.
- The GUI, device, plugin and window code, command IDs, and capture or export logic are not part of this model. The loop settings are stored data only.
