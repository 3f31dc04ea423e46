# Echo Satellite: verified models

Dafny models of the parts of Echo Satellite where the obvious code is an optimisation or a
distributed form of something simpler, with proofs that the two agree. `dafny verify dfyconfig.toml`
checks everything.

## What is modelled

**Incremental inference.** `Windows` is the algebra of (need, consume) stages over abstract rows:
any split of the input into writes, and any chain, equals one window operator over the whole input.
`Stream` is the code that runs it in place over flat buffers. `Conv`, `MaxPool`, `Broadcast`,
`Transpose`, `Pad`, `Slice`, `Pack` and `Reduce` are the kernels as loops over buffers, each proved
against what its output elements mean; `Odometer` and `Shapes` hold the mixed-radix index algebra
they walk with. `ConvStage`, `PoolStage`, `ElementStage`, `PadStage` and `UnaryStage` instantiate the
stage algebra with the real kernels, and `Layers` chains any of them into the whole model.

**Wake and turn hand-off.** `RingBuffer` and `Wake` are the history ring and the wake pipeline,
`WakeRuns` what whole runs of it carry, `WakeEvents` which candidates of a run become events.
`Endpointing` is the online endpoint controller and the declarative rule it implements. `Capture` numbers
and distributes frames, `Turns` is the turn coordinator, and `Handoff` is the state machine of everything around it: one step per mutex-held section, channels as
bounded sequences, launched endings that run late, triggers between their two locked halves.
`HandoffJoin` says when a pre-roll joins the coordinator's frames, `HandoffEndings` which of the launched
endings ends a turn and what it leaves open, `HandoffTurns` what becomes of every turn and what the detector
hears of it, `HandoffSend` which turns can be sent, and `HandoffRuns` holds the runs on which stronger
claims fail. `RuntimeConfig` is the configuration protocol around turns, `RuntimeOffers` the answer to
every offer and what it can put in force.

**The turn protocol.** `Gateway` is the automaton that ends a session on any mis-sequenced frame,
`GatewayOrder` says which whole sequences it accepts. `ClientQueue` is the device's bounded queue,
`TurnProtocol` gateway and queue together under every interleaving of sender, writer, reader, reports, failures and reconnections, `TurnCapacity` how much room a turn
needs to be certain.

**Storage and events.** `FileSystem` is a directory whose names and contents become durable only
when synchronised, each name on its own; `ModelStore` installs models through it with any step
failing. `Wav`, `WavFile` and `WavWriter` are the WAV format, reader and writer. `Buttons` is the
recogniser and watcher, `ButtonTraces` every run of them with timers firing in any order, `ButtonEmits`
what each input of such a run emits. `LogRotate` is the rotating log.

Each imperative component is a class whose methods are proved against a transition function on
values; the state machines and their run lemmas use those functions.

## What the proofs found

The code is modelled as it is. Where a plausible claim about it is false, a lemma shows the failing
input or run, and another proves the condition under which the claim holds.

- Stream configuration takes the filter height for a convolution's need and ignores dilation along
  time, so a time-dilated layer is accepted and then fails every write (`ConvStage.EmitsIffUndilated`).
- Validation looks at a constant's extent along time only when it has all four axes, and never at its
  extent along the batch axis. An element-wise stage is a window operator exactly when the first is 1 and
  the second either is 1 too or never shows, the operator having one answer per column
  (`ElementStage.ElementComputesIff`). A three-axis constant that varies along time lets through exactly
  the feeds of its own length (`ElementStage.LowerRankConstant`). Nor does validation look at a padding of
  the batch axis or at negative ones; a pad stage is a window operator exactly when it pads no batch
  and stays inside its rows (`PadStage.PadComputesIff`).
- `transpose` checks that axes are in range, not that they are distinct. It reads outside its input exactly
  when its last read does (`Transpose.Transpose`); a repeated axis leaves some inputs and not
  others (`Transpose.RepeatedAxisLeavesIff`). `padZero` takes negative paddings and writes outside its
  output exactly when its first or its last write does (`Pad.EndsDecide`, `Pad.NegativeSpills`).
- Turn endings run late and carry no mark of their turn. With nothing dropped, a turn that a remembered
  frame ended can be handed over as an overrun, and the ending left over then ends the next turn
  (`HandoffRuns.OverrunWithoutDrop`). A turn is sure to end as its own first stop says exactly when
  nothing was left over at its start and nothing stops it again (`HandoffEndings.TurnEndsAsStoppedIff`).
- An ending that is not the controller's own leaves the endpoint controller open
  (`HandoffEndings.EndingLeavesOpenIff`), and requests are then refused exactly until the endpointing
  rule has a verdict on what is heard meanwhile (`HandoffEndings.IdleRefusesIff`). Frames of a turn are not
  remembered, so a turn that begins inside the previous one overruns (`HandoffRuns.GapAfterTurn`,
  `HandoffJoin.OverrunsIffGap`).
- The comment in `SendTurn` says that room is reserved for its three control frames. PCM can fill the
  queue before the last of them, which never waits, and so can the reader's answers and deferred results;
  the turn is then given up half sent and the next one's start ends the session. What is needed, exactly, is
  room for all of the turn's frames and for whatever else is pushed meanwhile
  (`TurnCapacity.ReservationIsExact`, `TurnProtocol.GiveUpRefusesNext`).
- A wake turn's pre-roll is one PCM frame. Above 2048 ms, which validation allows, it exceeds the
  frame limit after the turn was opened (`TurnCapacity.PreRollMsFits`,
  `TurnCapacity.WrongFrameBreaksSession`); a turn handed over can be sent exactly when its pre-roll fits
  (`HandoffSend.DeliveredSendableIff`).
- A frame crosses a reconnection exactly when it is a configuration result queued after the drain of the
  session whose connection it saw (`TurnProtocol.CrossesIffLate`, `TurnProtocol.CrossingWasQueuedLate`),
  and there is such a run (`TurnProtocol.ReportLeaksIntoNextSession`).
- A configuration save can fail after its rename: the revision, offered or held, is then rejected and
  persisted (`RuntimeConfig.RejectedButPersisted`, `RuntimeConfig.RejectedCommit`), and exactly such a
  save makes what is persisted differ from what is in force (`RuntimeConfig.StoreDiffersIff`). Settings and
  engine change under a turn exactly when it started between the idle check and the commit (`RuntimeConfig.ChangedDuringTurnIff`,
  `RuntimeConfig.TurnStartedAfterCheck`). A newer revision applied between becoming idle and applying the
  held one is overwritten by it (`RuntimeConfig.OlderPendingOverwritesNewer`).
- A model asset found in place is accepted without synchronising the directory. After two installations
  that failed at their directory syncs, a third renames its index with no sync before it, and a crash can
  leave an index that names a missing artifact (`ModelStore.ArtifactCanVanish`); after one it cannot
  (`ModelStore.InterruptedOnce`). `ModelStore.IndexRenameSafeIff` says exactly when the rename is harmless.
- The WAV writer's byte-rate check wraps in 64 bits (`WavFile.WrappedByteRate`).
- Cutting an existing log generation to its share keeps its beginning, so its newest bytes are lost
  (`LogRotate.OpeningLosesEnds`), and the log need not stay a suffix of itself
  (`LogRotate.OpeningKeepsSuffixIff`).
- A button release reported late can turn a hold that was announced into a tap
  (`ButtonTraces.HoldStartWithoutEnd`).

Hypotheses that the theorems name: the wake
subscription dropped nothing and a position is at most 9,223,372,036 samples (about 6.7 days), for a
wake request to be sound; becoming idle and checking for a held configuration are one step, for the
version to be monotone; engines are memoryless and their scores usable, for pre-gating to be
invisible; only armed timers fire; log writes meet no I/O error.

## Model

| member | source | states |
|---|---|---|
| `Windows.EmitAt` | internal/device/wake/tflite/stream.go:10-20 | output row k of a (need, consume) stage is its operator on the need rows from k * consume on, and on nothing else |
| `Windows.EmitConcat` | internal/device/wake/tflite/stream.go:200-228 | feeding a stage in two pieces, keeping only its carry in between, emits the same rows as feeding it at once |
| `Windows.HeldWaits` | internal/device/wake/tflite/stream.go:202-206 | every stage always ends holding fewer rows than it needs |
| `Windows.FeedFromNothing` | internal/device/wake/tflite/stream.go:180-185 | once a stage passes nothing on, feeding the later stages nothing changes nothing: the early return loses nothing |
| `Windows.AnySplitIsWhole` | internal/device/wake/tflite/stream.go:10-20 | for every valid chain and every split of a row sequence into feeds, the concatenated outputs are the stages composed over the whole sequence |
| `Windows.ReachClosedForm` | internal/device/wake/tflite/stream.go:61-83 | the rows a chain needs before its first output: need_0 plus, for every later stage, (need_i - 1) times the product of the consumes before it |
| `Windows.WholeLength` | internal/device/wake/tflite/stream.go:61-83 | a chain emits as many rows as a single window operator with that reach and the product of the consumes |
| `Windows.ChainIsOneWindow` | internal/device/wake/tflite/stream.go:112-140 | a chain of stages is itself one window operator: output row k is the whole-window evaluation of rows [k * S, k * S + W) |
| `Stream.Stage.Run` | internal/device/wake/tflite/stream.go:200-228 | buffers, runs and compacts in place: result and new buffer are the flat stage transition; a partial row is refused and changes nothing, kernel errors and a wrong row count are reported and keep what was buffered |
| `Stream.RunIsWindow` | internal/device/wake/tflite/stream.go:200-228 | a stage whose kernel computes a window emits exactly that window's rows over carry and input, and keeps exactly the carry |
| `Stream.Stream.Write` | internal/device/wake/tflite/stream.go:178-191 | threads the rows through the stages and stops at the first with nothing to pass on: result and all buffers are the chain transition |
| `Stream.Stream.Reset` | internal/device/wake/tflite/stream.go:194-198 | empties every buffer and keeps the stages |
| `Stream.WriteIsFeed` | internal/device/wake/tflite/stream.go:178-228 | the flat buffers of a write represent the rows the window algebra holds, before and after |
| `Stream.StreamIsWholeModel` | internal/device/wake/tflite/stream.go:10-20 | however the rows are split into Write calls on a fresh or reset stream, no call fails and the values returned are those of every stage's window operator over the whole input |
| `Stream.WholeIsInvoke` | internal/device/wake/tflite/interp.go:155-181 | with rows enough for one output row, those values are what running every kernel once on the whole input gives |
| `Layers.LayerComputes` | internal/device/wake/tflite/stream.go:112-171 | every layer kind a stream accepts, run by its own kernel, is a window operator under its exact condition |
| `Layers.LayersAreWholeModel` | internal/device/wake/tflite/stream.go:10-20 | for every chain of suitable convolutions, pools, paddings, element-wise and unary operators and every split of the rows into writes: no call fails, and the values are those of running each kernel once on the whole input |
| `Layers.StreamIsWindowedModel` | internal/device/wake/tflite/stream.go:10-20 | and row k of what is written is what running each kernel once on rows [k * S, k * S + W) alone gives |
| `TimeStage.LocalKernelComputes` | internal/device/wake/tflite/stream.go:112-140 | a stage running a kernel whose output rows read only their own window of time rows is a window operator |
| `TimeStage.RowLocalComputes` | internal/device/wake/tflite/stream.go:151-171 | an operator whose output rows are each made from one input row alone is a window operator of need and consume one |
| `UnaryStage.MapEach` | internal/device/wake/tflite/kernels_math.go:81-90 | every output is the operator of its own input, in place |
| `UnaryStage.UnaryStageComputes` | internal/device/wake/tflite/stream.go:157-158 | a stage that transforms each value on its own is a window operator over single rows |
| `ElementStage.KernelIsCombined` | internal/device/wake/tflite/kernels_math.go:88-119 | what the element-wise kernel returns is the value the stage is modelled with, and nothing else |
| `ElementStage.ElementStageComputes` | internal/device/wake/tflite/stream.go:151-171 | an element-wise stage whose constant has extent one along batch and time is a window operator over single rows |
| `ElementStage.ElementComputesIff` | internal/device/wake/tflite/stream.go:162-166 | it computes some window at all if and only if the constant has extent one along time and either along the batch axis too, or a larger one there that never shows because the operator has one answer per column |
| `ElementStage.FeedPassesIff` | internal/device/wake/tflite/stream.go:216-223 | a feed passes the row-count check exactly when the constant does not vary along time or is as long as what is buffered |
| `ElementStage.LowerRankConstant` | internal/device/wake/tflite/stream.go:162-166 | a three-axis constant that varies along time passes validation, and then exactly the feeds that leave as many rows as it has pass the check |
| `PadStage.ProducedIff` | internal/device/wake/tflite/kernels_math.go:551-580 | for paddings of either sign, the kernel does not fail exactly when the output has a shape and every value is written inside it |
| `PadStage.KernelAt` | internal/device/wake/tflite/kernels_math.go:551-580 | each output position holds the last value written there, or zero |
| `PadStage.PadStageComputes` | internal/device/wake/tflite/stream.go:130-137 | a padding of either sign that stays inside its rows is a window operator over single rows |
| `PadStage.PadComputesIff` | internal/device/wake/tflite/stream.go:134-136 | a validated pad stage computes some window if and only if it pads nothing along the batch axis and what it writes for a row stays inside that row; validation looks at neither |
| `PadStage.PositiveInside` | internal/device/wake/tflite/kernels_math.go:551-580 | without negative paddings every row stays inside its output row |
| `Vec.Dot` | internal/device/vec/vec.go:20-38 | the four-lane inner product is the plain sum of products, for every length |
| `Vec.Axpy` | internal/device/vec/vec.go:40-45 | every dst[i] below the length of x gains gain * x[i]; the rest is unchanged |
| `Conv.ValidTapsInside` | internal/device/wake/tflite/interp.go:216-234 | without padding the output positions are exactly those whose every tap lies inside the input, for all strides and dilations |
| `Conv.SameWindowNeverEmpty` | internal/device/wake/tflite/interp.go:216-234 | with SAME padding and no dilation every output position reads at least one input coordinate |
| `Conv.SameIsBalanced` | internal/device/wake/tflite/interp.go:214-234 | SAME padding has as many positions as strides cover the input, and what its windows reach past the end is what they reach before the beginning or one more |
| `Conv.TimeGeometry` | internal/device/wake/tflite/stream.go:112-140 | a time window a stream accepts has no padding in time, and as many outputs as its window positions when undilated |
| `Conv.PixelInside` | internal/device/wake/tflite/kernels_nn.go:56-91 | every coordinate inside the image is a valid index of the input buffer |
| `Conv.WeightInside` | internal/device/wake/tflite/kernels_nn.go:56-91 | every tap is a valid index of the filter buffer |
| `Conv.RowIsClippedDot` | internal/device/wake/tflite/kernels_nn.go:62-76 | with one channel and no width dilation, a filter row over the zero-padded image is one inner product over the clipped run |
| `Conv.ConvDot` | internal/device/wake/tflite/kernels_nn.go:56-91 | both paths, general and one-channel clipped, return the zero-padded sum over every tap and channel plus the bias, without leaving a buffer |
| `Conv.AddClippedRow` | internal/device/wake/tflite/kernels_nn.go:62-76 | the clipped path adds exactly the zero-padded sum of its filter row |
| `Conv.AddRow` | internal/device/wake/tflite/kernels_nn.go:77-89 | the general path adds exactly the zero-padded sum of its filter row |
| `Conv.Conv2D` | internal/device/wake/tflite/kernels_nn.go:12-54 | every output cell holds the activated zero-padded sum of its position, in row-major order, with the padding its geometry asks for |
| `ConvStage.ConvIsLocal` | internal/device/wake/tflite/kernels_nn.go:30-54 | each output row of an undilated time convolution depends on its own kh input rows alone |
| `ConvStage.StageRunsKernel` | internal/device/wake/tflite/stream.go:210-218 | what a convolution stage runs is the kernel with the padding it works out itself |
| `ConvStage.ConvStageComputes` | internal/device/wake/tflite/stream.go:112-140 | an accepted, undilated time convolution is a window operator over its rows |
| `ConvStage.EmitsIffUndilated` | internal/device/wake/tflite/stream.go:112-140 | configuration takes the filter height for the need and ignores dilation: a feed with enough rows returns rows if and only if the filter is undilated in time, and otherwise fails its row-count check |
| `MaxPool.BestIsMaximum` | internal/device/wake/tflite/kernels_nn.go:112-140 | the running best over a window is a value of the window and no value exceeds it |
| `MaxPool.PoolIsMaximum` | internal/device/wake/tflite/kernels_nn.go:93-142 | a pooled value is the activated maximum of the image values under its window, and no window is empty |
| `MaxPool.WindowMax` | internal/device/wake/tflite/kernels_nn.go:112-137 | the clipped double loop returns the best over all taps inside the image |
| `MaxPool.MaxPool2D` | internal/device/wake/tflite/kernels_nn.go:93-142 | every output cell holds the activated maximum of its window, in row-major order, with the padding its geometry asks for |
| `PoolStage.PoolIsLocal` | internal/device/wake/tflite/kernels_nn.go:93-142 | each pooled row depends on its own window of rows alone |
| `PoolStage.StageRunsKernel` | internal/device/wake/tflite/stream.go:210-218 | what a pool stage runs is the kernel with the padding it works out itself |
| `PoolStage.PoolStageComputes` | internal/device/wake/tflite/stream.go:112-140 | an accepted time pool is a window operator over its rows |
| `Shapes.UnflatOf` | internal/device/wake/tflite/kernels_math.go:70-79 | the mixed-radix digits of a row-major position are the multi-index it came from |
| `Shapes.FlatOf` | internal/device/wake/tflite/kernels_math.go:70-79 | every position below the element count is the position of its digits, all within the shape |
| `Shapes.DotContiguous` | internal/device/wake/tflite/kernels_math.go:70-79 | the inner product of a multi-index with contiguous strides is its row-major position |
| `Odometer.NextCounts` | internal/device/wake/tflite/kernels_math.go:56-68 | one odometer step is one more, or zero after the last position |
| `Odometer.NextUnflat` | internal/device/wake/tflite/kernels_math.go:56-68 | after i steps from zero the odometer shows the mixed-radix digits of i |
| `Odometer.Step1` | internal/device/wake/tflite/kernels_math.go:56-68 | advances the index in place and keeps offset minus inner product of index and strides, carries included |
| `Odometer.Step` | internal/device/wake/tflite/kernels_nn.go:241-255 | the same for two sources at once |
| `Odometer.WalkStep` | internal/device/wake/tflite/kernels_math.go:56-68 | before output position i the offset is the base plus the inner product of i's digits with the strides |
| `Odometer.ContiguousStrides` | internal/device/wake/tflite/kernels_math.go:70-79 | the loop from the last axis computes the contiguous strides |
| `Broadcast.BroadcastShape` | internal/device/wake/tflite/kernels_math.go:13-34 | returns the common shape exactly when every right-aligned pair of axes agrees or has a 1 |
| `Broadcast.CommonStretches` | internal/device/wake/tflite/kernels_math.go:13-34 | both operands stretch to the common shape, and it does not depend on their order |
| `Broadcast.Strides` | internal/device/wake/tflite/kernels_math.go:38-53 | the loop fills zero for stretched axes and the source's own strides for the others |
| `Broadcast.StridesProject` | internal/device/wake/tflite/kernels_math.go:38-53 | walking with these strides reaches the source element whose stretched coordinates are zero |
| `Broadcast.StretchInRange` | internal/device/wake/tflite/kernels_math.go:92-119 | every strided read of a stretched source stays inside it |
| `Broadcast.SameCountIsIdentity` | internal/device/wake/tflite/kernels_math.go:98-106 | when a stretched source has as many elements as the output, the strided path reads element i for output i: the fast path gives the same result |
| `Broadcast.Elementwise` | internal/device/wake/tflite/kernels_math.go:92-119 | fails exactly on incompatible shapes; otherwise every output combines the two source elements behind it, on both paths |
| `Transpose.Transpose` | internal/device/wake/tflite/kernels_math.go:582-617 | rejects a permutation of the wrong length or range, reads outside the input exactly when the last offset does, and otherwise permutes |
| `Transpose.LastDecides` | internal/device/wake/tflite/kernels_math.go:611-615 | every read of the walk is in range if and only if the last one is |
| `Transpose.PermutationInRange` | internal/device/wake/tflite/kernels_math.go:582-617 | a permutation of the axes never reads outside the input |
| `Transpose.TransposeBack` | internal/device/wake/tflite/kernels_math.go:582-617 | transposing by a permutation and then by its inverse is the identity, for every rank and shape |
| `Transpose.RepeatedAxisLeavesIff` | internal/device/wake/tflite/kernels_math.go:590-615 | a repeated axis passes the range check; of two axes, the first named twice leaves exactly the inputs of at least two rows, the second exactly a single row of at least two values, empty inputs aside |
| `Pad.PadZero` | internal/device/wake/tflite/kernels_math.go:551-580 | fails exactly on too few paddings, leaves the output exactly when the first or the last write does, for paddings of either sign, and otherwise leaves at each position the last element written there |
| `Pad.EndsDecide` | internal/device/wake/tflite/kernels_math.go:571-578 | every write of the walk lands in the output if and only if the first and the last do |
| `Pad.PaddingMargins` | internal/device/wake/tflite/kernels_math.go:551-580 | without negative paddings nothing spills and the output is the input between zero margins |
| `Pad.NegativeSpills` | internal/device/wake/tflite/kernels_math.go:560-562 | a negative padding, which is not refused, can make a write leave the output |
| `Pad.TargetOrigin` | internal/device/wake/tflite/kernels_math.go:571-578 | the odometer writes element i where its origin is i, inside the output |
| `Pad.OriginTarget` | internal/device/wake/tflite/kernels_math.go:571-578 | an output position with an origin is written by that element and no other |
| `Slice.AxisVisits` | internal/device/wake/tflite/kernels_math.go:362-410 | for either stride sign and all masks an axis visits first, first + stride, ... exactly while strictly before the stop, each inside [0, dim) |
| `Slice.AxisSelects` | internal/device/wake/tflite/kernels_math.go:376-410 | an unshrunk axis visits exactly the existing indices between the requested beginning and end, each counted from the end when negative or open by its mask, that are whole strides from the first |
| `Slice.ShrunkAxis` | internal/device/wake/tflite/kernels_math.go:366-376 | a shrunk axis is accepted exactly when the requested index exists, and selects it alone |
| `Slice.AcceptedAxisInside` | internal/device/wake/tflite/kernels_math.go:362-403 | every index of an accepted axis, shrunk or not, exists |
| `Slice.SourceWithin` | internal/device/wake/tflite/kernels_math.go:270-299 | every selected multi-index lies inside the input shape |
| `Slice.Plan` | internal/device/wake/tflite/kernels_math.go:320-349 | refuses exactly when some axis does; otherwise plans, output shape and axis map are the declarative ones |
| `Slice.Coordinate` | internal/device/wake/tflite/kernels_math.go:355-360 | dividing away the later axes gives that digit of the position |
| `Slice.StridedSlice` | internal/device/wake/tflite/kernels_math.go:270-299 | fails exactly on wrong counts or a refused axis; otherwise the output holds the selected input elements in order |
| `Pack.Stack` | internal/device/wake/tflite/kernels_math.go:455-500 | fails exactly on no inputs, a wrong declared count, different shapes or an axis out of range; otherwise interleaves the blocks of all inputs |
| `RoundTrips.PadThenSlice` | internal/device/wake/tflite/kernels_math.go:551-580 | slicing the margins away after padding returns the original tensor |
| `RoundTrips.PackThenSlice` | internal/device/wake/tflite/kernels_math.go:455-500 | slicing a packed tensor with shrink at index i of the packed axis, counted from the end when negative, returns input i |
| `RoundTrips.PadAndSlice` | internal/device/wake/tflite/kernels_math.go:270-299 | running both kernels is total on enough paddings and returns its input |
| `RoundTrips.PackAndSlice` | internal/device/wake/tflite/kernels_math.go:270-299 | running both kernels never fails and returns input i, for every rank, shape and axis |
| `Reduce.Axes` | internal/device/wake/tflite/kernels_math.go:205-224 | fails exactly on an axis out of range; marks the named axes, or all when none is named |
| `Reduce.TargetKept` | internal/device/wake/tflite/kernels_math.go:166-190 | the target of an input is the position of its kept coordinates, with and without kept unit axes, and exists |
| `Reduce.WalkTarget` | internal/device/wake/tflite/kernels_math.go:166-190 | walking the input with the output strides stands at that target |
| `Reduce.OutputStrides` | internal/device/wake/tflite/kernels_math.go:166-176 | the loop from the last axis gives reduced axes 0 and the others the output's strides |
| `Reduce.MembersAre` | internal/device/wake/tflite/kernels_math.go:182-190 | the inputs folded into an output are those with that target, each once, in increasing order |
| `Reduce.MembersCount` | internal/device/wake/tflite/kernels_math.go:191-201 | every output gathers exactly as many inputs as the reduced axes multiply to, the number the mean divides by |
| `Reduce.ReduceOp` | internal/device/wake/tflite/kernels_math.go:157-203 | each output is the in-order fold of the inputs that share its kept coordinates |
| `Reduce.SumConserved` | internal/device/wake/tflite/kernels_math.go:157-203 | summing along any axes conserves the total |
| `Reduce.Mean` | internal/device/wake/tflite/kernels_math.go:191-201 | each output is the average of exactly its inputs; it has no value only when an axis of size zero is averaged |
| `RingBuffer.Ring.Write` | internal/device/audio/ring.go:32-53 | afterwards the ring holds the last capacity samples of what it held and what was written |
| `RingBuffer.Ring.Tail` | internal/device/audio/ring.go:55-69 | returns the most recent samples of a duration, or all; it fails exactly when the 64-bit sample count wraps negative |
| `RingBuffer.Ring.EnsureDuration` | internal/device/audio/ring.go:78-99 | never shrinks, keeps the contents, grows to the duration's samples; refuses negative durations |
| `RingBuffer.Ring.Reset` | internal/device/audio/ring.go:71-76 | forgets the contents and keeps the capacity |
| `RingBuffer.NewRing` | internal/device/audio/ring.go:18-30 | refuses exactly a bad rate, channel count, layout, duration or wrapped capacity |
| `RingBuffer.HoldsRecent` | internal/device/audio/ring.go:78-99 | through any writes, growths and resets the ring holds a suffix of what was written, at least its first capacity's worth |
| `RingBuffer.FillsAfterGrowth` | internal/device/audio/ring.go:78-99 | after a growth further writes fill the larger buffer before anything older is lost |
| `Wake.Gate.Decide` | internal/device/wake/gate.go:39-51 | accepts exactly a candidate that passes threshold, voice activity and refractory time, and only then moves the last acceptance; otherwise names the first rule that fails |
| `Wake.Pipeline.ObserveVAD` | internal/device/wake/pipeline.go:175-190 | the window keeps the newest lookback / 80 + 1 scores and the result is their maximum |
| `Wake.MaxIsMaximum` | internal/device/wake/pipeline.go:185-189 | the effective score is one of the window's and none exceeds it |
| `Wake.Pipeline.ProcessStep` | internal/device/wake/pipeline.go:90-173 | state, events and failure of a step are the step transition: configuration first, which keeps the last acceptance, then the scores, then gate and engines in order |
| `Wake.Pipeline.Frame` | internal/device/wake/pipeline.go:58-70 | appending a frame runs every whole step of the buffered samples in order and keeps the rest |
| `WakeRuns.FramesAreConcatenated` | internal/device/wake/pipeline.go:48-72 | a run over any framing is the run over the whole steps of the concatenated samples |
| `WakeRuns.FrameBoundariesDoNotMatter` | internal/device/wake/pipeline.go:48-72 | two framings of the same samples give the same steps, events and remaining samples |
| `WakeRuns.KeptConstant` | internal/device/wake/pipeline.go:175-184 | under a constant lookback the window holds the last lookback / 80 + 1 scores |
| `WakeRuns.WindowCovers` | internal/device/wake/pipeline.go:175-184 | a step is kept in the window exactly while it began at most the lookback before the newest one |
| `WakeRuns.WantedMs` | internal/device/audio/ring.go:55-64 | the pre-roll asked for is 16 samples a millisecond as long as no product wraps |
| `WakeRuns.AlwaysConsistent` | internal/device/wake/pipeline.go:48-72 | through any steps and ring growth, ring, position and window agree with everything the pipeline has been shown |
| `WakeRuns.EventPosition` | internal/device/wake/pipeline.go:113-114 | every event carries the position just after its step |
| `WakeRuns.EventPreRoll` | internal/device/wake/pipeline.go:155-161 | its pre-roll is a suffix of the processed samples ending at its position: all the configuration asks for when the first capacity covers it |
| `WakeRuns.EventPreRollAfterGrowth` | internal/device/wake/pipeline.go:155-161 | and all it asks for up to a larger capacity once the samples since the ring grew have filled it |
| `WakeRuns.EventScore` | internal/device/wake/pipeline.go:112-161 | it carries the voice-activity score and the lookback of its own step, and its effective score is the largest of the window |
| `WakeRuns.PreGatingKeepsEvents` | internal/device/wake/pipeline.go:122-137 | for memoryless engines with usable scores, scoring only behind the voice-activity gate leaves the accepted events and the gate unchanged |
| `WakeEvents.EventsKeepDistance` | internal/device/wake/pipeline.go:96-166 | over every run, with a configuration source or without: each event reaches the thresholds in force at its own step, and comes at least the interval in force there after the event before it, or after the acceptance the run began with |
| `WakeEvents.ConsecutiveEvents` | internal/device/wake/gate.go:39-51 | so two consecutive events of a run are never closer than the interval in force at the later one |
| `WakeEvents.AlwaysInformed` | internal/device/wake/pipeline.go:116-137 | on every run from the beginning the engines have been asked about exactly the measured steps, in order |
| `WakeEvents.CandidateDecided` | internal/device/wake/pipeline.go:139-166 | on every run from the beginning, the candidate of an engine becomes an event if and only if its step is measured, the engine's answer and the recent voice-activity scores reach the limits in force, and the newest event before it, of an earlier step or engine, is far enough away |
| `WakeEvents.StopsIff` | internal/device/wake/pipeline.go:102-137 | a run stops at a step exactly when the voice-activity score is unusable, or the step is measured and some engine's score is, or an event needs a pre-roll whose duration wrapped to a negative one |
| `Endpointing.Controller.StageValidatedConfig` | internal/device/endpointing/endpointing.go:82-92 | applies a configuration when idle and holds it otherwise |
| `Endpointing.Controller.Start` | internal/device/endpointing/endpointing.go:96-109 | starts exactly with a non-negative pre-roll and no turn, snapshotting the configuration |
| `Endpointing.Controller.Observe` | internal/device/endpointing/endpointing.go:113-147 | detector, counters, state and result after a frame are the controller transition |
| `Endpointing.Controller.EndOfStream` | internal/device/endpointing/endpointing.go:149-156 | ends an open turn with EOF and does nothing otherwise |
| `Endpointing.Controller.Cancel` | internal/device/endpointing/endpointing.go:159-177 | closes an open turn without a reason and applies a held configuration |
| `Endpointing.ObserveTracks` | internal/device/endpointing/endpointing.go:113-147 | on one frame the controller stops exactly when the declarative rule says so, and for its reason |
| `Endpointing.RunFollowsRule` | internal/device/endpointing/endpointing.go:82-177 | through any frames and staged configurations the turn stays open exactly while no prefix has a verdict, and the next turn uses what was staged last |
| `Endpointing.StopsOnceByRule` | internal/device/endpointing/endpointing.go:113-147 | the answer to a frame is timeout, else trailing silence after onset, else no speech, at the first frame that satisfies it, and never again |
| `Endpointing.OpenTurnBelowLimit` | internal/device/endpointing/endpointing.go:121-124 | while a turn is open its audio is below the limit, unless its pre-roll alone reaches it and no frame has followed |
| `Endpointing.SpokenIsSomeStretch` | internal/device/endpointing/endpointing.go:125-136 | the turn has spoken if and only if some stretch of consecutive speech frames is as long as the onset |
| `Pcm.DecodeEncode` | cmd/echod/runtime.go:517-523 | decoding undoes encoding, for every sample sequence |
| `Pcm.EncodeDecode` | internal/device/audio/wav.go:55-60 | encoding undoes decoding when no byte is left over |
| `Pcm.EncodePCM` | cmd/echod/runtime.go:517-523 | the loop writes the little-endian bytes of every sample |
| `Capture.RunCapture` | internal/device/audio/capture.go:63-108 | the loop stops at the first read that is neither an overrun nor in order, for its reason; each emitted frame begins where the samples before it end, frames together are what the reads up to there returned, overruns are counted |
| `Capture.Subscription.Offer` | internal/device/audio/fanout.go:74-84 | a full channel drops the frame for this subscriber alone and counts it; nothing else changes |
| `Capture.Subscription.Receive` | internal/device/audio/fanout.go:74-84 | the reader gets sent frames in order, each once, except for the counted drops |
| `Capture.NothingThinned` | internal/device/audio/fanout.go:54-54 | with no drop counted a subscriber receives exactly what was sent |
| `Turns.TurnCoordinator.Reserve` | cmd/echod/runtime.go:334-346 | claims the coordinator exactly when connected, idle and unclaimed |
| `Turns.TurnCoordinator.AppendFrame` | cmd/echod/runtime.go:462-475 | skips what is already there, appends what follows the turn's audio, and answers a gap with an overrun |
| `Turns.TurnCoordinator.Start` | cmd/echod/runtime.go:419-442 | opens the turn on its pre-roll and appends the remembered frames until one ends it |
| `Turns.TurnCoordinator.Observe` | cmd/echod/runtime.go:444-460 | remembers frames while idle; in a turn answers a counted drop with an overrun and otherwise appends |
| `Turns.TurnCoordinator.Remember` | cmd/echod/runtime.go:479-487 | drops the oldest frames until at most five seconds are kept |
| `Turns.TurnCoordinator.Finish` | cmd/echod/runtime.go:496-505 | ends an active turn once, and hands over exactly that turn with its reason, exactly while connected |
| `Turns.TurnCoordinator.SetConnected` | cmd/echod/runtime.go:370-378 | a disconnection leaves neither turn nor claim and an idle controller; becoming idle is reported exactly when there was one of them |
| `Handoff.AppendKeeps` | cmd/echod/runtime.go:462-475 | appending keeps the turn one contiguous slice that ends at the next offset |
| `Handoff.StartKeeps` | cmd/echod/runtime.go:419-442 | so does starting, for every history |
| `Handoff.StepKeeps` | cmd/echod/runtime.go:402-515 | every step of every participant keeps frames, requests and turns slices of the captured stream |
| `Handoff.AlwaysKnown` | cmd/echod/runtime.go:402-515 | on every run each turn in progress or handed on answers a request that was made, with its trigger, its position and all of its pre-roll |
| `Handoff.ButtonRequestSound` | cmd/echod/runtime.go:489-494 | on every run the position a button reads is one in the captured stream, so its request without a pre-roll is sound whenever it is made |
| `Handoff.DeliveredTurnsAreSlices` | cmd/echod/runtime.go:402-515 | for every interleaving of capture, triggers, coordinator, asynchronous endings and connection changes, a delivered turn answers a request: its audio is one contiguous slice of the captured stream from the pre-roll's first sample on |
| `HandoffSend.DeliveredSendableIff` | cmd/echod/runtime.go:430-432 | a delivered turn answers a request, and its PCM can be sent exactly when that request's pre-roll is at most 32,768 samples |
| `Handoff.AlwaysClaims` | cmd/echod/runtime.go:334-378 | on every run that begins without a claim: without a connection there is neither turn nor claim, and a claim belongs to a request still on its way |
| `Handoff.FirstRequestIsTaken` | cmd/echod/runtime.go:334-378 | on every run, after any disconnection, the first request after the next connection is taken unless an older one still on its way has started a turn by then |
| `Handoff.RefusedSendGivesBack` | cmd/echod/runtime.go:346-355 | a request that finds no room gives its claim back, and the next one is taken at once |
| `HandoffTurns.TurnsConserved` | cmd/echod/runtime.go:358-515 | on every run each turn that was started is in progress, on its way, delivered, or given up: by a disconnection, or because another one still waits to be taken |
| `HandoffTurns.EndingHandsOver` | cmd/echod/runtime.go:496-515 | on every run an ending that finds its turn in progress hands over exactly that turn with its reason, any other ending nothing, and the coordinator is idle afterwards |
| `HandoffTurns.DetectorHearsTurn` | cmd/echod/runtime.go:419-475 | on every run, while a turn is in progress its audio is the pre-roll and then, piece by piece, exactly what the endpoint detector has heard since the start |
| `HandoffTurns.DetectorHearsIdle` | cmd/echod/runtime.go:444-452 | between turns the detector hears every frame that is read, whole and in order |
| `HandoffJoin.PositionRoundTrip` | cmd/echod/runtime.go:675-677 | samples to nanoseconds and back is exact if and only if the count is at most 9,223,372,036 |
| `HandoffJoin.WakeRequestSound` | cmd/echod/runtime.go:675-677 | a wake request asks for exactly the samples captured before it when its subscription dropped nothing |
| `HandoffJoin.WakeEventIsSound` | internal/device/wake/pipeline.go:155-161 | the same from the pipeline's state: every event it emits becomes such a request |
| `HandoffJoin.HistoryJoins` | cmd/echod/runtime.go:433-438 | adding the remembered frames overruns only over a gap after the pre-roll, and a gap never passes silently |
| `HandoffJoin.AlwaysTidy` | cmd/echod/runtime.go:444-487 | on every run what is remembered and queued is in stream order and the remembered size is exact |
| `HandoffJoin.AlwaysBrief` | cmd/echod/runtime.go:444-487 | and every frame of it is as short as the capturer makes them |
| `HandoffJoin.IdleRun` | cmd/echod/runtime.go:444-487 | through any run without drops an idle coordinator remembers everything since its beginning, or the last 78,720 samples |
| `HandoffJoin.MemoryIsBounded` | cmd/echod/runtime.go:479-487 | on every run at most five seconds of audio are remembered, and the size kept is exact |
| `HandoffJoin.StartJoins` | cmd/echod/runtime.go:419-442 | a request that ends inside what is remembered, or ahead of the coordinator, starts without an overrun and joins unless a remembered frame ends it early |
| `HandoffJoin.JoinedAudio` | cmd/echod/runtime.go:444-475 | a joined turn's audio is the captured stream from its base to at least as far as the coordinator has read |
| `HandoffJoin.JoinedTurnNeverOverruns` | cmd/echod/runtime.go:444-475 | a joined turn stays joined and launches no overrun while its subscription drops nothing, whatever endings are left over |
| `HandoffJoin.WakeTurnOverrunsIff` | cmd/echod/runtime.go:419-487 | on every run, from an idle stretch to the end of the turn after it, without drops and for every relative progress of the two subscribers: an overrun is launched exactly when a remembered frame before the newest ended the turn and another frame is read before that ending runs |
| `HandoffEndings.NextFrameAfterStop` | cmd/echod/runtime.go:453-458 | the next frame of a stopped turn launches another ending exactly when something was dropped or it begins after the turn's audio, and that ending is an overrun |
| `HandoffEndings.TurnEndsAsStoppedIff` | cmd/echod/runtime.go:433-438 | on every run, whichever ending runs, a turn ends as its own first stop says if and only if no earlier turn's ending was left over when it started and nothing stopped it again since |
| `HandoffEndings.EndingLeavesOpenIff` | cmd/echod/runtime.go:496-515 | whatever ending runs, the idle coordinator it leaves has an open controller exactly when that had not stopped the turn itself |
| `HandoffEndings.ControllerOpenIff` | cmd/echod/runtime.go:419-460 | on every run the controller is open exactly while the endpointing rule has no verdict on what was heard since the last start and nothing disconnected since |
| `HandoffEndings.IdleRefusesIff` | cmd/echod/runtime.go:419-429 | an idle, connected coordinator refuses a request exactly then |
| `HandoffRuns.OverrunWithoutDrop` | cmd/echod/runtime.go:433-438 | a run on which, with nothing dropped, a turn ended by a remembered frame is handed over as an overrun and the ending left over ends the next turn before any audio |
| `HandoffJoin.OverrunsIffGap` | cmd/echod/runtime.go:433-475 | unless endpointing ends the turn at once, a start or the frame after it overruns exactly when the remembered frames and that one leave a gap after the pre-roll |
| `HandoffRuns.GapAfterTurn` | cmd/echod/runtime.go:444-456 | a run on which a turn that begins inside the one before it overruns at its first frame, leaves the controller open, and the next request is refused |
| `RuntimeConfig.CompareIsOrder` | internal/device/config/config.go:169-179 | a revision replaces another exactly when identical or newer; both ways only when equal |
| `RuntimeConfig.DeviceRuntimeConfig.Check` | cmd/echod/runtime.go:133-185 | everything up to the idle check, the model check before anything is prepared or persisted: state, and the result unless the coordinator was found idle |
| `RuntimeConfig.DeviceRuntimeConfig.Commit` | cmd/echod/runtime.go:186-191 | everything after it, whether or not a turn has started: state and result for every outcome of the save |
| `RuntimeConfig.DeviceRuntimeConfig.Apply` | cmd/echod/runtime.go:133-191 | the two without interruption, for every candidate and every outcome of model check, preparation and save |
| `RuntimeOffers.AnswerIff` | cmd/echod/runtime.go:133-191 | the answer to an uninterrupted offer, for every reason: each rejection code, Held and Applied is given exactly under its own condition on versions, model, engine, pre-roll, turn and save |
| `RuntimeOffers.AppliedEffects` | cmd/echod/runtime.go:186-242 | a newer revision that is applied is in force and persisted, is the next turn's endpointing, runs the engine prepared for it and closes the old one |
| `RuntimeOffers.HeldEffects` | cmd/echod/runtime.go:178-185 | one that is held takes the place of what was held, whose engine is closed, and changes nothing in force |
| `RuntimeOffers.FailedEffects` | cmd/echod/runtime.go:186-189 | one whose save fails has its engine closed and changes nothing in force |
| `RuntimeOffers.RejectedEffects` | cmd/echod/runtime.go:133-178 | any other rejection, and the repetition of a revision, changes nothing but the ring, which may have grown for an engine that could not be prepared |
| `RuntimeOffers.AlwaysVetted` | cmd/echod/runtime.go:116-118 | on every run, each revision in force, persisted, held or decided was there at the beginning, or was offered while its model was known, its engine prepared and its pre-roll had room |
| `RuntimeOffers.HeldIffNewest` | cmd/echod/runtime.go:178-227 | on every run, what is held is the newest revision that was answered Held, and it is held exactly until a commit of it |
| `RuntimeConfig.DeviceRuntimeConfig.ApplyPending` | cmd/echod/runtime.go:207-227 | applies or drops a held revision when idle, and does nothing otherwise |
| `RuntimeConfig.DeviceRuntimeConfig.ApplyLocked` | cmd/echod/runtime.go:229-242 | saves first, then stages endpointing, swaps and closes the engine and publishes the settings |
| `RuntimeConfig.StepKeeps` | cmd/echod/runtime.go:133-242 | every step keeps, whatever the versions and whether or not becoming idle checks at once: each prepared engine exactly once installed, held, about to be installed or closed, the ring covering every applied, held or decided revision, the next turn's endpointing the applied one |
| `RuntimeConfig.AlwaysSound` | cmd/echod/runtime.go:133-242 | so does every run |
| `RuntimeConfig.ClosedOnce` | cmd/echod/runtime.go:178-242 | no engine is closed twice and none in use is closed |
| `RuntimeConfig.VersionNeverDecreases` | cmd/echod/runtime.go:133-242 | on every run with becoming idle and the check for a held revision as one step, the applied version never decreases, and a revision is held only during a turn or while it is being applied |
| `RuntimeConfig.StoreFollowsSettings` | cmd/echod/runtime.go:229-242 | while no save fails after its rename, what is persisted is what is in force |
| `RuntimeConfig.StoreFollowsBootstrap` | cmd/echod/runtime.go:229-242 | from bootstrap nothing is persisted until a revision is applied, and then exactly that one |
| `RuntimeConfig.RejectedLeavesStore` | cmd/echod/runtime.go:186-189 | a refused offer leaves settings and engine alone, and the store exactly when its save did not fail after the rename |
| `RuntimeConfig.RejectedCommit` | cmd/echod/runtime.go:207-217 | the same for any rejected commit, of a fresh offer or of a held revision, whatever happened since its idle check |
| `RuntimeConfig.StoreDiffersIff` | internal/device/config/config.go:130-149 | on every run what is persisted differs from what is in force exactly when the last commit that reached the store failed after its rename with other settings |
| `RuntimeConfig.RejectedButPersisted` | internal/device/config/config.go:130-149 | a save that fails synchronising the directory rejects the revision and leaves it persisted |
| `RuntimeConfig.ChangesOnlyByCommit` | cmd/echod/runtime.go:178-186 | during a turn settings and engine change with a successful commit and nothing else, and the turn's own endpointing never |
| `RuntimeConfig.ChangedDuringTurnIff` | cmd/echod/runtime.go:178-186 | on every run, settings or engine change under an active turn if and only if the event is a successful commit whose idle check came before the turn started |
| `RuntimeConfig.TurnStartedAfterCheck` | cmd/echod/runtime.go:178-186 | a run on which a turn starts between check and commit and has settings and engine replaced under it |
| `RuntimeConfig.OlderPendingOverwritesNewer` | cmd/echod/runtime.go:207-227 | a run on which becoming idle and applying the held revision are two steps, and a newer revision applied in between is overwritten by the older one |
| `RuntimeConfig.PendingRegressesWhenOlder` | cmd/echod/runtime.go:207-227 | applying a held revision lowers the version exactly when it is older, idle and saved |
| `Gateway.Session.Binary` | internal/gateway/devices/server.go:277-295 | PCM outside an audio window is discarded; inside one it is counted, and a wrong size aborts turn and session |
| `Gateway.Session.Control` | internal/gateway/devices/server.go:309-367 | accepts exactly the control frames the automaton accepts, with its new state, and closes the session on any other |
| `Gateway.AcceptsPcm` | internal/gateway/turns/turns.go:96-116 | an open window accepts a PCM sequence if and only if every frame is even and at most 64 KiB, and counts all its bytes |
| `Gateway.AcceptsTurn` | internal/gateway/turns/turns.go:56-155 | an idle session accepts a whole turn if and only if its frames are sendable, and completes it with the total of its bytes |
| `GatewayOrder.AcceptsIffInOrder` | internal/gateway/turns/turns.go:56-155 | which whole frame sequences an idle session accepts, both ways: starts, openings and ends of one turn after another, three of one identifier in that order, audio frames of a right size while a window is open, everything else valid; the turns completed are exactly those, each with the bytes between its opening and its end |
| `Gateway.UnfinishedTurnRejectsNext` | internal/gateway/devices/server.go:309-322 | a turn whose end never arrives makes the next start end the session |
| `ClientQueue.Client.Reserve` | internal/device/client/client.go:484-500 | reserves exactly when connected, alone and with three free places |
| `ClientQueue.Client.Push` | internal/device/client/client.go:561-566 | the second half of queueing: only a full queue refuses, a connection lost since the first half does not |
| `ClientQueue.Client.Enqueue` | internal/device/client/client.go:554-567 | both halves without interruption: queues exactly when connected and not full, at the end, without waiting |
| `ClientQueue.Client.Release` | internal/device/client/client.go:501-501 | gives the reservation back and changes nothing else |
| `ClientQueue.Client.SetConnection` | internal/device/client/client.go:231-233 | records or drops the connection and leaves queue and reservation alone |
| `ClientQueue.Client.TakeHigh` | internal/device/client/client.go:338-344 | takes the oldest frame |
| `ClientQueue.Client.DrainHigh` | internal/device/client/client.go:589-597 | empties the queue and terminates |
| `TurnProtocol.StepKeeps` | internal/device/client/client.go:334-567 | every step of writer, reader, sender, reports and reconnection keeps: the gateway run over the queue reaches where the sender stands |
| `TurnProtocol.PhaseChanges` | internal/device/client/client.go:195-262 | a session ends exactly with its own failure, a write that fails or is refused, or an answer that finds no room; only then is it joined, drained, disconnected, and followed by another |
| `TurnProtocol.NeverRejected` | internal/device/client/client.go:476-527 | in a session where no call gave up mid-turn, under every interleaving, the gateway rejects no frame |
| `TurnProtocol.GiveUpRefusesNext` | internal/device/client/client.go:476-527 | on every run, for whatever reason a call gave up mid-turn: once the next turn's start is queued the gateway does not accept what is queued |
| `TurnProtocol.BytesConserved` | internal/gateway/turns/turns.go:96-155 | what the gateway has completed are the sent turns in order, each with the total of its PCM frames |
| `TurnProtocol.CrossesIffLate` | internal/device/client/client.go:231-278 | over all runs with reconnects, a frame is written in another session than the one that let it in exactly when it was queued after that session's drain; it is then a configuration result and the session a later one, so no turn frame and no pong crosses |
| `TurnProtocol.CrossingWasQueuedLate` | internal/device/client/client.go:464-472 | every frame that crosses was queued by a report whose session had been drained by then |
| `TurnProtocol.ReportLeaksIntoNextSession` | internal/device/client/client.go:464-472 | a run from the beginning on which a result reported while the first session shuts down is written in the second |
| `TurnCapacity.RoomIsEnough` | internal/device/client/client.go:476-527 | on a working connection, with room for all of the turn's frames and for as many others as are pushed meanwhile, the call is never given up, whatever the schedule, and goes on until the whole turn is queued |
| `TurnCapacity.WithoutRoomMayGiveUp` | internal/device/client/client.go:526-526 | without that room there is a schedule in which the last frame finds the queue full |
| `TurnCapacity.OthersMayFill` | internal/device/client/client.go:476-527 | with fewer places than that, answers to the gateway can take the last one while the turn is under way |
| `TurnCapacity.ReservationIsExact` | internal/device/client/client.go:492-500 | on a working connection, while at most a other frames are pushed, a reserved turn is certain not to be given up if and only if the queue has room for its three control frames, its non-empty PCM frames and a more |
| `TurnCapacity.WrongFrameBreaksSession` | internal/device/client/client.go:508-516 | a PCM frame of a wrong size gives up after the turn was opened, and the next turn's start is refused |
| `TurnCapacity.PreRollFits` | cmd/echod/runtime.go:430-432 | a pre-roll can be sent as its one PCM frame exactly up to 32,768 samples |
| `TurnCapacity.PreRollMsFits` | internal/device/wake/config.go:56-58 | for every configured duration exactly when the requested samples fit a frame, with the 64-bit arithmetic; where nothing wraps, exactly up to 2048 ms, which validation does not bound |
| `ModelStore.Store.Stage` | internal/device/wake/store.go:365-382 | every state while a staging file is written is safe, and on success its contents are durable |
| `ModelStore.Store.Promote` | internal/device/wake/store.go:385-389 | every state while it is renamed and the directory synchronised is safe, and on success the name is durable |
| `ModelStore.Store.PublishImmutable` | internal/device/wake/store.go:346-363 | an asset in place must have the same contents and is not touched; otherwise it is published durably; without a failing step it succeeds exactly then |
| `ModelStore.Store.UpdateIndex` | internal/device/wake/store.go:271-344 | every state is safe until the new index is in place, and from there on too if its entries are durable; on success the index is durable and lists the new models |
| `ModelStore.IndexRenameSafe` | internal/device/wake/store.go:333-344 | renaming a durable index of good entries over the old one leaves, after any crash, one of the two |
| `ModelStore.TouchKeepsSafe` | internal/device/wake/store.go:309-389 | steps that only touch staging names and names no durable state depends on keep a crash harmless |
| `ModelStore.Store.Install` | internal/device/wake/store.go:103-150 | whatever step fails, every state passed through until the new index is in place leaves the old one with every entry's artifact complete and keeps all earlier artifacts; if the assets found in place were settled, so does every state after, with the old index or the new one; without a failing step it succeeds if and only if the index is readable or absent, the identifier new or overwriting allowed and no other contents are in place; success lists the entry, no other with its identifier, and the others |
| `ModelStore.UpdatedIs` | internal/device/wake/store.go:271-282 | the new entry replaces those of its identifier in place or is added, and every other entry stays where it was |
| `ModelStore.List` | internal/device/wake/store.go:50-84 | succeeds exactly when every listed artifact has its digest and size |
| `ModelStore.CrashIsHarmless` | internal/device/wake/store.go:50-84 | after a crash in any such state the listing verifies, is old or new, every durable file is unchanged, and the store is again one that an installation may start from |
| `ModelStore.IndexRenameSafeIff` | internal/device/wake/store.go:333-344 | every crash that leaves a just renamed index lists only verified models if and only if each value the name of a listed artifact can take is a synchronised file with the recorded digest and size |
| `ModelStore.InterruptedOnce` | internal/device/wake/store.go:346-389 | an artifact published without its directory sync can be undone by a crash, but the next installation settles it |
| `ModelStore.InterruptedTwice` | internal/device/wake/store.go:346-389 | a second installation that fails at the metadata's sync leaves both names undone |
| `ModelStore.ArtifactCanVanish` | internal/device/wake/store.go:346-359 | a third then renames the index with no sync before it, and a crash can leave an index that names a missing artifact |
| `Wav.FormatRoundTrip` | internal/device/audio/wav.go:122-136 | a format chunk reads back as its format if and only if its byte rate fits 32 bits |
| `Wav.FormatAcceptedIff` | internal/device/audio/wav.go:122-136 | and the other way round: a format chunk is accepted if and only if it begins with the sixteen bytes the writer would put there for the format it is read as |
| `WavFile.ReadWAV` | internal/device/audio/wav.go:31-62 | the streaming reader returns what the chunk grammar says, with every refusal |
| `WavFile.ReadChunk` | internal/device/audio/wav.go:64-120 | one chunk with its padding is consumed, or refused when cut short or over its limits |
| `WavFile.ParsedContainer` | internal/device/audio/wav.go:64-87 | reading a container is consuming its chunks in order; what follows it is ignored |
| `WavFile.ReadIsContainer` | internal/device/audio/wav.go:31-87 | every file that is read is a container of chunks with something after it |
| `WavFile.ConsumedIff` | internal/device/audio/wav.go:89-120 | chunks are consumed exactly when each format chunk is accepted and within 64 KiB and each data chunk within 256 MiB; the last of each kind counts |
| `WavFile.ReadIff` | internal/device/audio/wav.go:31-120 | a container is read as a format and samples if and only if all of that holds, the last format is that one and the last data is those samples in whole frames |
| `WavFile.UnknownChunksDoNotMatter` | internal/device/audio/wav.go:114-118 | inserting or removing unknown chunks, odd ones padded with any byte, and trailing bytes never changes what is read |
| `WavFile.RoundTrip` | internal/device/audio/wav.go:20-62 | reading a written file returns the same format and samples if and only if they are whole frames of at most 256 MiB and the byte rate fits 32 bits |
| `WavFile.WrappedByteRate` | internal/device/audio/wav.go:215-225 | a byte rate that wraps 64 bits passes the writer's check and the file does not read back |
| `WavWriter.WAVWriter.Write` | internal/device/audio/wav.go:163-182 | appends the samples to what was written so far, or marks the writer failed; without a fault of the file it fails only when closed |
| `WavWriter.WAVWriter.Close` | internal/device/audio/wav.go:184-213 | on success the file is the complete file of all samples written, however they were split; without a fault it succeeds exactly when no write failed and the data fits its size field |
| `WavWriter.NewWAVWriter` | internal/device/audio/wav.go:153-161 | opens with an empty header; without a fault of the file exactly the writable formats |
| `WavWriter.WriteWAV` | internal/device/audio/wav.go:20-29 | on success the file is the complete file of the samples; without a fault it succeeds exactly on a writable format and data that fits its size field |
| `Buttons.Recognizer.Feed` | internal/device/buttons/semantics.go:33-45 | presses and state after a key event, for every key and value |
| `Buttons.Recognizer.StartHold` | internal/device/buttons/semantics.go:86-94 | starts a hold at most once per press |
| `Buttons.Recognizer.Repeat` | internal/device/buttons/semantics.go:96-102 | repeats only for a pressed volume key |
| `Buttons.Watcher.HandleEvent` | internal/device/buttons/watcher.go:111-161 | generations, timers, presses and the armed timer after an event; a timer is armed exactly when a watched key goes down, and none is kept for a press that ends; keys not watched change nothing |
| `Buttons.Watcher.HandleHold` | internal/device/buttons/watcher.go:73-85 | a timer of an old generation changes nothing; a current one starts the hold |
| `Buttons.Watcher.HandleRepeat` | internal/device/buttons/watcher.go:87-109 | a timer of an old generation changes nothing; a current one repeats 200 ms later and is armed again exactly when it emitted |
| `ButtonTraces.Always` | internal/device/buttons/watcher.go:33-161 | after any events and any timer firings, watcher state agrees with what happened since each key's latest key-down |
| `ButtonTraces.HoldEndHasOneStart` | internal/device/buttons/semantics.go:64-84 | every hold-end comes from its key's release after at least 700 ms, with exactly one hold-start since the latest key-down |
| `ButtonTraces.HoldTimerOnlyWhileHeld` | internal/device/buttons/semantics.go:86-94 | a hold timer emits one hold-start, only while its key is held and before any other |
| `ButtonTraces.RepeatsAreMultiples` | internal/device/buttons/watcher.go:87-109 | generated repeats come only while held, before any kernel repeat, at successive multiples of 200 ms |
| `ButtonEmits.ReleaseEmits` | internal/device/buttons/semantics.go:64-84 | on every possible run, letting go of a watched mute or action key that is down emits exactly one tap before 700 ms, and from then on exactly one hold-end, after a hold-start exactly where none was emitted; letting go of one that is not down emits nothing |
| `ButtonEmits.VolumeEmits` | internal/device/buttons/semantics.go:47-62 | every event of a watched volume key: one tap when it goes down, one repeat with its time held for each kernel repeat while it is down, nothing else |
| `ButtonEmits.SilentKeys` | internal/device/buttons/semantics.go:33-70 | other keys, keys not watched, and mute or action keys that go down or repeat emit nothing |
| `ButtonEmits.HoldTimerEmitsIff` | internal/device/buttons/watcher.go:73-85 | a hold timer emits its hold-start exactly while the press that armed it goes on undisturbed, and once |
| `ButtonEmits.RepeatTimerEmitsIff` | internal/device/buttons/watcher.go:87-109 | a repeat timer emits the next multiple of 200 ms exactly while no release, kernel repeat or other press of its key came since it was armed |
| `ButtonEmits.ArmedBy` | internal/device/buttons/watcher.go:134-158 | a timer is armed only by its own watched key going down, for the generation that begins there |
| `ButtonEmits.DownArms` | internal/device/buttons/watcher.go:134-158 | and each watched key that taps or is held arms one whenever it goes down |
| `ButtonEmits.AlwaysCurrent` | internal/device/buttons/watcher.go:126-158 | on every run the watcher keeps no timer of a press that has ended |
| `ButtonTraces.ExpiredNeverEmits` | internal/device/buttons/watcher.go:73-109 | once an event has ended or restarted a press, no timer armed before it emits or changes anything |
| `ButtonTraces.ReleaseAfterHoldStart` | internal/device/buttons/semantics.go:64-84 | after a hold-start a release ends in a hold-end exactly when held for the threshold, and in a tap otherwise |
| `ButtonTraces.HoldStartWithoutEnd` | internal/device/buttons/semantics.go:64-84 | a release reported late gives a hold-start without a hold-end |
| `LogRotate.RotatingWriter.Write` | internal/device/system/logrotate.go:86-110 | terminates with the whole payload written and every promise of the log kept |
| `LogRotate.RotatingWriter.Rotate` | internal/device/system/logrotate.go:141-162 | shifts every generation up by one, drops the oldest and starts an empty one |
| `LogRotate.RotatedOk` | internal/device/system/logrotate.go:141-162 | rotating a full generation keeps the log a suffix of everything, within its shares |
| `LogRotate.NewestSurvive` | internal/device/system/logrotate.go:86-162 | the last (fileCount - 1) * fileBytes written bytes are in the log and the log never exceeds fileCount * fileBytes |
| `LogRotate.EnforceExistingLimit` | internal/device/system/logrotate.go:36-84 | removes generations over the count and cuts each other one to its share |
| `LogRotate.NewRotatingWriter` | internal/device/system/logrotate.go:22-34 | refuses exactly limits that do not allow a byte per file; the share is the largest whose sum stays within the total |
| `LogRotate.OpeningKeepsLogIff` | internal/device/system/logrotate.go:36-57 | opening keeps the whole existing log if and only if every generation is within its share |
| `LogRotate.OpeningLosesEnds` | internal/device/system/logrotate.go:51-54 | each generation loses its own newest bytes, as many as are over its share, and nothing else is lost |
| `LogRotate.OpeningKeepsSuffixIff` | internal/device/system/logrotate.go:36-57 | whatever its bytes, a log of these sizes stays a suffix of itself through opening if and only if nothing is cut |

## Left out

- Stream.WholeIsInvoke: the interpreter's `Invoke` is the stages' kernels run in order; graph parsing, shape inference and tensor allocation are not modelled.
- ElementStage.ElementStageComputes: addition's fast path, a copy and a vector sum, is the same sum and not modelled apart.
- PadStage.ProducedIff: a write outside the output and an output without a shape, on which the source stops, are failures of the kernel.
- Conv.Conv2D: floats are reals and the activation is a parameter, so rounding and the shape of the activation functions are not covered; filters, strides and shapes are those the shape checks accept.
- MaxPool.MaxPool2D: the starting value, minus infinity, is modelled as the absence of a value.
- Vec.Dot: the four lanes are regrouped as real sums; the float result may differ in rounding.
- Broadcast.Elementwise: the operator and the activation after it are one function parameter; resizing and reuse of output buffers are not modelled.
- Pad.PadZero: an output extent below zero is a result of its own; what the source's allocation does with one is not modelled.
- Slice.StridedSlice: masks are one flag per axis; the refusal of ellipsis, new-axis and offset options, of masks wider than the rank, and of tensor types is not modelled.
- Pack.Stack: the check that all inputs have the same element type is not modelled.
- Reduce.ReduceOp: the fold function and its start are parameters, over reals; the inverse of the group size is exact.
- Fully connected layers, batch matrix products, reshape, squeeze, expand-dims, fill and shape kernels: they would only add index facts already covered.
- RingBuffer.Ring.Tail: the allocation failure for a wrapped negative count is a result, not a crash.
- Wake.Pipeline.Frame: scores are reals, so the finiteness checks are part of being usable; cancellation, statistics and the blocking send of events are not modelled, a stopped run being a prefix of a run; at most one configuration is read per step.
- Wake.Pipeline.ProcessStep: the pre-roll is read once per step rather than once per accepted event, which gives the same samples.
- Endpointing.Controller.Observe: elapsed time is an exact sum of per-frame durations; its 64-bit overflow needs centuries of audio.
- Capture.RunCapture: decoding, channel selection and down-mixing of a device read are one result of the read; the frames go to a list rather than a callback that cannot fail.
- Capture.Subscription.Offer: one subscription; publishing to several is this step for each.
- Turns.TurnCoordinator.Finish: the turn's identifier and start record are one opaque tag.
- Handoff.DeliveredTurnsAreSlices: draining the channels after a disconnection is modelled as drops that can happen, or not, while disconnected, which allows more runs than the code.
- HandoffJoin.WakeTurnOverrunsIff: frames are at most 1280 samples, as the capturer produces them.
- RuntimeConfig.DeviceRuntimeConfig.Apply: model lookup, engine preparation and each save are outcomes given to the call; the controller and the coordinator's activity are fields the model reads directly.
- RuntimeConfig.DeviceRuntimeConfig.Commit: the save, the staging, the swap and the assignment are one step here.
- RuntimeConfig.DeviceRuntimeConfig.ApplyLocked: an error closing the replaced engine is only logged by the source and is not modelled; reports to the gateway are not modelled here.
- Gateway.Session.Control: JSON payloads are flags that say whether they are valid; of the diagnostic recordings only the size limit is modelled, and their file errors are not.
- TurnCapacity.ReservationIsExact: the connection works throughout; a write error or a lost connection ends the session, and the call with it.
- TurnProtocol.NeverRejected: turns are sent by the session's own worker; control frames are within the frame size, and logs, results and pongs are valid, as the client checks before queueing them.
- ClientQueue.Client.Enqueue: the two halves are separate steps in `TurnProtocol` for deferred reports; the session's own workers keep the connection between theirs.
- WakeEvents.StopsIff: an error of an engine and a score outside the unit interval are both no usable score; which error is reported is not modelled.
- ModelStore.Store.Install: validation of the source file and the lock are assumed done; the index's byte form and the order of its entries are not modelled; a directory cannot fail to be created.
- WavFile.ReadWAV: the file is a byte sequence; a read error other than its end is not modelled.
- WavWriter.WAVWriter.Write: the byte counter is unbounded; the source's is 64 bits wide. A fault of the file is a call that fails or a write that stops early.
- Buttons.Watcher.HandleEvent: generations are unbounded; sending presses to a cancelled reader is not modelled.
- LogRotate.RotatingWriter.Write: I/O errors are not modelled; generations are the files whose suffix is their index written in the usual way.
- Sockets, TLS, HTTP upgrade, token loading, discovery, JSON and TOML parsing, audio and LED hardware, wall-clock time, statistics and logging.
