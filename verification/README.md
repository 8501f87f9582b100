# SlotPilot receive path: verified model

SlotPilot receives FT8: audio frames arrive on a real-time callback, cross a bounded buffer pool, are
resampled with exact integers into UTC-aligned 15-second windows, pass a clock-health gate, and are decoded
and stored by a lifecycle coordinator. This project models that path in Dafny and proves what it promises,
for every input, every interleaving of the two threads and every sequence of calls. `dafny verify
dfyconfig.toml` checks all of it.

## How the proofs are arranged

Each stage is given twice. A *specification* is made of pure functions on values, where possible a closed form
that does not stream at all: a resampler run is the whole sequence of frames since its anchor, a spectrum
segment the whole sequence of samples since its start. The *implementation* follows the program: objects whose
methods update fields in place, with the program's own loops, each proved equal to its specification function.
Theorems about whole runs are lemmas about the specification. Where a function decides (a check, an order, an answer),
a lemma named `…Verdict` states its decision on the fields of its input, in the program's units and in both directions,
without naming the function's own parts.

| file | contents |
|---|---|
| `Numeric.dfy`, `Audio.dfy` | machine-integer ranges and rounding; batches, windows, timing evidence |
| `Normalization.dfy` | integer sample normalization |
| `CapturePool.dfy`, `CaptureSequence.dfy` | the two-thread buffer pool as atomic steps; the ordering validator |
| `CaptureSource.dfy`, `CaptureProgress.dfy` | where its frames and times come from; that it delivers what it can |
| `Resampling.dfy`, `Resampler.dfy` | closed form of the rational resampler and slot assembly; the streaming object |
| `Timeline.dfy`, `TimelineChecks.dfy`, `TimelineRuns.dfy` | batch checks and fail-closed resets; the checks in arithmetic; whole runs |
| `ReceiveClock.dfy` | clock monitor, recovery chain, window gate |
| `Decodes.dfy`, `Records.dfy` | decode order and merging; the durable record |
| `Coordinator.dfy`, `LiveCoordinator.dfy` | the lifecycle coordinator: functions, and the object |
| `CoordinatorRuns.dfy`, `CoordinatorTheorems.dfy` | its invariant, and what follows for callers and for the handled windows |
| `CoordinatorPolls.dfy`, `CoordinatorLifecycle.dfy` | what each call answers, which poll made each record, and the reported transitions |
| `CoordinatorSpectrum.dfy` | the spectrum model inside the coordinator, and which windows are stored |
| `EndToEnd.dfy`, `JointRuns.dfy` | pool, timeline and coordinator composed, first by interface, then in one run |
| `Spectrum.dfy`, `SpectrumChecks.dfy`, `SpectrumBoard.dfy`, `SpectrumModel.dfy` | the waterfall's sliding window; its checks; retained rows and publications; the object |
| `ReceiveColumns.dfy`, `ReceiveSchema.dfy` | column codecs; the tables' declared constraints |
| `ReceiveStore.dfy`, `StoreAnswers.dfy` | idempotent recording with events; every answer in terms of stored records |
| `Replay.dfy`, `ReplayAnswers.dfy` | event replay pages; every answer |
| `Journal.dfy`, `JournalAnswers.dfy` | the request journal under interleaving; an undisturbed request |
| `WaveFile.dfy`, `WaveConformance.dfy` | RIFF/WAVE codec; exactly which bytes decode |

The central result is `JointRuns.EveryJointWindowIsResampledCapture`: whatever the interleaving of callback and
worker steps, also inside a poll, and whatever the coordinator is asked to do, every window that reaches the decoder
is the closed-form resampling of the first `n` captured frames of its stream, gap-free, where the captured frames are the
selected channel of the callbacks' interleaved data, the anchor carries its callback's time, and `n` does not exceed the
position of any dropped frame. `CoordinatorPolls.EveryEntryMadeByItsPoll` continues it to the store: each stored record
holds the decoder's answer for its window and the health that its poll saw.

Six statements that one might expect are false of the program. Each has an input that shows it and the condition
under which it holds:

- Not every timeline error discards the anchor (`ResetExactlyOnFailedCheck`, `PushSucceedsExactly`,
  `MidSlotAnchorKeepsAnchor`); the
  documentation at docs/audio-timeline.md:57-64 lists checked arithmetic failure among the discarding errors, and
  the model follows the code.
- `start` opens the input before it checks the clock configuration, so an invalid configuration leaves the
  coordinator half-started for good (`HalfStartedIffInvalidConfig`, `HalfStartedForever`).
- After a row of the waterfall fails, the failed chunk's samples stay pending and appear in a later row under
  another chunk's label, and in one that spans both, although docs/spectrum-waterfall.md:52 promises that no row
  spans two slots
  (`InStepIffRowsFit`, `StaleRowAfterFailure`).
- A replay gap can be announced without a loss (`GapWithoutLoss`); it is one exactly when some number between the
  cursor and the earliest retained event was not given to another generation (`GapIsLossUnlessOthers`). An empty
  page can hide a loss (`EmptyPageHidesLoss`), exactly when nothing of the generation is retained
  (`EventsHideLossIffNothingRetained`).
- The decoder's result can depend on upstream order (`LocatorAndEndingTie`), exactly when two different merged entries
  tie (`DecodedOrderIndependentIffNoTies`).
- A stream can store a window after one that the spectrum refused (`ExchangeStoresLaterWindow`), but only if the
  spectrum model was exchanged between the two (`StoredSlotsConsecutive`).

Assumptions: capture timestamps and clock samples count from one monotonic origin; sequence numbers are assigned
in increasing order, none is skipped, and none is reused; a SQL transaction is atomic; JSON survives a round trip; identifiers and
callsigns are determined by their text; `usize` has 64 bits.

## Model

| member | source | states |
|---|---|---|
| `Normalization.NormalizeTotal` | crates/audio/src/capture.rs:545-615 | for every integer width the conversion to 16 bits never fails, maps silence to 0 and the two ends of the range to the two ends of 16 bits |
| `Normalization.NormalizeMonotone` | crates/audio/src/capture.rs:545-615 | a larger source value never becomes a smaller sample, across the sign change too |
| `Normalization.NormalizeExact` | crates/audio/src/capture.rs:545-615 | the size of a sample is the value's share of its half of the range, rounded down, and exactly the two ends of the range count as clipped |
| `Normalization.EveryWidthNormalizes` | crates/audio/src/capture.rs:591-615 | every value of every supported signed and unsigned type, with the macros' own bounds and midpoints, has a sample |
| `Normalization.SixteenBitsUnchanged` | crates/audio/src/capture.rs:545-592 | signed 16-bit input is passed through exactly, clipped exactly at its ends |
| `CapturePool.InvariantAlways` | crates/audio/src/capture.rs:204-526 | in every interleaving of atomic callback, worker, stop and backend steps: buffers conserved, no queue operation failed, queued buffers tile the captured frames, the worker sees them in order |
| `CapturePool.BuffersConserved` | crates/audio/src/capture.rs:182-526 | free + ready + held by callback + held by worker is exactly the set of allocated buffers, so neither queue ever refuses one and the branch that would lose an already cleared drop count is never taken |
| `CapturePool.StepKeepsInvariant` | crates/audio/src/capture.rs:373-526 | every single atomic step keeps that invariant |
| `CapturePool.WorkerReceivesFaithfulStream` | crates/audio/src/capture.rs:204-526 | until positions leave 64 bits, every batch the worker gets is well formed, holds exactly the captured frames at its position with the number of them that clipped, and carries an overflow mark for exactly the frames missing before it |
| `CapturePool.DropsAccounted` | crates/audio/src/capture.rs:509-526 | captured frames = queued frames + frames in overflow marks + pending drops, in every interleaving |
| `CapturePool.MarksMeasureGaps` | crates/audio/src/capture.rs:439-456 | the drops recorded in the marks plus the queued frames reach exactly to the end of the last queued buffer |
| `CapturePool.ClippedFrames` | crates/audio/src/capture.rs:406-419 | a batch's clipped count is the number of its frames whose conversion clipped |
| `CaptureSource.SelectedFrames` | crates/audio/src/capture.rs:394-410 | the selected channel of interleaved data has one value per whole frame: frame f is data[f·channels + selected] |
| `CaptureSource.CapturedIsSelectedChannel` | crates/audio/src/capture.rs:373-526 | in every interleaving the captured frames are the first frames of the selected channel of all accepted callbacks' interleaved data, and all of them between the callbacks of a stream that was not stopped |
| `CaptureSource.ReturnedBatchesTimed` | crates/audio/src/capture.rs:421-432 | every batch carries the UTC and monotonic time of the callback its frames came from, moved by the whole milliseconds of its offset in that callback, saturating |
| `CaptureSource.BatchesDelivered` | crates/audio/src/capture.rs:373-456 | in every interleaving each sample of a batch is the captured frame at its position, its clipped count counts those frames, and its mark is an overflow of exactly the frames missing before it, the stream's beginning, or absent |
| `CaptureSource.SourcedAlways` | crates/audio/src/capture.rs:373-526 | the invariant behind both, after every step |
| `CaptureProgress.NothingLostWhileBuffered` | crates/audio/src/capture.rs:373-526 | while the data is well formed, nobody stops the stream and a buffer is free whenever the callback asks, the stream goes on and every captured frame is queued |
| `CaptureProgress.PollDelivers` | crates/audio/src/capture.rs:204-227 | a worker that asks a running stream gets the oldest ready buffer as a batch and returns the buffer, whatever the callback does between its steps |
| `CaptureProgress.DiscardEmpties` | crates/audio/src/capture.rs:229-233 | the worker of a stopped stream returns every ready buffer and delivers none |
| `CaptureProgress.EntryVerdict` | crates/audio/src/capture.rs:373-381 | a callback is taken exactly when the stream runs and the data is whole frames; malformed data stops the stream and captures nothing |
| `CaptureProgress.DropVerdict` | crates/audio/src/capture.rs:399-403 | a chunk without a buffer is counted as dropped and the callback goes on, even where the position leaves 64 bits and the stream stops |
| `CaptureProgress.ExhaustedExactly` | crates/audio/src/capture.rs:509-526 | positions leave 64 bits exactly when more than 2^64 - 1 frames were captured |
| `CaptureSequence.SequenceValidator.Observe` | crates/audio/src/lib.rs:775-796 | the validator's verdict in all five error cases, and that a refused batch changes nothing |
| `CaptureSequence.JudgeVerdict` | crates/audio/src/lib.rs:775-796 | a batch is accepted after another exactly when generations agree, position and time do not go back, any gap is marked and its end has a position; otherwise which rule it breaks |
| `CaptureSequence.AcceptsExactly` | crates/audio/src/lib.rs:775-796 | a whole sequence of batches is accepted exactly when each may follow the one before it |
| `CaptureSequence.StreamSatisfiesSequence` | crates/audio/src/lib.rs:775-796 | the pool's batches never regress in position and never have an unmarked gap; the only possible refusal is a capture clock that ran backwards |
| `Resampling.TickDue` | crates/audio/src/timeline.rs:472-492 | after n contiguous frames exactly the ticks k with k·rate ≤ 12000·(n−1) are due |
| `Resampling.InterpolateTotal` | crates/audio/src/timeline.rs:690-710 | in-range interpolation never fails, stays between its neighbours and is the exact value rounded to the nearest integer, halves away from the first sample |
| `Resampling.InterpolateAtEnd` | crates/audio/src/timeline.rs:690-710 | interpolation at the second sample is the second sample |
| `Resampling.TickIsLinearInterpolation` | crates/audio/src/timeline.rs:466-523 | every output tick lies between the two frames around its source time and is their linear interpolation rounded to the nearest, halves away from the earlier frame; on the source grid, and everywhere at 12 kHz, it is the source sample |
| `Resampling.OutputStepClosedForm` | crates/audio/src/timeline.rs:525-570 | one streaming output step moves the closed form of slot and events from k ticks to k+1 |
| `Resampling.ForwardMapping` | crates/audio/src/timeline.rs:572-629 | a boundary at or after the anchor maps to the anchor moved by the exact slot offset in position, UTC and monotonic time |
| `Resampling.NewEvents` | crates/audio/src/timeline.rs:449-464 | the events of a prefix followed by the new events are the events of the whole run |
| `Resampling.NewEventsCompose` | crates/audio/src/timeline.rs:449-464 | events do not depend on where the frames are cut into batches |
| `Resampling.FirstUnmapped` | crates/audio/src/timeline.rs:572-629 | the first tick whose slot has no representable mapping |
| `Resampling.FeedPrefixStep` | crates/audio/src/timeline.rs:449-523 | feeding one more sample extends the closed form of the samples before it |
| `Resampling.FeedBatchAlive` | crates/audio/src/timeline.rs:449-523 | a batch keeps a run alive if and only if its positions are representable and every slot it reaches can be opened; the run then holds exactly its frames |
| `Resampling.HaltVerdict` | crates/audio/src/timeline.rs:449-523 | where a run stops: at the first due tick whose slot cannot be opened, with an error and nothing under assembly, or at the last position there is, with what is then under assembly and an error unless the batch ends exactly there |
| `Resampling.StoppedVerdict` | crates/audio/src/timeline.rs:449-523 | a stopped run fails exactly on a batch that reaches its tick or leaves 64 bits, and never moves |
| `Resampling.AllMappedIffEndsFit` | crates/audio/src/timeline.rs:572-629 | a run can open every slot it reaches if and only if it can open the first and the last, a condition in milliseconds on the anchor and the number of frames |
| `Resampling.EarlySlot` | crates/audio/src/timeline.rs:606-622 | the slot a capture starts in can be opened if and only if its boundary precedes source position 0 or the monotonic clock reaches back to it |
| `Resampling.TickConservation` | crates/audio/src/timeline.rs:525-570 | ticks = windows·180000 + withheld lead-in + slot under assembly |
| `Resampling.EventShape` | crates/audio/src/timeline.rs:631-687 | at most one incomplete slot, only before the first window, always because capture started late, with 12 samples per millisecond left of its slot; the rest are consecutive windows |
| `Resampling.FirstSlotIsNext` | crates/audio/src/timeline.rs:525-570 | the first complete slot is the earliest boundary at or after the anchor |
| `Resampling.WindowIdentity` | crates/audio/src/timeline.rs:572-629 | window i names slot i after the first, passes its constructor, and carries the anchor's own UTC-minus-monotonic offset |
| `Resampling.WindowPlace` | crates/audio/src/timeline.rs:525-629 | window i is the 15-second slot that begins i to i+1 slot lengths after the anchor, on a multiple of 15,000 ms, and maps to the source position that many milliseconds later |
| `Resampling.WindowSample` | crates/audio/src/timeline.rs:525-570 | sample j of a window is the tick j twelfths of a millisecond after its slot began |
| `Resampling.AtMostOneEvent` | crates/audio/src/timeline.rs:449-464 | 8,192 frames at 8 kHz or more cross at most one slot boundary |
| `StreamingResampler.RationalResampler.PushOutput` | crates/audio/src/timeline.rs:525-570 | the accumulator after one sample, and failure exactly when a slot must open that cannot be mapped |
| `StreamingResampler.RationalResampler.PushSample` | crates/audio/src/timeline.rs:466-523 | the streaming object, holding one previous frame, produces the closed form of all frames; the out-of-order and 16-bit-range failures cannot occur |
| `StreamingResampler.RationalResampler.PushBatch` | crates/audio/src/timeline.rs:449-464 | a whole batch equals the closed-form step, including every arithmetic failure |
| `Timeline.Ft8ReceiveTimeline.PushBatch` | crates/audio/src/timeline.rs:211-274 | identity, lateness, position, discontinuity and mapping checks in order, and the exact new state and answer for each, as the verdicts below state them on the fields |
| `Timeline.Ft8ReceiveTimeline.AcceptBatch` | crates/audio/src/timeline.rs:261-274 | an accepted batch is fed, counted and moved past |
| `Timeline.Ft8ReceiveTimeline.RejectBatch` | crates/audio/src/timeline.rs:219-248 | a rejection discards the anchor and moves past the batch |
| `Timeline.Ft8ReceiveTimeline.InvalidateActive` | crates/audio/src/timeline.rs:387-398 | a non-empty slot under assembly is counted once and dropped with its anchor |
| `Timeline.Ft8ReceiveTimeline.AdvanceExpected` | crates/audio/src/timeline.rs:376-385 | the expected position after a batch, or overflow |
| `Timeline.PushValid` | crates/audio/src/timeline.rs:211-274 | every batch, accepted or not, leaves a live run that is contiguous, mapped and ends at the expected position |
| `TimelineChecks.MappingVerdict` | crates/audio/src/timeline.rs:314-374 | a batch's timing is accepted if and only if its monotonic time is not before the last batch or the anchor, its position not before the anchor, its jitter within 50 ms, its clock shift within 20 ms, after one second its drift below 5001 ppm, and all of these representable; each failure's error, with its measure |
| `TimelineChecks.MappingHealth` | crates/audio/src/timeline.rs:341-371 | the largest jitter and the newest drift estimate that the checks leave in the health |
| `TimelineChecks.ForeignVerdict` | crates/audio/src/timeline.rs:276-287 | a batch is foreign exactly when process, stream or configuration differ, and is refused with the first that does |
| `TimelineChecks.RefusalVerdict` | crates/audio/src/timeline.rs:211-260 | the error of an own batch that fails a check, in the order late, gap or overlap, discontinuity, timing, each with its measure; the run is discarded, and the timeline moves past the batch unless it overlaps |
| `TimelineChecks.AcceptedMoves` | crates/audio/src/timeline.rs:249-274 | a batch that passes every check keeps or becomes the anchor and is moved past when accepted; the only error left is arithmetic |
| `TimelineChecks.PassingIsFed` | crates/audio/src/timeline.rs:249-274 | an own batch that passes every check is fed to the run of its anchor, or begins one |
| `TimelineRuns.AcceptedLabel` | crates/audio/src/timeline.rs:314-374 | an accepted batch's UTC differs from its place on the output grid by at most 70 ms, and after a second its monotonic error e satisfies \|e\|·10⁶ < 5001·elapsed |
| `TimelineRuns.PushAlive` | crates/audio/src/timeline.rs:211-274 | what one own batch does to a live run, and that events are reported only by live runs |
| `TimelineRuns.LiveRunAlways` | crates/audio/src/timeline.rs:211-274 | in every run, the frames held are exactly those pushed since the anchor, gap-free and without a rejection, and the events since then are their closed form |
| `TimelineRuns.EveryWindowIsResampledRun` | crates/audio/src/timeline.rs:211-274 | whatever is pushed, every window ever reported is a complete slot of one gap-free accepted run |
| `TimelineRuns.PushSucceedsExactly` | crates/audio/src/timeline.rs:211-274 | an own batch on a live or new timeline succeeds if and only if it is not late, continues at the expected position, has no unexpected discontinuity and agrees with the anchor's timing, all stated on its fields, its end has a position, and the first and last slot of the run can be opened |
| `TimelineRuns.OneEventPerPush` | crates/audio/src/timeline.rs:211-274 | one push reports at most one event |
| `TimelineRuns.ForeignIgnored` | crates/audio/src/timeline.rs:276-287 | a batch of another process, stream or configuration changes nothing |
| `TimelineRuns.ResetExactlyOnFailedCheck` | crates/audio/src/timeline.rs:211-274 | a failing own batch keeps the anchor if and only if it had passed every check, so the failure is the resampler's arithmetic |
| `TimelineRuns.MidSlotAnchorKeepsAnchor` | crates/audio/src/timeline.rs:612-622 | a concrete batch for which an error keeps the anchor |
| `TimelineRuns.PartialIsInsideSlot` | crates/audio/src/timeline.rs:387-398 | a slot counts as partial exactly when some of its 180,000 samples were taken and not all |
| `TimelineRuns.HealthAlways` | crates/audio/src/timeline.rs:203-274 | in every run the counters are exactly the late batches and the slots that were withheld or discarded, up to saturation |
| `ReceiveClock.ReceiveClockMonitor.ObserveSample` | crates/operations/src/receive_clock.rs:384-450 | the new monitor and the reported transition in every case, as the verdicts below state them on the samples |
| `ReceiveClock.ReceiveClockMonitor.TakeSnapshot` | crates/operations/src/receive_clock.rs:453-466 | staleness is latched exactly when a healthy mapping outlives its freshness |
| `ReceiveClock.ReceiveClockMonitor.LatchFault` | crates/operations/src/receive_clock.rs:567-585 | a fault latches with progress one if a sample is pending, none otherwise |
| `ReceiveClock.ReceiveClockMonitor.GateEvent` | crates/operations/src/receive_clock.rs:469-524 | the verdict for an event and the fault it leaves |
| `ReceiveClock.CompareVerdict` | crates/operations/src/receive_clock.rs:526-565 | two samples are consistent if and only if neither clock goes back, the monotonic gap is within its bound and UTC and monotonic time advance alike to within the tolerance; otherwise which fault, with which number |
| `ReceiveClock.ObserveVerdict` | crates/operations/src/receive_clock.rs:384-450 | which fault an observation latches, which transition it reports, the snapshot it carries, and that only health accepts the sample |
| `ReceiveClock.GateVerdict` | crates/operations/src/receive_clock.rs:469-524 | a window is ready if and only if the monitor is healthy and fresh and predicts its slot start to within the tolerance; otherwise the fault, and that it is latched |
| `ReceiveClock.AcceptedConsistent` | crates/operations/src/receive_clock.rs:384-585 | in every run, the samples accepted since the monitor last became healthy are pairwise consistent neighbours, and the last is the mapping in use |
| `ReceiveClock.HealthyTransition` | crates/operations/src/receive_clock.rs:384-450 | a transition reports health if and only if the snapshot is healthy, because delay ≤ cadence ≤ freshness |
| `ReceiveClock.MonitorInvariant` | crates/operations/src/receive_clock.rs:384-585 | in every run a sample is pending exactly while recovery has progressed, progress stays below the requirement, and it counts exactly the observations since the last latch (with the latching one where it stays pending), which form a chain; from that latch on the monitor was unhealthy after every operation and nothing latched again |
| `ReceiveClock.LatchedMeans` | crates/operations/src/receive_clock.rs:384-466 | which operations latch; a latch restarts the count, and without one a healthy monitor stays healthy and an unhealthy one keeps its fault and counts each observation or recovers |
| `ReceiveClock.RecoveredOnlyAfterChain` | crates/operations/src/receive_clock.rs:420-450 | recovery is reported only when the observations since the last latch are exactly as many as required, all on time, of the monitor's generation and pairwise consistent, with the monitor unhealthy throughout and no latch between them |
| `ReceiveClock.ChainRecovers` | crates/operations/src/receive_clock.rs:420-450 | conversely such a chain always restores health, whatever recovery had begun, unless the fault is a generation change |
| `ReceiveClock.GenerationFaultReplaced` | crates/operations/src/receive_clock.rs:396-427 | a generation fault is replaced if and only if the next own sample is late or from the future |
| `ReceiveClock.GateSafety` | crates/operations/src/receive_clock.rs:469-524 | a window passes only a healthy, fresh monitor whose clock offset agrees with the capture offset to within the tolerance |
| `ReceiveClock.GateIgnoresSlot` | crates/operations/src/receive_clock.rs:500-524 | where the predicted instant is representable the verdict does not depend on the slot |
| `Decodes.SortedIsStableSort` | crates/protocol/src/lib.rs:357-380 | a sorted permutation that keeps ties in place |
| `Decodes.BeforeVerdict` | crates/protocol/src/lib.rs:357-380 | the order itself: by time offset, then frequency, then text, then kind of outcome, then descending signal strength |
| `Decodes.SortVerdict` | crates/protocol/src/lib.rs:357-380 | neighbours in the sorted list are never out of that order, the list is a permutation, and ties keep their places |
| `Decodes.OrderIndependentIffNoTies` | crates/protocol/src/lib.rs:357-380 | the sorted list is independent of the given order if and only if no two different entries tie |
| `Decodes.Merge` | crates/protocol/src/offline_adapter.rs:105-134 | one entry per (offset, frequency, message), a candidate, and the strongest of its signal |
| `Decodes.MergedInOrder` | crates/protocol/src/offline_adapter.rs:105-134 | merged signals stand in the order of their first appearance |
| `Decodes.MergedEntries` | crates/protocol/src/offline_adapter.rs:121-131 | the entries of any merge are exactly the strongest candidates |
| `Decodes.MergedOrderIndependent` | crates/protocol/src/offline_adapter.rs:105-134 | upstream order and repetition do not change the merged multiset |
| `Decodes.ResultOrderIndependent` | crates/protocol/src/offline_adapter.rs:105-134 | candidates that differ in order or repetition decode to the same list, when no two merged entries tie |
| `Decodes.DecodedOrderIndependentIffNoTies` | crates/protocol/src/offline_adapter.rs:105-134 | the decoded list is the same for every order of the candidates if and only if no two different merged entries tie |
| `Decodes.LocatorAndEndingTie` | crates/protocol/src/offline_adapter.rs:386-402 | the locator RR73 (grid value 32,373) and the ending RR73 (report code 3) give one text two classes, so the list depends on upstream order |
| `Records.ConstructedWellFormed` | crates/storage/src/receive.rs:153-196 | a constructed record holds the given decodes in deterministic order, and constructing it again is the identity |
| `StoreAnswers.ConstructorVerdict` | crates/storage/src/receive.rs:153-196 | the constructor's seven checks in their order with their bounds; an accepted record holds exactly what it was given, its decodes in order |
| `LiveCoordinator.LiveReceiveCoordinator.StartReceive` | apps/daemon/src/receive.rs:352-402 | every outcome of a start, including the half-started one |
| `LiveCoordinator.LiveReceiveCoordinator.OpenStream` | apps/daemon/src/receive.rs:371-402 | the attempt after its generation is reserved: refused, failed, half-started or receiving with the spectrum reset |
| `LiveCoordinator.LiveReceiveCoordinator.ObserveClockSample` | apps/daemon/src/receive.rs:408-430 | an unhealthy observation inhibits |
| `LiveCoordinator.LiveReceiveCoordinator.PollOnce` | apps/daemon/src/receive.rs:436-488 | a poll's checks in order, and the exact new state and events, as PollVerdict states them |
| `LiveCoordinator.LiveReceiveCoordinator.AdmitBatches` | apps/daemon/src/receive.rs:473-483 | the admission loop takes batches in order up to the capacity, the first absence or the first error |
| `LiveCoordinator.LiveReceiveCoordinator.HandleAll` | apps/daemon/src/receive.rs:542-662 | the event loop: gate, spectrum, decode, record, store, waterfall, and the first failure that ends it |
| `LiveCoordinator.LiveReceiveCoordinator.KeepOne` | apps/daemon/src/receive.rs:562-660 | one window that passed the gate: what becomes of it, of the spectrum model and of the waterfall, as KeptVerdict states it |
| `LiveCoordinator.PushChunks` | apps/daemon/src/receive.rs:563-578 | the chunk loop over one window stops at the first failure |
| `LiveCoordinator.LiveReceiveCoordinator.EnableSpectrum` | apps/daemon/src/receive.rs:337-340 | a new spectrum model replaces any earlier one |
| `LiveCoordinator.LiveReceiveCoordinator.ProcessOne` | apps/daemon/src/receive.rs:522-663 | one batch through timeline and event loop |
| `LiveCoordinator.LiveReceiveCoordinator.StopReceive` | apps/daemon/src/receive.rs:492-520 | stop from receiving or inhibited, refusal otherwise |
| `LiveCoordinator.LiveReceiveCoordinator.InhibitNow` | apps/daemon/src/receive.rs:678-703 | inhibition closes the input, leaves no timeline, clock or backlog, and resets the spectrum |
| `CoordinatorRuns.InvariantAlways` | apps/daemon/src/receive.rs:352-703 | the full invariant after every call of every run, for a valid clock configuration |
| `CoordinatorRuns.AcceptStep` | apps/daemon/src/receive.rs:522-541 | an accepted batch continues its stream without gap, discontinuity or label out of tolerance, and reports at most one event |
| `CoordinatorRuns.ReportedWindow` | apps/daemon/src/receive.rs:522-541 | a reported window is the next slot of its stream |
| `CoordinatorTheorems.LifecycleAlways` | apps/daemon/src/receive.rs:352-703 | always stopped, receiving or inhibited; input, timeline and clock are present exactly while receiving, with a healthy monitor; at most three batches wait, none unless receiving |
| `CoordinatorTheorems.AttemptsIncrease` | apps/daemon/src/receive.rs:359-369 | every attempt that leaves Stopped takes a generation larger than all before it |
| `CoordinatorTheorems.HalfStartedIffInvalidConfig` | apps/daemon/src/receive.rs:378-389 | a start is left half-done with the input open if and only if the input opened and the clock configuration is invalid |
| `CoordinatorTheorems.HalfStartedForever` | apps/daemon/src/receive.rs:496-502 | from there no sequence of calls changes anything but the spectrum model |
| `CoordinatorTheorems.WindowsInOrder` | apps/daemon/src/receive.rs:522-663 | a later window is of a later stream or exactly as many slots later as there are windows between, so no (generation, slot) repeats in any run |
| `CoordinatorTheorems.OneWindowPerCall` | apps/daemon/src/receive.rs:436-488 | a poll handles at most one window and no other call handles any; the window fails in the spectrum exactly as the model decides, and if reception goes on any other window was stored |
| `CoordinatorPolls.PollVerdict` | apps/daemon/src/receive.rs:436-703 | exactly what a poll does from every reachable state: inhibition for a fault, a failing or overflowed input, a stale clock, a failing admission or a refused batch; otherwise the oldest batch is accepted and its window, if any, kept or refused; with the new state and the exact answer |
| `CoordinatorPolls.AdmitVerdict` | apps/daemon/src/receive.rs:473-483 | batches are admitted in order until four wait, the input has none or it fails |
| `CoordinatorPolls.KeptVerdict` | apps/daemon/src/receive.rs:562-660 | a window that passed the gate: spectrum failure, decoder failure, an unstorable answer, a failing store, or a stored record, each with its state, its entry and its exact events |
| `CoordinatorPolls.RecordVerdict` | apps/daemon/src/receive.rs:597-631 | the record of a window is built exactly when time and decodes are within bounds, and holds the decoder's answer in order, the input's, timeline's and clock's health and the window's identity |
| `CoordinatorPolls.EveryEntryMadeByItsPoll` | apps/daemon/src/receive.rs:436-663 | in every run each handled window was made by one poll that found exactly the earlier ones; a stored record holds that poll's decoder answer, input health, timeline health after the batch, clock age and recording time, the store accepted it, and that poll reported exactly one persisted window with its identifier and decode count |
| `CoordinatorLifecycle.StartVerdict` | apps/daemon/src/receive.rs:352-402 | every answer of a start and the state it leaves: refused, inhibited with the named reason, half started with unusable clock settings, or receiving from nothing |
| `CoordinatorLifecycle.StopVerdict` | apps/daemon/src/receive.rs:492-520 | a stop succeeds exactly from receiving or inhibited and leaves nothing of the stream |
| `CoordinatorLifecycle.ObserveClockVerdict` | apps/daemon/src/receive.rs:408-430 | during reception a sample that is on time and consistent is accepted and changes nothing else; any other ends the reception, with which fault |
| `CoordinatorLifecycle.EnableVerdict` | apps/daemon/src/receive.rs:337-340 | a planned spectrum model replaces any earlier one and knows nothing; an unplanned one changes nothing |
| `CoordinatorLifecycle.EveryChangeReported` | apps/daemon/src/receive.rs:352-703 | in every run the transitions that the calls report, joined, lead along legal changes from the stopped coordinator to its present lifecycle |
| `CoordinatorSpectrum.SpectrumAlways` | apps/daemon/src/receive.rs:337-703 | in every run, while a stream is received, the spectrum model is in step with its newest window, or failed on it and is broken for all later windows until it is exchanged |
| `CoordinatorSpectrum.StoredSlotsConsecutive` | apps/daemon/src/receive.rs:522-663 | in every run, with no assumption on the spectrum, a stored window of a stream is preceded by stored windows only, one per slot, 15,000 ms apart, back to the last exchange of the spectrum model |
| `CoordinatorSpectrum.ExchangeStoresLaterWindow` | apps/daemon/src/receive.rs:337-340 | across an exchange a window that failed in the spectrum is followed by a stored one |
| `CoordinatorSpectrum.EarlyWindowsStored` | apps/daemon/src/receive.rs:522-663 | while batch UTC leaves room for microseconds, no window of any run of fewer than 2^52 calls fails in the spectrum, so every window but a stream's last is stored |
| `CoordinatorSpectrum.SlotBeforeLastBatch` | crates/audio/src/timeline.rs:314-374 | every window starts no later than the UTC of the last accepted batch of its stream |
| `CoordinatorTheorems.RecordRefusedOnlyForDecodes` | crates/storage/src/receive.rs:159-190 | for a window from the timeline the record is refused if and only if its time or its decodes are out of bounds; the mapping, drift and clock checks never fire |
| `EndToEnd.EveryDecodedWindowIsResampledCapture` | apps/daemon/src/receive.rs:436-541 | in every interleaving and every run, each decoded window is the closed-form resampling of a gap-free run of captured frames, which are the selected channel of the callbacks' data with the anchor's time from its callback, and no frame after a dropped one is ever part of a window |
| `JointRuns.EveryJointWindowIsResampledCapture` | apps/daemon/src/receive.rs:352-541 | the same in one joint run, in which starting opens a pool, a poll's batches are the pool's own `next_batch` answers with callback steps in between, and stopping or inhibiting stops the pool |
| `JointRuns.LinkedAlways` | apps/daemon/src/receive.rs:120-163 | in every joint run the coordinator obtained a beginning of what each stream's pool returned, all of it while the pool is live, and a pool is live exactly while its stream is received |
| `JointRuns.AnswerIsReturned` | crates/audio/src/capture.rs:204-227 | a `next_batch` call never fails, whatever callback steps happen during it, and answers exactly the batch it took |
| `EndToEnd.ReturnedAreQueued` | crates/audio/src/capture.rs:204-227 | the worker's batches are the queued buffers, in order |
| `EndToEnd.ReadyWindowAgreesWithClock` | crates/operations/src/receive_clock.rs:469-524 | a window passes the gate only if the stream's anchor agrees with the fresh clock mapping to within the tolerance |
| `Spectrum.WorkBoundImplied` | crates/audio/src/spectrum.rs:113-184 | the overlap bound already implies the work bound, so that refusal never occurs, and an accepted configuration keeps its bins within half the transform |
| `SpectrumChecks.ConfigVerdict` | crates/audio/src/spectrum.rs:113-184 | every refusal of a configuration in its order and bounds; an accepted one keeps exactly the bins whose centres lie in the passband and fits two mebibytes |
| `Spectrum.RowsPerChunk` | crates/audio/src/spectrum.rs:482-494 | one chunk makes at most 64 rows due, so the run-time work limit is never reached |
| `Spectrum.PushClosed` | crates/audio/src/spectrum.rs:472-516 | a push extends the segment it continues or begins a new one, produces exactly the rows that become due from exactly the samples at their offsets, keeps pending start + pending length at the cursor, and fails exactly when a row or the next slot is not representable |
| `SpectrumChecks.PrepareVerdict` | crates/audio/src/spectrum.rs:535-568 | when a chunk clears the waterfall and for which reason, when it continues, and when it begins the next slot and drops only the old tail |
| `SpectrumChecks.RowVerdict` | crates/audio/src/spectrum.rs:570-624 | the next row begins with the last overlapping samples of a row, one hop later |
| `SpectrumChecks.TimeVerdict` | crates/audio/src/spectrum.rs:720-732 | a row's time is its slot start plus its offset, rounded down to microseconds |
| `Spectrum.RowsIndependentOfCuts` | crates/audio/src/spectrum.rs:472-516 | however a run of samples is cut into chunks, its rows start at a, a+hop, a+2·hop, … and are the same |
| `Spectrum.WindowRows` | apps/daemon/src/receive.rs:563-581 | the coordinator's 44 chunks of a window never fail while its rows are representable, and give the rows of its 180,000 samples and no others |
| `Spectrum.UsableWindow` | apps/daemon/src/receive.rs:563-578 | a later window on a model in step is held whole, or leaves the model broken for good; it is held if its rows are representable |
| `Spectrum.BrokenWindow` | crates/audio/src/spectrum.rs:570-624 | once the row numbers are used up or microseconds have left 64 bits, every later window fails |
| `Spectrum.ReplacementRestores` | apps/daemon/src/receive.rs:337-340 | a model whose row numbers are used up refuses a window that a new model accepts |
| `Spectrum.InStepIffRowsFit` | crates/audio/src/spectrum.rs:472-516 | the model stays in step if and only if no due row fails |
| `Spectrum.StaleRowAfterFailure` | crates/audio/src/spectrum.rs:472-494 | after such a failure the next chunk, even of another slot, yields a row of stale samples and then a row that spans both chunks, under its own label |
| `SpectrumBoard.BoardAlways` | crates/audio/src/spectrum.rs:462-659 | in every run of pushes, failing ones included, resets and snapshots: the retained rows are the newest since the last reset up to the capacity; publications since then are exactly those due by the cadence; every row produced is retained, evicted or cleared, and every publication due was taken, coalesced, withdrawn or is pending, so no counter saturates; rows are numbered upwards and only the first after a reset carries a reason |
| `SpectrumObject.SpectrumModel.PushChunk` | crates/audio/src/spectrum.rs:472-516 | the loop over due rows and the cursor |
| `SpectrumObject.SpectrumModel.PrepareChunk` | crates/audio/src/spectrum.rs:535-568 | when a chunk continues, begins the next slot, or resets, and with which reason |
| `SpectrumObject.SpectrumModel.ProduceOne` | crates/audio/src/spectrum.rs:570-643 | one row, its eviction and publication, and what a failing row leaves |
| `SpectrumObject.SpectrumModel.Mark` | crates/audio/src/spectrum.rs:645-659 | a publication is due by cadence and coalesces behind a pending one |
| `SpectrumObject.SpectrumModel.TakeSnapshot` | crates/audio/src/spectrum.rs:522-533 | a snapshot of settings, rows and counters exactly when one is pending, which clears the token |
| `SpectrumObject.SpectrumModel.ResetModel` | crates/audio/src/spectrum.rs:462-469 | a reset drops samples, cursor and rows and keeps its reason |
| `ReceiveColumns.RecordRoundTrip` | crates/storage/src/receive.rs:550-889 | reading back any storable record gives that record: key, capture, audio, timeline, clock and decode columns all invert |
| `ReceiveColumns.ClockRoundTrip` | crates/storage/src/receive.rs:935-1042 | clock health and its fault survive their columns |
| `ReceiveColumns.MessageRoundTrip` | crates/storage/src/receive.rs:1053-1183 | every message kind survives its columns |
| `ReceiveColumns.RowsRoundTrip` | crates/storage/src/receive.rs:830-889 | decode rows come back contiguous and in order |
| `ReceiveSchema.WriteVerdict` | crates/storage/migrations/0002_phase2_receive.sql:1-233 | a storable record is written if and only if its counters fit 64-bit columns; each column is the record's field, and the row passes every declared constraint of the three tables |
| `ReceiveSchema.ReadVerdict` | crates/storage/src/receive.rs:684-889 | a row that passes the constraints reads if and only if its mapping lies on its slot, its decodes are contiguous, printable and in order, its fault counts are not negative and an unhealthy clock comes without decodes; it is then exactly what its record is written as |
| `ReceiveStore.AnyMatchDecides` | crates/storage/src/receive.rs:511-548 | whichever matching row the OR query returns, comparing it with the record decides correctly |
| `ReceiveStore.RetryReturnsOriginal` | crates/storage/src/receive.rs:270-303 | recording again while the row is retained returns the original sequence and changes nothing |
| `ReceiveStore.OtherRecordCollides` | crates/storage/src/receive.rs:277-284 | any other record with a stored identifier or natural key is an identity collision |
| `ReceiveStore.RecordedValid` | crates/storage/src/receive.rs:270-303 | recording stores the record and keeps both identities unique |
| `StoreAnswers.RecordedVerdict` | crates/storage/src/receive.rs:270-303 | every answer of recording in terms of the stored records: the record's own number, a collision with another record of the same identifier or natural key, a refusal of numbers beyond the columns or the table, or a new row beside all others |
| `ReceiveStore.CommitAtomic` | crates/storage/src/receive.rs:324-410 | record and event are committed together or not at all |
| `ReceiveStore.CommitRetry` | crates/storage/src/receive.rs:324-410 | an exact retry returns both original sequences and changes nothing |
| `StoreAnswers.CommittedVerdict` | crates/storage/src/receive.rs:324-410 | every answer of a commit: record refused, event not built, event identifier taken by another event, negative time or full table leave everything as it was; otherwise exactly that event is added or found |
| `ReceiveStore.Store.RecordReceive` | crates/storage/src/receive.rs:270-303 | lookup by either identity, compare, or insert |
| `ReceiveStore.Store.RecordReceiveWithEvent` | crates/storage/src/receive.rs:324-410 | the coupled transaction with its roll-backs |
| `ReceiveStore.Store.PruneReceiveBefore` | crates/storage/src/receive.rs:486-496 | exactly the windows before the retained sequence go, and their number is the answer |
| `Replay.ReplayMissesNothing` | apps/daemon/src/lib.rs:143-227 | whatever is published or pruned between its pages, a session of Events answers has received, once and in order, exactly the generation's events ever numbered between its start and its cursor |
| `Replay.ReplayComplete` | apps/daemon/src/lib.rs:143-227 | a session that pages until nothing more is announced has received exactly the generation's events ever published after its start, prunings between pages included, if any of the generation is then retained |
| `Replay.ReplayCompleteWhilePublishing` | apps/daemon/src/lib.rs:116-140 | with any publications, accepted or refused, and no pruning between the pages, it has received exactly the retained later events |
| `Replay.ChangesEvolve` | crates/storage/src/lib.rs:244-344 | any sequence of appends and prunings forgets no published row and gives new rows new numbers |
| `Replay.PageMembers` | crates/storage/src/lib.rs:272-328 | one page holds exactly the generation's rows between its two cursors, and announces more if and only if a row lies beyond |
| `Replay.EventsHideLossIffNothingRetained` | apps/daemon/src/lib.rs:175-227 | an Events answer hides a pruned later event if and only if nothing of the generation is retained |
| `ReplayAnswers.SubscribeVerdict` | apps/daemon/src/lib.rs:143-227 | every answer for every cursor and limit: a bad limit, a cursor beyond 63 bits, a gap exactly when the cursor lies more than one before every retained event of the generation, unavailable exactly when it is positive and beyond all of them, with the least and the greatest number, and Events otherwise, a full page if more follow |
| `ReplayAnswers.ContinuationAnswered` | apps/daemon/src/lib.rs:175-227 | a client that continues from its own cursor after any publications and prunings gets Events or a gap while anything of the generation is retained, and Events if something was retained before and nothing was pruned |
| `ReplayAnswers.SessionContinues` | apps/daemon/src/lib.rs:175-227 | so after any number of pages and changes the cursor of a session is never unavailable while anything of the generation is retained |
| `Replay.EmptyPageHidesLoss` | apps/daemon/src/lib.rs:192-227 | publishing one event and pruning it gives a new client an empty page |
| `Replay.GapCondition` | apps/daemon/src/lib.rs:181-191 | a gap is announced if and only if the cursor lies more than one before every retained event of the generation |
| `Replay.GapIsLossUnlessOthers` | apps/daemon/src/lib.rs:181-191 | an announced gap is no loss if and only if every number between the cursor and the earliest retained event was given to another generation |
| `Replay.RetainedBeforeCursorMeansNoLoss` | apps/daemon/src/lib.rs:181-191 | if any retained event of whatever generation is numbered at most one after the cursor, nothing after the cursor was lost |
| `Replay.GapWithoutLoss` | apps/daemon/src/lib.rs:181-191 | a log without any loss for which a gap is announced |
| `Replay.EventStore.AppendEvent` | crates/storage/src/lib.rs:244-269 | the assigned sequence, or which constraint refused |
| `ReplayAnswers.AppendVerdict` | crates/storage/src/lib.rs:244-269 | an event is refused for a retained identifier, a negative time or an exhausted table; otherwise it gets a number above all others ever given and joins the retained events |
| `ReplayAnswers.PruneVerdict` | crates/storage/src/lib.rs:334-344 | pruning removes exactly the events below the boundary, keeps the order and answers their number |
| `Replay.EventStore.ReplayEvents` | crates/storage/src/lib.rs:272-328 | fetching one row too many and truncating gives the page and the flag |
| `Replay.EventStore.PruneEventsBefore` | crates/storage/src/lib.rs:334-344 | exactly the older rows go, and every pruned row precedes every retained one |
| `Journal.JournalAgreement` | apps/daemon/src/receive_api.rs:286-361 | in every interleaving of processors, a successful valid request answers the journaled response for the same command and a conflict otherwise, and one that began with its identifier journaled never invoked the port |
| `Journal.EntriesHaveOneAuthor` | crates/storage/src/lib.rs:202-234 | every entry is the response of exactly one request, so a failed acceptance leaves none |
| `Journal.EntriesPermanent` | crates/storage/src/lib.rs:202-234 | an entry never changes or disappears |
| `JournalAnswers.RequestVerdict` | apps/daemon/src/receive_api.rs:286-361 | the answer, the journal and whether the port was reached, for an undisturbed request: invalid, storage failing, journaled with the same or another command, new, late or with a taken command identifier |
| `JournalAnswers.EntriesFormed` | crates/storage/src/lib.rs:202-234 | in every interleaving each entry is the execution of its own request under a command identifier no other entry has |
| `WaveFile.DecodePcmWave` | crates/protocol/src/wave_file.rs:58-132 | the chunk walk is total on all byte strings and computes the specified result |
| `WaveConformance.DecodesExactly` | crates/protocol/src/wave_file.rs:58-132 | bytes decode to a buffer if and only if they are laid out as a RIFF/WAVE file, possibly followed by other bytes, with exactly one format chunk and one data chunk among any others, whose fields say exactly that buffer |
| `WaveConformance.HeaderVerdict` | crates/protocol/src/wave_file.rs:58-75 | the errors of the header: too short, wrong tags, a size beyond the bytes, a size below the header |
| `WaveConformance.CutOffRefused` | crates/protocol/src/wave_file.rs:77-95 | a last chunk whose header or payload is cut off is refused as truncated, unless an earlier chunk is refused first |
| `WaveConformance.UnfilledRefused` | crates/protocol/src/wave_file.rs:111-118 | so is one that lacks the filler byte of an odd payload |
| `WaveConformance.MeaningVerdict` | crates/protocol/src/wave_file.rs:97-110 | chunks are gathered exactly when there is no second format or data chunk and the format chunk is one |
| `WaveConformance.FinishVerdict` | crates/protocol/src/wave_file.rs:121-132 | missing chunks, odd or oversized data, broken frames, or the samples of the data bytes |
| `WaveFile.EncodePcmWave` | crates/protocol/src/wave_file.rs:11-52 | encoding never fails on a valid buffer, and decoding its bytes gives the buffer back |
| `WaveConformance.EncodedBytes` | crates/protocol/src/wave_file.rs:11-52 | the bytes of an encoded buffer: the four tags as text, little-endian sizes and format fields in a 44-byte header, then each sample's two's-complement pattern, low byte first |
| `WaveFile.WaveRoundTrip` | crates/protocol/src/wave_file.rs:11-132 | decode after encode is the identity, whatever bytes follow the file |
| `WaveFile.DecodeFile` | crates/protocol/src/wave_file.rs:58-132 | decoding a file is reading its chunks in order |
| `WaveFile.FormatRoundTrip` | crates/protocol/src/wave_file.rs:134-159 | a valid format survives its 16-byte chunk |
| `WaveConformance.FormatVerdict` | crates/protocol/src/wave_file.rs:134-159 | a format chunk is read exactly when it is integer PCM of 16 bits with coherent fields within bounds; otherwise which error |
| `WaveFile.SamplesRoundTrip` | crates/protocol/src/wave_file.rs:48-50 | samples survive two's-complement little-endian bytes |
| `WaveFile.UnknownChunkIgnored` | crates/protocol/src/wave_file.rs:77-119 | inserting an unknown chunk of any size anywhere changes nothing, not even the error |
| `WaveFile.FormatAndDataCommute` | crates/protocol/src/wave_file.rs:77-119 | swapping neighbouring format and data chunks changes nothing; only in a file already refused for two data chunks can the error differ |
| `WaveFile.WindowIsPcm` | crates/protocol/src/lib.rs:684-704 | a complete window is always a valid decoder buffer |

## Left out

- The callback and worker of the capture pool are modelled as atomic steps on values rather than as objects that
  share memory; weak memory orderings are not modelled.
- Capture faults: the bounded fault queue, terminal-fault reporting and the clipped-sample counter only carry
  diagnostics; the coordinator takes the fault it is given.
- Float sample normalization, cpal streams, device discovery and operating-system clocks are foreign; frames and
  timing readings are inputs.
- Planning the FFT, whose scratch size can refuse a spectrum model, is an answer of the environment.
- The FFT, the Hann window and decibel values: a waterfall row is identified with the samples it is computed from.
- The FT8 decoder and message packing, SHA-256 window identifiers, JSON, SQLite's own behaviour and CHECK
  constraints on identifiers and callsigns are taken as given. Decoder and store answer through functions that may
  differ from poll to poll; whether a stored window was new or a retry is not part of a poll's answer.
- TimelineRuns.HealthAlways: speaks of runs whose own batches have an end position; a batch without one is an overflow
  error that skips a count, which `RefusalVerdict` describes batch by batch.
- `EventService::subscribe` refuses unsupported API versions and cursors of another generation before it reads
  the log, and `receive_page` pages like `replay_events`; both would add only single-branch members.
- `execute_mutating` is modelled by its atomic steps; the mapping of port results to API outcomes, and all
  read-only commands, are left out.
- `ReceiveClockDriver`, IPC, CLI, identifiers, callsigns, rig contracts and test fakes are not part of this model.
- `accept_or_existing` is given the command identifier by an arbitrary function of the request identifier.
