/**
 What the pool must do, not only what it must not: frames are dropped only for want of a buffer, a stream stops
 only for a cause, and a worker that asks gets the oldest buffer.
 */
module CaptureProgress {
  import opened Numeric
  import opened Audio
  import opened CapturePool

  // ---------------------------------------------------------------------
  // Nothing is lost while a buffer is free
  // ---------------------------------------------------------------------

  /** Well-formed data of a usable time, and no stop from outside. */
  predicate CleanStep(c: InputConfiguration, step: Step) {
    match step
    case CallbackEnter(data, timing) =>
      data != [] && |data| % c.channels == 0 && Normalized(data) && timing.utc >= 0
    case StopRequest => false
    case BackendStop => false
    case _ => true
  }

  ghost predicate CleanSteps(c: InputConfiguration, steps: seq<Step>) {
    forall i | 0 <= i < |steps| :: CleanStep(c, steps[i])
  }

  /** Whenever the callback asked for a buffer, one was free. */
  ghost predicate Buffered(start: State, steps: seq<Step>) {
    forall i | 0 <= i < |steps| ::
      Run(start, steps[..i]).callback.AtHead? && steps[i].CallbackStep? ==> Run(start, steps[..i]).queues.free != []
  }

  /** The callback is on its way to queue normalized frames, and nothing has been dropped. */
  ghost predicate Lossless(s: State) {
    && !s.stopped && s.progress.pending == 0 && s.progress.overflowCount == 0
    && MarkedDrops(s.history.queued) == 0
    && match s.callback
       case Idle => true
       case AtHead(w) => Normalized(w.rest) && w.timing.utc >= 0
       case Holding(_, w) => Normalized(w.rest) && w.timing.utc >= 0
       case Moving(w, dropped) => !dropped && Normalized(w.rest) && w.timing.utc >= 0
       case _ => false
  }

  lemma {:induction false} SelectedNormalized(c: InputConfiguration, data: seq<Native>)
    requires Normalized(data)
    ensures Normalized(Selected(c, data))
    decreases |data|
  {
    if |data| >= c.channels {
      SelectedNormalized(c, data[c.channels..]);
    }
  }

  lemma CallbackLossless(s: State)
    requires Invariant(s) && Lossless(s) && !StepCallback(s).history.exhausted
    requires s.callback.AtHead? ==> s.queues.free != []
    ensures Lossless(StepCallback(s))
  {
    hide Conserved, InOrder, AllShaped, AllFaithful, Samples, ClippedCount, HeldByWorker, MarkedDrops;
    if s.callback.Holding? {
      var (buffer, w) := (s.callback.buffer, s.callback.work);
      assert Normalized(w.Chunk());
      ReadyHasRoom(s, buffer);
      MarkedSnoc(s.history.queued, Fill(s.setup.configuration, s.progress, buffer, w).value);
    }
  }

  lemma MarkedSnoc(queued: seq<Raw>, raw: Raw)
    ensures MarkedDrops(queued + [raw])
         == MarkedDrops(queued) + if raw.discontinuity.Some? then raw.discontinuity.value.droppedFrames else 0
  {
    assert (queued + [raw])[..|queued|] == queued;
  }

  lemma ReadyHasRoom(s: State, buffer: nat)
    requires Invariant(s) && s.callback.Holding? && s.callback.buffer == buffer
    ensures |s.queues.ready| < s.setup.capacity
  {
    hide InOrder, AllShaped, Tiled;
    BufferCount(s.setup.capacity, s.queues, multiset{buffer}, HeldByWorker(s.worker));
  }

  lemma StepLossless(s: State, step: Step)
    requires Invariant(s) && Lossless(s) && CleanStep(s.setup.configuration, step)
    requires !Apply(s, step).history.exhausted
    requires step.CallbackStep? && s.callback.AtHead? ==> s.queues.free != []
    ensures Lossless(Apply(s, step))
  {
    hide Invariant, Lossless, StepCallback, Enter;
    match step {
      case CallbackEnter(data, timing) => EnterLossless(s, data, timing);
      case CallbackStep => CallbackLossless(s);
      case _ =>
        WorkerLeaves(s, step);
        SameLossless(s, Apply(s, step));
    }
  }

  lemma EnterLossless(s: State, data: seq<Native>, timing: CallbackTiming)
    requires Lossless(s) && CleanStep(s.setup.configuration, CallbackEnter(data, timing))
    ensures Lossless(Enter(s, data, timing))
  {
    SelectedNormalized(s.setup.configuration, data);
    hide Selected, Normalized, MarkedDrops;
  }

  /** The worker's steps leave the callback's side alone. */
  lemma WorkerLeaves(s: State, step: Step)
    requires step.WorkerPoll? || step.WorkerStep?
    ensures var t := Apply(s, step);
            && t.callback == s.callback && t.stopped == s.stopped && t.progress == s.progress
            && t.history.queued == s.history.queued && t.history.captured == s.history.captured
  {
    hide ToBatch, PushFree;
  }

  lemma SameLossless(s: State, t: State)
    requires Lossless(s) && t.callback == s.callback && t.stopped == s.stopped && t.progress == s.progress
    requires t.history.queued == s.history.queued
    ensures Lossless(t)
  {
    hide Normalized, MarkedDrops;
  }

  lemma ExhaustedStays(s: State, step: Step)
    ensures s.history.exhausted ==> Apply(s, step).history.exhausted
  {
    hide Fill, ToBatch, Selected, PushFree;
  }

  /** In every interleaving in which the data is well formed, nobody stops the stream and a buffer is free whenever
      the callback asks, the stream goes on and every captured frame is queued. */
  lemma {:induction false} NothingLostWhileBuffered(setup: Setup, steps: seq<Step>)
    requires Initial(setup).Some? && CleanSteps(setup.configuration, steps)
    requires Buffered(Initial(setup).value, steps) && !Run(Initial(setup).value, steps).history.exhausted
    ensures var s := Run(Initial(setup).value, steps);
            && Lossless(s) && !s.stopped
            && QueuedFrames(s.history.queued) == |s.history.captured| && MarkedDrops(s.history.queued) == 0
  {
    var start := Initial(setup).value;
    if steps != [] {
      var n := |steps| - 1;
      var before := steps[..n];
      forall i | 0 <= i <= n
        ensures before[..i] == steps[..i]
      {
      }
      InvariantAlways(setup, before);
      hide Apply, Invariant, Initial, CleanStep, Lossless;
      ExhaustedStays(Run(start, before), steps[n]);
      NothingLostWhileBuffered(setup, before);
      StepLossless(Run(start, before), steps[n]);
    }
    DropsAccounted(setup, steps);
  }

  // ---------------------------------------------------------------------
  // Entering and polling
  // ---------------------------------------------------------------------

  /** A pool opens exactly with 2 to 128 buffers, all free, at position zero. */
  lemma OpensWithin(setup: Setup)
    ensures Initial(setup).Some? <==> 2 <= setup.capacity <= 128
    ensures Initial(setup).Some? ==>
              var s := Initial(setup).value;
              && |s.queues.free| == setup.capacity && s.queues.ready == [] && !s.stopped && s.callback.Idle?
              && s.worker.Waiting? && s.progress == Progress(0, 0, true, 0)
              && s.history == History([], [], [], 0, [], false, false)
  {
  }

  /** Positions leave 64 bits exactly when that many frames were captured. */
  lemma {:induction false} ExhaustedExactly(setup: Setup, steps: seq<Step>)
    requires Initial(setup).Some?
    ensures var h := Run(Initial(setup).value, steps).history;
            h.exhausted <==> |h.captured| > 0xffff_ffff_ffff_ffff
  {
    if steps != [] {
      ExhaustedExactly(setup, steps[..|steps| - 1]);
      hide Apply, Initial;
      ExhaustedStep(Run(Initial(setup).value, steps[..|steps| - 1]), steps[|steps| - 1]);
    }
  }

  lemma ExhaustedStep(s: State, step: Step)
    requires s.history.exhausted <==> |s.history.captured| > U64_MAX
    ensures Apply(s, step).history.exhausted <==> |Apply(s, step).history.captured| > U64_MAX
  {
    hide Fill, Selected, ToBatch, PushFree;
  }

  /** A chunk for which no buffer is free is counted as dropped, and the callback goes on with the next one even where
      the position cannot follow and the stream stops. */
  lemma DropVerdict(s: State, w: Work)
    requires s.callback == Starved(w)
    ensures var t := Apply(Apply(s, CallbackStep), CallbackStep);
            var end := s.progress.position + w.Length();
            && t.progress.pending == Min(s.progress.pending + w.Length(), U64_MAX)
            && t.progress.overflowCount == s.progress.overflowCount + 1
            && t.history.captured == s.history.captured + w.Chunk() && t.history.queued == s.history.queued
            && t.callback == w.Next()
            && (end <= U64_MAX ==> t.progress.position == end && t.stopped == s.stopped)
            && (end > U64_MAX ==> t.progress.position == s.progress.position && t.stopped)
  {
  }

  /** A chunk that filled its buffer is queued; where the position cannot follow, the stream stops and the callback
      is over. */
  lemma QueueVerdict(s: State, buffer: nat, w: Work)
    requires s.callback == Holding(buffer, w) && Fill(s.setup.configuration, s.progress, buffer, w).Some?
    requires |s.queues.ready| < s.setup.capacity
    ensures var t := Apply(Apply(s, CallbackStep), CallbackStep);
            var end := s.progress.position + w.Length();
            && t.queues.ready == s.queues.ready + [Fill(s.setup.configuration, s.progress, buffer, w).value]
            && t.history.captured == s.history.captured + w.Chunk() && t.progress.pending == 0
            && (end <= U64_MAX ==> t.progress.position == end && t.stopped == s.stopped && t.callback == w.Next())
            && (end > U64_MAX ==> t.progress.position == s.progress.position && t.stopped && t.callback.Idle?)
  {
    hide Fill;
  }

  /** A chunk is as many of the frames left as a batch can hold. */
  lemma ChunkVerdict(w: Work)
    ensures w.Length() == Min(|w.rest|, 8_192) && w.Chunk() == w.rest[..Min(|w.rest|, 8_192)]
    ensures if |w.rest| <= 8_192 then w.Next().Idle?
            else w.Next() == AtHead(Work(w.rest[8_192..], w.timing, w.offset + 8_192))
  {
  }

  /** A callback of a running stream is taken exactly when it brings whole frames; otherwise it stops the stream. */
  lemma EntryVerdict(s: State, data: seq<Native>, timing: CallbackTiming)
    requires s.callback.Idle?
    ensures var t := Apply(s, CallbackEnter(data, timing));
            var taken := !s.stopped && data != [] && |data| % s.setup.configuration.channels == 0;
            && t.history.entered == s.history.entered + (if taken then [Call(data, timing)] else [])
            && (s.stopped ==> t == s)
            && (!s.stopped && !taken ==> Apply(t, CallbackStep).stopped && Apply(t, CallbackStep).history == s.history)
  {
    hide Selected;
    assert s.history.entered + [] == s.history.entered;
  }

  /** Steps of the callback and of the backend's error handler. */
  predicate Foreground(step: Step) { step.CallbackEnter? || step.CallbackStep? || step.BackendStop? }

  ghost predicate AllForeground(steps: seq<Step>) { forall i | 0 <= i < |steps| :: Foreground(steps[i]) }

  lemma CallbackLeavesWorker(s: State, step: Step)
    requires Foreground(step)
    ensures var t := Apply(s, step);
            && t.worker == s.worker && t.setup == s.setup && t.history.returned == s.history.returned
            && s.queues.ready <= t.queues.ready
  {
    hide Fill, Selected;
  }

  lemma {:induction false} CallbacksLeaveWorker(s: State, steps: seq<Step>)
    requires AllForeground(steps)
    ensures var t := Run(s, steps);
            && t.worker == s.worker && t.setup == s.setup && t.history.returned == s.history.returned
            && s.queues.ready <= t.queues.ready
  {
    if steps != [] {
      var n := |steps| - 1;
      hide Apply;
      CallbacksLeaveWorker(s, steps[..n]);
      CallbackLeavesWorker(Run(s, steps[..n]), steps[n]);
    }
  }

  lemma {:induction false} RunKeepsInvariant(s: State, steps: seq<Step>)
    requires Invariant(s)
    ensures Invariant(Run(s, steps))
  {
    if steps != [] {
      hide Apply, Invariant;
      RunKeepsInvariant(s, steps[..|steps| - 1]);
      StepKeepsInvariant(Run(s, steps[..|steps| - 1]), steps[|steps| - 1]);
    }
  }

  /** A worker that asks a running stream gets the oldest ready buffer as a batch, and returns the buffer, whatever
      the callback does in between. */
  lemma PollDelivers(s: State, one: seq<Step>, two: seq<Step>)
    requires Invariant(s) && s.worker.Waiting? && !s.stopped && s.queues.ready != []
    requires AllForeground(one) && AllForeground(two)
    ensures var popping := Run(Apply(s, WorkerPoll), one);
            var returning := Run(Apply(popping, WorkerStep), two);
            var t := Apply(returning, WorkerStep);
            && t.worker.Waiting? && t.history.returned == s.history.returned + [ToBatch(s.setup, s.queues.ready[0])]
            && t.queues.free == returning.queues.free + [s.queues.ready[0].buffer]
            && s.queues.ready[1..] <= t.queues.ready
  {
    hide Apply, Run, Invariant, AllForeground, ToBatch;
    var asked := Apply(s, WorkerPoll);
    StepKeepsInvariant(s, WorkerPoll);
    WorkerAsks(s);
    RunKeepsInvariant(asked, one);
    CallbacksLeaveWorker(asked, one);
    var popping := Run(asked, one);
    var popped := Apply(popping, WorkerStep);
    StepKeepsInvariant(popping, WorkerStep);
    WorkerPops(popping);
    RunKeepsInvariant(popped, two);
    CallbacksLeaveWorker(popped, two);
    ReturnSucceeds(Run(popped, two), s.queues.ready[0]);
  }

  lemma WorkerAsks(s: State)
    requires s.worker.Waiting? && !s.stopped
    ensures var t := Apply(s, WorkerPoll);
            t.worker.Popping? && t.queues == s.queues && t.setup == s.setup && t.history == s.history
  {
  }

  lemma WorkerPops(s: State)
    requires s.worker.Popping? && s.queues.ready != []
    ensures var t := Apply(s, WorkerStep);
            && t.worker == Returning(s.queues.ready[0]) && t.queues.ready == s.queues.ready[1..]
            && t.setup == s.setup && t.history.returned == s.history.returned
  {
  }

  /** A popped buffer always becomes a batch. */
  lemma ReturnSucceeds(s: State, raw: Raw)
    requires Invariant(s) && s.worker == Returning(raw)
    ensures var t := Apply(s, WorkerStep);
            && t.worker.Waiting? && t.history.returned == s.history.returned + [ToBatch(s.setup, raw)]
            && t.queues.free == s.queues.free + [raw.buffer] && t.queues.ready == s.queues.ready
  {
    ReturnedValid(s.setup, s.queues.ready, s.stopped, raw, s.history);
    hide Tiled, ToBatch, Batch.Valid, AllShaped, InOrder;
    BufferCount(s.setup.capacity, s.queues, HeldByCallback(s.callback), multiset{raw.buffer});
  }

  function WorkerSteps(n: nat): seq<Step> { if n == 0 then [] else WorkerSteps(n - 1) + [WorkerStep] }

  lemma {:induction false} WorkerStepsLast(s: State, n: nat)
    requires n > 0
    ensures Run(s, WorkerSteps(n)) == Run(Apply(s, WorkerStep), WorkerSteps(n - 1))
  {
    hide Apply;
    var all := WorkerSteps(n);
    assert all[..|all| - 1] == WorkerSteps(n - 1);
    if n > 1 {
      WorkerStepsLast(s, n - 1);
      var fewer := WorkerSteps(n - 1);
      assert fewer[..|fewer| - 1] == WorkerSteps(n - 2);
    } else {
      assert WorkerSteps(0) == [];
    }
  }

  /** A stopped stream's worker returns every ready buffer and delivers none. */
  lemma {:induction false} DiscardEmpties(s: State)
    requires Invariant(s) && s.worker.Discarding?
    ensures var t := Run(s, WorkerSteps(2 * |s.queues.ready| + 1));
            && t.worker.Waiting? && t.queues.ready == [] && t.history.returned == s.history.returned
            && |t.queues.free| == |s.queues.free| + |s.queues.ready|
    decreases |s.queues.ready|
  {
    hide Apply, Invariant, Run, WorkerSteps;
    var n := |s.queues.ready|;
    WorkerStepsLast(s, 2 * n + 1);
    var popped := Apply(s, WorkerStep);
    DiscardPops(s);
    if n == 0 {
      NoWorkerSteps(popped);
    } else {
      StepKeepsInvariant(s, WorkerStep);
      WorkerStepsLast(popped, 2 * n);
      DiscardReturns(popped);
      StepKeepsInvariant(popped, WorkerStep);
      DiscardEmpties(Apply(popped, WorkerStep));
    }
  }

  lemma NoWorkerSteps(s: State)
    ensures Run(s, WorkerSteps(0)) == s
  {
  }

  lemma DiscardPops(s: State)
    requires s.worker.Discarding?
    ensures var t := Apply(s, WorkerStep);
            && t.history.returned == s.history.returned && t.queues.free == s.queues.free
            && if s.queues.ready == [] then t.worker.Waiting? && t.queues.ready == []
               else t.worker.DiscardReturning? && t.queues.ready == s.queues.ready[1..]
  {
  }

  lemma DiscardReturns(s: State)
    requires Invariant(s) && s.worker.DiscardReturning?
    ensures var t := Apply(s, WorkerStep);
            && t.worker.Discarding? && t.queues.ready == s.queues.ready && t.history.returned == s.history.returned
            && |t.queues.free| == |s.queues.free| + 1
  {
    hide Tiled, AllShaped, InOrder;
    BufferCount(s.setup.capacity, s.queues, HeldByCallback(s.callback), multiset{s.worker.buffer});
  }

  /** A stop takes a waiting worker to discarding; a backend error stops at once; neither touches the callback. */
  lemma StopVerdict(s: State)
    ensures var t := Apply(s, StopRequest);
            && (s.worker.Waiting? && !s.stopped ==> t == s.(stopped := true, worker := Discarding))
            && (!s.worker.Waiting? || s.stopped ==> t == s)
    ensures Apply(s, BackendStop) == s.(stopped := true)
    ensures s.worker.Waiting? && s.stopped ==> Apply(s, WorkerPoll).worker.Discarding?
  {
  }
}
