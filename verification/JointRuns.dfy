/**
 Capture pool and coordinator in one run: starting opens a pool, a poll's batches are what the pool's
 `next_batch` returns, stopping and inhibiting stop the pool, and callback and backend steps happen at
 any time, also inside a poll.
 */
module JointRuns {
  import opened Numeric
  import opened Audio
  import opened Records
  import opened Coordinator
  import opened CoordinatorRuns
  import opened CoordinatorSpectrum
  import opened EndToEnd
  import CoordinatorTheorems
  import P = CapturePool
  import ReceiveClock
  import Spectrum

  datatype Pool = Pool(setup: P.Setup, steps: seq<P.Step>) {
    function State(): P.State
      requires P.Initial(setup).Some?
    {
      P.Run(P.Initial(setup).value, steps)
    }

    function Returned(): seq<Batch>
      requires P.Initial(setup).Some?
    {
      State().history.returned
    }

    function Extended(more: seq<P.Step>): Pool { Pool(setup, steps + more) }
  }

  type OpenPool = p: Pool | P.Initial(p.setup).Some?
    witness Pool(P.Setup(P.MIN_QUEUE, 1, 1, Configuration(MIN_RATE_HZ, 1, Signed16, 0)), [])

  /** One call of `next_batch`, with the callback steps that happen during it: the worker starts and ends
      outside the queues, and at most one batch is returned. */
  predicate NextBatchCall(pool: OpenPool, segment: seq<P.Step>) {
    && pool.State().worker.Waiting? && pool.Extended(segment).State().worker.Waiting?
    && (forall i | 0 <= i < |segment| :: !segment[i].StopRequest?)
    && |pool.Extended(segment).Returned()| <= |pool.Returned()| + 1
  }

  /** The answer of such a call. */
  function Answer(pool: OpenPool, segment: seq<P.Step>): Result<Option<CaptureBatch>, InputError> {
    var (before, after) := (pool.Returned(), pool.Extended(segment).Returned());
    if |after| <= |before| then Ok(None)
    else if after[|after| - 1].Valid() then Ok(Some(after[|after| - 1]))
    else Err(BackendError)
  }

  /** The admission loop on the pool: its answers, and the pool afterwards. */
  function Serve(worker: seq<CaptureBatch>, pool: OpenPool, segments: seq<seq<P.Step>>)
    : (seq<Result<Option<CaptureBatch>, InputError>>, OpenPool)
    decreases |segments|
  {
    if |worker| >= WORKER_BATCH_CAPACITY || segments == [] || !NextBatchCall(pool, segments[0]) then ([], pool)
    else
      var (answer, after) := (Answer(pool, segments[0]), pool.Extended(segments[0]));
      if answer.Ok? && answer.value.Some? then
        var rest := Serve(worker + [answer.value.value], after, segments[1..]);
        ([answer] + rest.0, rest.1)
      else ([answer], after)
  }

  /** `live` is the generation whose pool is open. */
  datatype System = System(calls: seq<Call>, pools: map<Generation, OpenPool>, live: Option<Generation>)

  datatype Event =
    | Background(step: P.Step)
    | Start(initial: ReceiveClock.Observation, capacity: nat, refused: Option<InputError>)
    | Poll(fault: Option<FaultKind>, health: Result<AudioHealth, InputError>, segments: seq<seq<P.Step>>,
           services: Services, now: u64, recordedUtc: i64)
    | Observe(observation: ReceiveClock.Observation, at: u64)
    | Stop(reason: StopReason)
    | Enable(config: Spectrum.ValidConfig, planned: bool)

  function Add(sys: System, call: Call): System { sys.(calls := sys.calls + [call]) }

  /** The pool is stopped as soon as the coordinator's input is closed. */
  function Close(setup: Setup, sys: System): System {
    if sys.live.None? || sys.live.value !in sys.pools || RunCalls(setup, sys.calls).inputOpen then sys
    else
      var g := sys.live.value;
      sys.(pools := sys.pools[g := sys.pools[g].Extended([P.StopRequest])], live := None)
  }

  function Join(setup: Setup, sys: System, e: Event): System {
    var s := RunCalls(setup, sys.calls);
    match e
    case Background(step) =>
      if sys.live.None? || sys.live.value !in sys.pools || step.WorkerPoll? || step.WorkerStep? || step.StopRequest? then sys
      else sys.(pools := sys.pools[sys.live.value := sys.pools[sys.live.value].Extended([step])])
    case Start(initial, capacity, refused) =>
      if !s.lifecycle.Stopped? || s.lastStream == U64_MAX || initial.generation != setup.process || refused.Some?
      then Add(sys, StartCall(initial, if refused.Some? then refused else Some(BackendError)))
      else
        var g: Generation := s.lastStream + 1;
        var made := P.Setup(capacity, setup.process, g, setup.configuration);
        if P.Initial(made).None? then Add(sys, StartCall(initial, Some(InvalidQueueCapacity)))
        else Add(sys, StartCall(initial, None)).(pools := sys.pools[g := Pool(made, [])], live := Some(g))
    case Poll(fault, health, segments, services, now, recordedUtc) =>
      if sys.live.None? || sys.live.value !in sys.pools || !Admitting(s, Replies(fault, health, [], services), now)
      then Close(setup, Add(sys, PollCall(Replies(fault, health, [], services), now, recordedUtc)))
      else
        var served := Serve(s.worker, sys.pools[sys.live.value], segments);
        Close(setup, Add(sys, PollCall(Replies(fault, health, served.0, services), now, recordedUtc))
                     .(pools := sys.pools[sys.live.value := served.1]))
    case Observe(o, at) => Close(setup, Add(sys, ObserveCall(o, at)))
    case Stop(reason) => Close(setup, Add(sys, StopCall(reason)))
    case Enable(config, planned) => Add(sys, EnableCall(config, planned))
  }

  function RunJoint(setup: Setup, events: seq<Event>): System {
    if events == [] then System([], map[], None)
    else Join(setup, RunJoint(setup, events[..|events| - 1]), events[|events| - 1])
  }

  // ---------------------------------------------------------------------
  // The pool's side
  // ---------------------------------------------------------------------

  /** A step only appends to what was returned, and only a worker step does. */
  lemma StepReturns(s: P.State, step: P.Step)
    ensures s.history.returned <= P.Apply(s, step).history.returned
    ensures !step.WorkerStep? ==> P.Apply(s, step).history.returned == s.history.returned
  {
    hide P.Fill, P.ToBatch, P.Selected, P.PushFree;
  }

  lemma {:induction false} ReturnedGrows(pool: OpenPool, more: seq<P.Step>)
    ensures pool.Returned() <= pool.Extended(more).Returned()
    ensures |more| == 1 && !more[0].WorkerStep? ==> pool.Extended(more).Returned() == pool.Returned()
  {
    hide P.Apply, P.Initial;
    if more == [] {
      assert pool.steps + more == pool.steps;
    } else {
      var n := |more| - 1;
      var all := pool.steps + more;
      ReturnedGrows(pool, more[..n]);
      assert all[..|all| - 1] == pool.steps + more[..n] && all[|all| - 1] == more[n];
      StepReturns(P.Run(P.Initial(pool.setup).value, all[..|all| - 1]), more[n]);
      if n == 0 { assert pool.steps + more[..0] == pool.steps; }
    }
  }

  /** Every returned batch passed its constructor. */
  lemma ReturnedBatchesValid(pool: OpenPool)
    ensures forall i | 0 <= i < |pool.Returned()| :: pool.Returned()[i].Valid()
  {
    P.InvariantAlways(pool.setup, pool.steps);
    var h := pool.State().history;
    hide P.Run, P.Initial, P.Tiled, P.Conserved;
    forall i | 0 <= i < |h.returned|
      ensures h.returned[i].Valid()
    {
      assert P.WellShaped(h.queued[i]) && h.returned[i] == P.ToBatch(pool.setup, h.queued[i]);
    }
  }

  /** A call of `next_batch` never fails, and answers exactly the batch it returned. */
  lemma AnswerIsReturned(pool: OpenPool, segment: seq<P.Step>)
    requires NextBatchCall(pool, segment)
    ensures var answer := Answer(pool, segment);
            && answer.Ok?
            && pool.Extended(segment).Returned()
               == pool.Returned() + if answer.value.Some? then [answer.value.value] else []
  {
    ReturnedGrows(pool, segment);
    ReturnedBatchesValid(pool.Extended(segment));
    hide P.Run, P.Initial, Pool.State;
    var (before, after) := (pool.Returned(), pool.Extended(segment).Returned());
    assert before + [] == before;
    if |after| > |before| { assert after == before + [after[|after| - 1]]; }
  }

  /** What the loop admits is what the pool returned meanwhile. */
  lemma {:induction false} ServedIsReturned(
    worker: seq<CaptureBatch>, pool: OpenPool, segments: seq<seq<P.Step>>, replies: Replies, i: nat)
    requires i <= |replies.batches| && replies.batches[i..] == Serve(worker, pool, segments).0
    ensures var (after, admitted) := (Serve(worker, pool, segments).1, Admit(worker, replies, i).0);
            && after.setup == pool.setup && worker <= admitted
            && after.Returned() == pool.Returned() + admitted[|worker|..]
    decreases |segments|
  {
    hide P.Run, P.Initial;
    var none: seq<Batch> := [];
    assert pool.Returned() + none == pool.Returned();
    if !(|worker| >= WORKER_BATCH_CAPACITY || segments == [] || !NextBatchCall(pool, segments[0])) {
      var (answer, after) := (Answer(pool, segments[0]), pool.Extended(segments[0]));
      assert replies.NextBatch(i) == answer by { assert replies.batches[i] == replies.batches[i..][0]; }
      AnswerIsReturned(pool, segments[0]);
      if answer.Ok? && answer.value.Some? {
        var b := answer.value.value;
        assert replies.batches[i + 1..] == replies.batches[i..][1..];
        ServedIsReturned(worker + [b], after, segments[1..], replies, i + 1);
        var admitted := Admit(worker, replies, i).0;
        assert admitted[|worker|..] == [b] + admitted[|worker| + 1..];
      }
    } else {
      assert replies.batches[i..] == [];
    }
  }

  // ---------------------------------------------------------------------
  // The link
  // ---------------------------------------------------------------------

  ghost predicate Begins(obtained: seq<CaptureBatch>, returned: seq<Batch>) {
    |obtained| <= |returned| && forall j | 0 <= j < |obtained| :: obtained[j] == returned[j]
  }

  /** The pool is that of stream `g`, and the coordinator obtained a beginning of what it returned. */
  ghost predicate LinkedPool(setup: Setup, s: Coordinator.State, g: Generation, pool: OpenPool) {
    && g <= s.lastStream && pool.setup.stream == g
    && pool.setup.process == setup.process && pool.setup.configuration == setup.configuration
    && Begins(s.log.Of(g).obtained, pool.Returned())
  }

  /** Every stream that obtained anything has its pool; the live pool is that of the stream being received,
      and everything it returned was obtained. */
  ghost predicate Linked(setup: Setup, sys: System) {
    var s := RunCalls(setup, sys.calls);
    && (forall g | g in sys.pools :: LinkedPool(setup, s, g, sys.pools[g]))
    && (forall g: Generation | s.log.Of(g).obtained != [] :: g in sys.pools)
    && match sys.live
       case None => !s.inputOpen
       case Some(g) =>
         g in sys.pools && s.lifecycle == Receiving(g) && s.log.Of(g).obtained == sys.pools[g].Returned()
  }

  lemma AfterCall(setup: Setup, sys: System, call: Call)
    ensures RunCalls(setup, Add(sys, call).calls) == Apply(setup, RunCalls(setup, sys.calls), call)
  {
    hide Apply;
    var calls := sys.calls + [call];
    assert calls[..|calls| - 1] == sys.calls;
  }

  /** A call that obtains nothing keeps every pool linked. */
  lemma QuietKeeps(setup: Setup, sys: System, call: Call)
    requires Linked(setup, sys)
    requires var (s, t) := (RunCalls(setup, sys.calls), Apply(setup, RunCalls(setup, sys.calls), call));
             && s.lastStream <= t.lastStream && (forall g :: t.log.Of(g).obtained == s.log.Of(g).obtained)
             && (t.inputOpen ==> t.lifecycle == s.lifecycle && s.inputOpen)
    ensures Linked(setup, Close(setup, Add(sys, call)))
  {
    AfterCall(setup, sys, call);
    hide RunCalls, Apply, Pool.Returned, P.Run, P.Initial;
    CloseKeeps(setup, Add(sys, call));
  }

  /** Linked, but for a live pool whose input has just been closed. */
  ghost predicate AlmostLinked(setup: Setup, sys: System) {
    var s := RunCalls(setup, sys.calls);
    && (forall g | g in sys.pools :: LinkedPool(setup, s, g, sys.pools[g]))
    && (forall g: Generation | s.log.Of(g).obtained != [] :: g in sys.pools)
    && match sys.live
       case None => !s.inputOpen
       case Some(g) =>
         && g in sys.pools && s.log.Of(g).obtained == sys.pools[g].Returned()
         && (s.inputOpen ==> s.lifecycle == Receiving(g))
  }

  lemma CloseKeeps(setup: Setup, sys: System)
    requires AlmostLinked(setup, sys)
    ensures Linked(setup, Close(setup, sys))
  {
    hide RunCalls, P.Run, P.Initial, Pool.Returned;
    if sys.live.Some? && !RunCalls(setup, sys.calls).inputOpen {
      ReturnedGrows(sys.pools[sys.live.value], [P.StopRequest]);
    }
  }

  lemma BackgroundKeeps(setup: Setup, sys: System, step: P.Step)
    requires Linked(setup, sys)
    ensures Linked(setup, Join(setup, sys, Background(step)))
  {
    hide RunCalls, P.Run, P.Initial, Pool.Returned;
    if sys.live.Some? {
      ReturnedGrows(sys.pools[sys.live.value], [step]);
    }
  }

  lemma StartKeepsLink(setup: Setup, sys: System, initial: ReceiveClock.Observation, capacity: nat, refused: Option<InputError>)
    requires setup.clock.Valid() && Linked(setup, sys) && Invariant(setup, RunCalls(setup, sys.calls))
    ensures Linked(setup, Join(setup, sys, Start(initial, capacity, refused)))
  {
    hide RunCalls, Apply, Invariant, Linked;
    var s := RunCalls(setup, sys.calls);
    if !s.lifecycle.Stopped? || s.lastStream == U64_MAX || initial.generation != setup.process || refused.Some? {
      UnopenedStart(setup, sys, initial, if refused.Some? then refused else Some(BackendError));
    } else if P.Initial(P.Setup(capacity, setup.process, s.lastStream + 1, setup.configuration)).None? {
      UnopenedStart(setup, sys, initial, Some(InvalidQueueCapacity));
    } else {
      OpenedStart(setup, sys, initial, Pool(P.Setup(capacity, setup.process, s.lastStream + 1, setup.configuration), []));
    }
  }

  lemma UnopenedStart(setup: Setup, sys: System, initial: ReceiveClock.Observation, reply: Option<InputError>)
    requires setup.clock.Valid() && Linked(setup, sys) && Invariant(setup, RunCalls(setup, sys.calls)) && reply.Some?
    ensures Linked(setup, Add(sys, StartCall(initial, reply)))
  {
    hide RunCalls, Apply, Invariant, Pool.Returned, P.Initial;
    AfterCall(setup, sys, StartCall(initial, reply));
    StartEffect(setup, RunCalls(setup, sys.calls), initial, reply);
  }

  lemma OpenedStart(setup: Setup, sys: System, initial: ReceiveClock.Observation, pool: OpenPool)
    requires setup.clock.Valid() && Linked(setup, sys) && Invariant(setup, RunCalls(setup, sys.calls))
    requires var s := RunCalls(setup, sys.calls);
             && s.lifecycle.Stopped? && s.lastStream < U64_MAX && initial.generation == setup.process
             && pool.steps == [] && pool.setup.stream == s.lastStream + 1
             && pool.setup.process == setup.process && pool.setup.configuration == setup.configuration
    ensures Linked(setup, Add(sys, StartCall(initial, None)).(
                            pools := sys.pools[pool.setup.stream := pool], live := Some(pool.setup.stream)))
  {
    hide RunCalls, Apply, Invariant, Pool.Returned, P.Initial;
    AfterCall(setup, sys, StartCall(initial, None));
    StartEffect(setup, RunCalls(setup, sys.calls), initial, None);
    NewPool(pool);
  }

  lemma NewPool(pool: OpenPool)
    requires pool.steps == []
    ensures pool.Returned() == []
  {
  }

  /** What a start does to the input and to what was obtained. */
  lemma StartEffect(setup: Setup, s: Coordinator.State, initial: ReceiveClock.Observation, reply: Option<InputError>)
    requires setup.clock.Valid() && Invariant(setup, s)
    ensures var t := Apply(setup, s, StartCall(initial, reply));
            var opens := s.lifecycle.Stopped? && s.lastStream < U64_MAX && initial.generation == setup.process && reply.None?;
            && s.lastStream <= t.lastStream
            && (s.lifecycle.Stopped? ==> !s.inputOpen)
            && (if opens then t.lastStream == s.lastStream + 1 && t.lifecycle == Receiving(s.lastStream + 1)
                else t.inputOpen == s.inputOpen && (s.lifecycle.Receiving? ==> t.lifecycle == s.lifecycle))
            && (forall g: Generation | g <= s.lastStream :: t.log.Of(g).obtained == s.log.Of(g).obtained)
            && (forall g: Generation | g > s.lastStream :: t.log.Of(g).obtained == [])
  {
    hide StreamOk, EntryOk, TimelineInStep, NewestEntry, ResetSpectrum;
  }

  lemma PollKeepsLink(setup: Setup, sys: System, e: Event)
    requires setup.clock.Valid() && Linked(setup, sys) && e.Poll? && Invariant(setup, RunCalls(setup, sys.calls))
    ensures Linked(setup, Join(setup, sys, e))
  {
    var s := RunCalls(setup, sys.calls);
    var quiet := Replies(e.fault, e.health, [], e.services);
    if sys.live.None? || !Admitting(s, quiet, e.now) {
      hide RunCalls, Invariant, Pool.Returned, P.Run, P.Initial, Admitting;
      UnadmittedPoll(setup, s, quiet, e.now, e.recordedUtc);
      QuietKeeps(setup, sys, PollCall(quiet, e.now, e.recordedUtc));
    } else {
      hide RunCalls, Invariant, P.Run, P.Initial;
      ServedPoll(setup, sys, e);
    }
  }

  /** A poll that does not reach admission obtains nothing. */
  lemma UnadmittedPoll(setup: Setup, s: Coordinator.State, replies: Replies, now: u64, recordedUtc: i64)
    requires setup.clock.Valid() && Invariant(setup, s) && (!s.inputOpen || !Admitting(s, replies, now))
    ensures var t := Apply(setup, s, PollCall(replies, now, recordedUtc));
            && s.lastStream <= t.lastStream && (forall g :: t.log.Of(g).obtained == s.log.Of(g).obtained)
            && (t.inputOpen ==> t.lifecycle == s.lifecycle && s.inputOpen)
  {
    hide Work, LogOk, TimelineInStep, NewestEntry, ResetSpectrum;
  }

  lemma ServedPoll(setup: Setup, sys: System, e: Event)
    requires setup.clock.Valid() && Linked(setup, sys) && e.Poll? && Invariant(setup, RunCalls(setup, sys.calls))
    requires sys.live.Some? && Admitting(RunCalls(setup, sys.calls), Replies(e.fault, e.health, [], e.services), e.now)
    ensures Linked(setup, Join(setup, sys, e))
  {
    hide RunCalls, Apply, Invariant, P.Run, P.Initial, Pool.Returned, Admit;
    var (s, g) := (RunCalls(setup, sys.calls), sys.live.value);
    var served := Serve(s.worker, sys.pools[g], e.segments);
    hide Serve;
    var replies := Replies(e.fault, e.health, served.0, e.services);
    var call := PollCall(replies, e.now, e.recordedUtc);
    assert replies.batches[0..] == served.0;
    ServedIsReturned(s.worker, sys.pools[g], e.segments, replies, 0);
    AfterCall(setup, sys, call);
    AdmittedPoll(setup, s, g, replies, e.now, e.recordedUtc);
    AlmostAfterServe(setup, sys, call, served.1, Admit(s.worker, replies, 0).0[|s.worker|..]);
    CloseKeeps(setup, Add(sys, call).(pools := sys.pools[g := served.1]));
  }

  /** What a poll that reaches admission does to the input and to what was obtained. */
  lemma AdmittedPoll(setup: Setup, s: Coordinator.State, g: Generation, replies: Replies, now: u64, recordedUtc: i64)
    requires setup.clock.Valid() && Invariant(setup, s) && s.lifecycle == Receiving(g) && Admitting(s, replies, now)
    ensures s.worker <= Admit(s.worker, replies, 0).0
    ensures var t := Apply(setup, s, PollCall(replies, now, recordedUtc));
            && t.lastStream == s.lastStream && (t.inputOpen ==> t.lifecycle == Receiving(g))
            && forall h :: t.log.Of(h).obtained
                 == s.log.Of(h).obtained + if h == g then Admit(s.worker, replies, 0).0[|s.worker|..] else []
  {
    var call := PollCall(replies, now, recordedUtc);
    AdmitExtends(s.worker, replies, 0);
    hide Invariant, Admit, Coordinator.Poll;
    ApplyKeeps(setup, s, call);
    StreamKept(setup, s, call);
    OpenIsReceiving(setup, Apply(setup, s, call));
    CoordinatorTheorems.KeepsGenerations(setup, s, call);
    forall h
      ensures Apply(setup, s, call).log.Of(h).obtained
           == s.log.Of(h).obtained + if h == g then Admit(s.worker, replies, 0).0[|s.worker|..] else []
    {
      PollObtains(setup, s, replies, now, recordedUtc, h);
    }
  }

  lemma AlmostAfterServe(setup: Setup, sys: System, call: Call, pool: OpenPool, more: seq<CaptureBatch>)
    requires Linked(setup, sys) && sys.live.Some?
    requires var (s, t, g) := (RunCalls(setup, sys.calls), RunCalls(setup, Add(sys, call).calls), sys.live.value);
             && t.lastStream == s.lastStream && (t.inputOpen ==> t.lifecycle == Receiving(g))
             && (forall h :: t.log.Of(h).obtained == s.log.Of(h).obtained + if h == g then more else [])
             && pool.setup == sys.pools[g].setup && pool.Returned() == sys.pools[g].Returned() + more
    ensures AlmostLinked(setup, Add(sys, call).(pools := sys.pools[sys.live.value := pool]))
  {
    hide RunCalls, Pool.Returned, P.Initial;
  }

  lemma OpenIsReceiving(setup: Setup, s: Coordinator.State)
    requires Invariant(setup, s)
    ensures s.inputOpen ==> s.lifecycle.Receiving?
  {
    hide LogOk, TimelineInStep, NewestEntry;
  }

  lemma OtherKeepsLink(setup: Setup, sys: System, call: Call)
    requires Linked(setup, sys) && Invariant(setup, RunCalls(setup, sys.calls))
    requires call.ObserveCall? || call.StopCall? || call.EnableCall?
    ensures Linked(setup, Close(setup, Add(sys, call)))
  {
    var s := RunCalls(setup, sys.calls);
    OtherEffect(s, setup, call);
    hide RunCalls, Apply, Invariant, Linked;
    QuietKeeps(setup, sys, call);
  }

  lemma OtherEffect(s: Coordinator.State, setup: Setup, call: Call)
    requires Invariant(setup, s) && (call.ObserveCall? || call.StopCall? || call.EnableCall?)
    ensures var t := Apply(setup, s, call);
            && t.lastStream == s.lastStream && (forall g :: t.log.Of(g).obtained == s.log.Of(g).obtained)
            && (t.inputOpen ==> t.lifecycle == s.lifecycle && s.inputOpen)
            && (call.EnableCall? ==> t.inputOpen == s.inputOpen)
  {
    hide LogOk, TimelineInStep, NewestEntry, ResetSpectrum, ReceiveClock.Observe;
  }

  /** Exchanging the spectrum closes nothing. */
  lemma EnableOpen(setup: Setup, sys: System, config: Spectrum.ValidConfig, planned: bool)
    requires Linked(setup, sys) && Invariant(setup, RunCalls(setup, sys.calls))
    ensures Linked(setup, Add(sys, EnableCall(config, planned)))
  {
    var call := EnableCall(config, planned);
    OtherEffect(RunCalls(setup, sys.calls), setup, call);
    AfterCall(setup, sys, call);
    LiveIsOpen(setup, sys);
    OtherKeepsLink(setup, sys, call);
    hide RunCalls, Apply, Invariant, Linked;
  }

  lemma LiveIsOpen(setup: Setup, sys: System)
    requires Linked(setup, sys) && Invariant(setup, RunCalls(setup, sys.calls))
    ensures sys.live.Some? ==> RunCalls(setup, sys.calls).inputOpen
  {
    hide RunCalls, LogOk, TimelineInStep, NewestEntry, LinkedPool;
  }

  lemma JoinKeeps(setup: Setup, sys: System, e: Event)
    requires setup.clock.Valid() && Linked(setup, sys)
    ensures Linked(setup, Join(setup, sys, e))
  {
    hide RunCalls, Invariant, Linked, P.Initial, Serve, Admitting, Close, Add, Pool.Extended;
    InvariantAlways(setup, sys.calls);
    match e {
      case Background(step) => BackgroundKeeps(setup, sys, step);
      case Start(initial, capacity, refused) => StartKeepsLink(setup, sys, initial, capacity, refused);
      case Poll(_, _, _, _, _, _) => PollKeepsLink(setup, sys, e);
      case Observe(o, at) => OtherKeepsLink(setup, sys, ObserveCall(o, at));
      case Stop(reason) => OtherKeepsLink(setup, sys, StopCall(reason));
      case Enable(config, planned) => EnableOpen(setup, sys, config, planned);
    }
  }

  lemma {:induction false} LinkedAlways(setup: Setup, events: seq<Event>)
    requires setup.clock.Valid()
    ensures Linked(setup, RunJoint(setup, events))
  {
    if events != [] {
      LinkedAlways(setup, events[..|events| - 1]);
      hide Linked, Join;
      JoinKeeps(setup, RunJoint(setup, events[..|events| - 1]), events[|events| - 1]);
    }
  }

  /**
   In every joint run of callback, pool and coordinator, every window that reaches the decoder has the
   pool of its stream, and, unless that pool ran out of positions, is the closed-form resampling of the
   first captured frames of that stream, gap-free and before any dropped frame.
   */
  lemma EveryJointWindowIsResampledCapture(setup: Setup, events: seq<Event>, i: nat)
    requires setup.clock.Valid()
    requires i < |RunCalls(setup, RunJoint(setup, events).calls).log.entries|
    ensures var sys := RunJoint(setup, events);
            var e := RunCalls(setup, sys.calls).log.entries[i];
            && e.stream in sys.pools
            && var pool := sys.pools[e.stream];
               && pool.setup.stream == e.stream
               && (!pool.State().history.exhausted ==>
                     exists n, k :: ResampledCapture(setup, pool.setup, pool.State(), e.window, n, k))
  {
    LinkedAlways(setup, events);
    var sys := RunJoint(setup, events);
    var s := RunCalls(setup, sys.calls);
    InvariantAlways(setup, sys.calls);
    var e := s.log.entries[i];
    hide RunJoint, RunCalls, P.Run, P.Initial;
    SomethingObtained(setup, s, i);
    assert LinkedPool(setup, s, e.stream, sys.pools[e.stream]);
    var pool := sys.pools[e.stream];
    hide Invariant, Linked, LinkedPool, ResampledCapture;
    if !pool.State().history.exhausted {
      PoolWindow(setup, sys.calls, pool, i);
    }
  }

  lemma SomethingObtained(setup: Setup, s: Coordinator.State, i: nat)
    requires Invariant(setup, s) && i < |s.log.entries|
    ensures s.log.Of(s.log.entries[i].stream).obtained != []
  {
    StreamFacts(setup, s, i);
    hide Invariant, Contiguous, WindowFrom;
    var e := s.log.entries[i];
    var k: nat :| WindowFrom(setup, e.stream, s.log.Of(e.stream).accepted, k, e.window);
    WindowNeedsBatches(setup, e.stream, s.log.Of(e.stream).accepted, k, e.window);
  }

  lemma WindowNeedsBatches(setup: Setup, g: Generation, batches: seq<CaptureBatch>, k: nat, w: ReceiveWindow)
    requires WindowFrom(setup, g, batches, k, w)
    ensures batches != []
  {
  }

  lemma PoolWindow(setup: Setup, calls: seq<Call>, pool: OpenPool, i: nat)
    requires setup.clock.Valid() && !pool.State().history.exhausted
    requires i < |RunCalls(setup, calls).log.entries| && RunCalls(setup, calls).log.entries[i].stream == pool.setup.stream
    requires Begins(RunCalls(setup, calls).log.Of(pool.setup.stream).obtained, pool.Returned())
    ensures exists n, k :: ResampledCapture(setup, pool.setup, pool.State(), RunCalls(setup, calls).log.entries[i].window, n, k)
  {
    hide RunCalls, P.Run, P.Initial, ResampledCapture;
    EveryDecodedWindowIsResampledCapture(setup, calls, pool.setup, pool.steps, i);
  }
}
