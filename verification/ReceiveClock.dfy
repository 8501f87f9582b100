/**
 The receive clock monitor: a latch that a chain of consistent samples releases,
 and the gate that decides whether a complete window may be decoded.
 */
module ReceiveClock {
  import opened Numeric
  import opened Audio

  /** Paired UTC and monotonic milliseconds; UTC is never negative. */
  datatype Sample = Sample(utc: i64, monotonic: u64)

  type ClockSample = s: Sample | s.utc >= 0 witness Sample(0, 0)

  datatype Observation = Observation(generation: Generation, sample: ClockSample)

  datatype Config = Config(
    cadence: u64, freshness: u64, maxGap: u64, jumpTolerance: u64, maxDelay: u64, recoverySamples: nat)
  {
    /** The bounds that `ReceiveClockConfig::new` enforces. */
    predicate Valid() {
      && 10 <= cadence <= 10_000
      && cadence <= freshness <= 60_000
      && cadence <= maxGap <= 300_000
      && jumpTolerance <= 5_000
      && maxDelay <= cadence
      && 2 <= recoverySamples <= 10
    }
  }

  datatype Fault =
    | ProcessGenerationChanged
    | TimelineRegressed
    | UtcJump(divergence: int)
    | StaleMapping(age: nat)
    | SamplingDelayed(delay: nat)
    | SampleGap(gap: nat)
    | WindowMisaligned(offset: int)
    | ClockOverflow

  datatype ClockState = Healthy | Unhealthy(fault: Fault, progress: nat, required: nat)

  datatype Monitor = Monitor(
    generation: Generation,
    config: Config,
    state: ClockState,
    lastAccepted: ClockSample,
    recoveryLast: Option<ClockSample>)
  {
    /** A sample is pending exactly while recovery has progressed, and recovery is never complete in an
        unhealthy state. */
    predicate Valid() {
      && config.Valid()
      && match state
         case Healthy => recoveryLast.None?
         case Unhealthy(fault, progress, required) =>
           && required == config.recoverySamples && progress < required
           && (recoveryLast.Some? <==> progress > 0)
           && (fault.ProcessGenerationChanged? ==> progress == 0)
    }
  }

  datatype Snapshot = Snapshot(
    generation: Generation, state: ClockState, lastAccepted: ClockSample,
    observedAt: u64, mappingAge: nat, nextSampleDue: nat)

  datatype Transition =
    | StayedHealthy(snapshot: Snapshot)
    | BecameUnhealthy(snapshot: Snapshot)
    | Recovering(snapshot: Snapshot)
    | Recovered(snapshot: Snapshot)
    | StayedUnhealthy(snapshot: Snapshot)

  datatype Alignment = Alignment(slotStartUtc: int, slotStartMonotonic: u64, mappingAge: nat)

  datatype Gated =
    | WindowReady(window: ReceiveWindow, alignment: Alignment)
    | WindowRejected(slotStartUtc: int, fault: Fault)
    | PassedIncomplete(slot: IncompleteSlot)

  function StartMonitor(initial: Observation, config: Config): Monitor
    requires config.Valid()
  {
    Monitor(initial.generation, config, Healthy, initial.sample, None)
  }

  // ---------------------------------------------------------------------
  // Pure parts
  // ---------------------------------------------------------------------

  function ClampI64(x: int): i64 { if x < I64_MIN then I64_MIN else if x > I64_MAX then I64_MAX else x }

  /** The fault, if any, in moving from one sample to the next. */
  function Compare(config: Config, previous: ClockSample, current: ClockSample): Option<Fault> {
    var utcDelta := current.utc - previous.utc;
    var monotonicDelta := current.monotonic - previous.monotonic;
    if monotonicDelta < 0 then Some(TimelineRegressed)
    else
      var divergence := ClampI64(utcDelta - monotonicDelta);
      if utcDelta < 0 then Some(UtcJump(divergence))
      else if monotonicDelta > config.maxGap then Some(SampleGap(monotonicDelta))
      else if Abs(divergence) > config.jumpTolerance then Some(UtcJump(divergence))
      else None
  }

  function SnapshotOf(m: Monitor, at: u64): Snapshot {
    Snapshot(m.generation, m.state, m.lastAccepted, at, SaturatingSub(at, m.lastAccepted.monotonic),
             Min(m.lastAccepted.monotonic + m.config.cadence, U64_MAX))
  }

  /** Latches staleness when the accepted mapping has outlived its freshness. */
  function Refresh(m: Monitor, at: u64): Monitor {
    var age := SaturatingSub(at, m.lastAccepted.monotonic);
    if age > m.config.freshness && m.state.Healthy?
    then m.(state := Unhealthy(StaleMapping(age), 0, m.config.recoverySamples), recoveryLast := None)
    else m
  }

  function Latch(m: Monitor, fault: Fault, at: u64, pending: Option<ClockSample>): (Monitor, Transition) {
    var t := m.(state := Unhealthy(fault, if pending.Some? then 1 else 0, m.config.recoverySamples),
                recoveryLast := pending);
    (t, if m.state.Healthy? then BecameUnhealthy(SnapshotOf(t, at)) else StayedUnhealthy(SnapshotOf(t, at)))
  }

  function Observe(m: Monitor, o: Observation, at: u64): (Monitor, Transition) {
    if o.generation != m.generation then Latch(m, ProcessGenerationChanged, at, None)
    else if at < o.sample.monotonic then Latch(m, TimelineRegressed, at, None)
    else if at - o.sample.monotonic > m.config.maxDelay then
      Latch(m, SamplingDelayed(at - o.sample.monotonic), at, None)
    else
      match m.state
      case Healthy =>
        var fault := Compare(m.config, m.lastAccepted, o.sample);
        if fault.Some? then Latch(m, fault.value, at, None)
        else
          var t := Refresh(m.(lastAccepted := o.sample), at);
          (t, StayedHealthy(SnapshotOf(t, at)))
      case Unhealthy(fault, progress, required) =>
        if fault.ProcessGenerationChanged? then (m, StayedUnhealthy(SnapshotOf(m, at)))
        else if m.recoveryLast.Some? && Compare(m.config, m.recoveryLast.value, o.sample).Some? then
          Latch(m, Compare(m.config, m.recoveryLast.value, o.sample).value, at, Some(o.sample))
        else if progress + 1 >= required then
          var t := Refresh(m.(state := Healthy, lastAccepted := o.sample, recoveryLast := None), at);
          (t, Recovered(SnapshotOf(t, at)))
        else
          var t := m.(state := Unhealthy(fault, progress + 1, required), recoveryLast := Some(o.sample));
          (t, Recovering(SnapshotOf(t, at)))
  }

  /** Where the accepted mapping puts the start of a slot on the monotonic clock. */
  function Predicted(m: Monitor, slotStartUtc: int): int {
    m.lastAccepted.monotonic + (slotStartUtc - m.lastAccepted.utc)
  }

  function AlignWindow(m: Monitor, w: ReceiveWindow, age: nat): Result<Alignment, Fault> {
    var predicted := Predicted(m, w.slotStartUtc);
    var divergence := w.mapping.monotonic - predicted;
    if !FitsU64(predicted) || !FitsI64(divergence) then Err(ClockOverflow)
    else if Abs(divergence) > m.config.jumpTolerance then Err(WindowMisaligned(divergence))
    else Ok(Alignment(w.slotStartUtc, predicted, age))
  }

  function Gate(m: Monitor, event: TimelineEvent, at: u64): (Monitor, Gated) {
    match event
    case Incomplete(slot) => (m, PassedIncomplete(slot))
    case Window(w) =>
      var m := Refresh(m, at);
      match m.state
      case Unhealthy(fault, _, _) => (m, WindowRejected(w.slotStartUtc, fault))
      case Healthy =>
        var aligned := AlignWindow(m, w, SaturatingSub(at, m.lastAccepted.monotonic));
        if aligned.Ok? then (m, WindowReady(w, aligned.value))
        else (m.(state := Unhealthy(aligned.error, 0, m.config.recoverySamples), recoveryLast := None),
              WindowRejected(w.slotStartUtc, aligned.error))
  }

  // ---------------------------------------------------------------------
  // The monitor object
  // ---------------------------------------------------------------------

  class ReceiveClockMonitor {
    const generation: Generation
    const config: Config
    var state: ClockState
    var lastAccepted: ClockSample
    var recoveryLast: Option<ClockSample>

    ghost function Abs(): Monitor
      reads this
    {
      Monitor(generation, config, state, lastAccepted, recoveryLast)
    }

    constructor (initial: Observation, config: Config)
      requires config.Valid()
      ensures Abs() == StartMonitor(initial, config) && Abs().Valid()
    {
      this.generation := initial.generation;
      this.config := config;
      state := Healthy;
      lastAccepted := initial.sample;
      recoveryLast := None;
    }

    method SnapshotUnchecked(at: u64) returns (s: Snapshot)
      ensures s == SnapshotOf(Abs(), at)
    {
      s := Snapshot(generation, state, lastAccepted, at, SaturatingSub(at, lastAccepted.monotonic),
                    Min(lastAccepted.monotonic + config.cadence, U64_MAX));
    }

    method TakeSnapshot(at: u64) returns (s: Snapshot)
      modifies this
      ensures Abs() == Refresh(old(Abs()), at) && s == SnapshotOf(Abs(), at)
    {
      var age := SaturatingSub(at, lastAccepted.monotonic);
      if age > config.freshness && state.Healthy? {
        state := Unhealthy(StaleMapping(age), 0, config.recoverySamples);
        recoveryLast := None;
      }
      s := SnapshotUnchecked(at);
    }

    method LatchFault(fault: Fault, at: u64, pending: Option<ClockSample>) returns (t: Transition)
      modifies this
      ensures (Abs(), t) == Latch(old(Abs()), fault, at, pending)
    {
      var wasHealthy := state.Healthy?;
      state := Unhealthy(fault, if pending.Some? then 1 else 0, config.recoverySamples);
      recoveryLast := pending;
      var s := SnapshotUnchecked(at);
      t := if wasHealthy then BecameUnhealthy(s) else StayedUnhealthy(s);
    }

    method ObserveSample(o: Observation, at: u64) returns (t: Transition)
      requires Abs().Valid()
      modifies this
      ensures (Abs(), t) == Observe(old(Abs()), o, at)
      ensures Abs().Valid()
    {
      ObserveValid(Abs(), o, at);
      if o.generation != generation {
        t := LatchFault(ProcessGenerationChanged, at, None);
        return;
      }
      if at < o.sample.monotonic {
        t := LatchFault(TimelineRegressed, at, None);
        return;
      }
      var delay := at - o.sample.monotonic;
      if delay > config.maxDelay {
        t := LatchFault(SamplingDelayed(delay), at, None);
        return;
      }
      match state {
        case Healthy =>
          var fault := Compare(config, lastAccepted, o.sample);
          if fault.Some? {
            t := LatchFault(fault.value, at, None);
            return;
          }
          lastAccepted := o.sample;
          var s := TakeSnapshot(at);
          t := StayedHealthy(s);
        case Unhealthy(fault, progress, required) =>
          if fault.ProcessGenerationChanged? {
            var s := TakeSnapshot(at);
            return StayedUnhealthy(s);
          }
          if recoveryLast.Some? {
            var next := Compare(config, recoveryLast.value, o.sample);
            if next.Some? {
              t := LatchFault(next.value, at, Some(o.sample));
              return;
            }
          }
          recoveryLast := Some(o.sample);
          if progress + 1 >= required {
            lastAccepted := o.sample;
            recoveryLast := None;
            state := Healthy;
            var s := TakeSnapshot(at);
            t := Recovered(s);
          } else {
            state := Unhealthy(fault, progress + 1, required);
            var s := TakeSnapshot(at);
            t := Recovering(s);
          }
      }
    }

    method GateEvent(event: TimelineEvent, at: u64) returns (g: Gated)
      modifies this
      ensures (Abs(), g) == Gate(old(Abs()), event, at)
    {
      match event {
        case Incomplete(slot) =>
          g := PassedIncomplete(slot);
        case Window(w) =>
          var s := TakeSnapshot(at);
          if s.state.Unhealthy? {
            return WindowRejected(w.slotStartUtc, s.state.fault);
          }
          var aligned := AlignWindow(Monitor(generation, config, state, lastAccepted, recoveryLast), w, s.mappingAge);
          if aligned.Ok? {
            g := WindowReady(w, aligned.value);
          } else {
            state := Unhealthy(aligned.error, 0, config.recoverySamples);
            recoveryLast := None;
            g := WindowRejected(w.slotStartUtc, aligned.error);
          }
      }
    }
  }

  // ---------------------------------------------------------------------
  // One step
  // ---------------------------------------------------------------------

  lemma ObserveValid(m: Monitor, o: Observation, at: u64)
    requires m.Valid()
    ensures Observe(m, o, at).0.Valid()
  {
  }

  /** A transition that reports health carries a healthy snapshot: the sample just accepted is at most
      one sampling delay old, which never exceeds the freshness bound. */
  lemma HealthyTransition(m: Monitor, o: Observation, at: u64)
    requires m.Valid()
    ensures var (t, r) := Observe(m, o, at);
            && (r.StayedHealthy? || r.Recovered? <==> t.state.Healthy?)
            && r.snapshot.state == t.state
            && (t.state.Healthy? ==> t.lastAccepted == o.sample && o.generation == m.generation
                                     && r.snapshot.mappingAge <= m.config.freshness)
  {
  }

  // ---------------------------------------------------------------------
  // Whole runs
  // ---------------------------------------------------------------------

  datatype Op =
    | ObserveOp(observation: Observation, at: u64)
    | SnapshotOp(at: u64)
    | GateOp(event: TimelineEvent, at: u64)

  function Apply(m: Monitor, op: Op): Monitor {
    match op
    case ObserveOp(o, at) => Observe(m, o, at).0
    case SnapshotOp(at) => Refresh(m, at)
    case GateOp(e, at) => Gate(m, e, at).0
  }

  function RunOps(m: Monitor, ops: seq<Op>): Monitor {
    if ops == [] then m else Apply(RunOps(m, ops[..|ops| - 1]), ops[|ops| - 1])
  }

  /** The observations of a run, without the snapshots and gate decisions between them. */
  function Observations(ops: seq<Op>): (r: seq<Op>)
    ensures forall op | op in r :: op.ObserveOp?
  {
    if ops == [] then []
    else Observations(ops[..|ops| - 1]) + if ops[|ops| - 1].ObserveOp? then [ops[|ops| - 1]] else []
  }

  /** Same generation, not from the future and not late. */
  predicate OnTime(generation: Generation, config: Config, op: Op) {
    && op.ObserveOp? && op.observation.generation == generation
    && op.observation.sample.monotonic <= op.at <= op.observation.sample.monotonic + config.maxDelay
  }

  /** The second sample is not before the first on either clock, follows it within the gap, and both clocks have
      advanced by the same time to within the tolerance. */
  predicate Consistent(config: Config, p: ClockSample, c: ClockSample) {
    && p.monotonic <= c.monotonic <= p.monotonic + config.maxGap
    && p.utc <= c.utc
    && Abs((c.utc - p.utc) - (c.monotonic - p.monotonic)) <= config.jumpTolerance
  }

  /** Two samples compare without a fault exactly when they are consistent; otherwise the fault is that of the
      first failed condition, with its measure. */
  lemma CompareVerdict(config: Config, p: ClockSample, c: ClockSample)
    requires config.Valid()
    ensures var (fault, gap) := (Compare(config, p, c), c.monotonic - p.monotonic);
            var divergence := (c.utc - p.utc) - gap;
            && (fault.None? <==> Consistent(config, p, c))
            && (fault == Some(TimelineRegressed) <==> gap < 0)
            && (fault.Some? && fault.value.SampleGap? <==> gap > config.maxGap && p.utc <= c.utc)
            && (fault.Some? && fault.value.SampleGap? ==> fault.value.gap == gap)
            && (fault.Some? && fault.value.UtcJump? <==>
                  gap >= 0 && (c.utc < p.utc || (gap <= config.maxGap && Abs(divergence) > config.jumpTolerance)))
            && (fault.Some? && fault.value.UtcJump? ==>
                  fault.value.divergence == if divergence < I64_MIN then I64_MIN else divergence)
            && (fault.Some? ==> fault.value.TimelineRegressed? || fault.value.SampleGap? || fault.value.UtcJump?)
  {
  }

  /** On-time samples, each consistent with the one before it. */
  ghost predicate Chain(generation: Generation, config: Config, ops: seq<Op>) {
    && (forall i | 0 <= i < |ops| :: OnTime(generation, config, ops[i]))
    && (forall i, j | 0 <= i && j == i + 1 && j < |ops| ::
          Consistent(config, ops[i].observation.sample, ops[j].observation.sample))
  }

  /** The accepted mapping has outlived its freshness. */
  predicate Stale(m: Monitor, at: u64) { at > m.lastAccepted.monotonic + m.config.freshness }

  /** Where the accepted mapping puts the slot on the monotonic clock is representable, and within the tolerance of
      where the capture puts it. */
  predicate AgreesWith(m: Monitor, w: ReceiveWindow) {
    var predicted := m.lastAccepted.monotonic + (w.slotStartUtc - m.lastAccepted.utc);
    0 <= predicted <= U64_MAX && Abs(w.mapping.monotonic - predicted) <= m.config.jumpTolerance
  }

  /** Whether an operation latches a fault, and if so the sample it keeps pending. */
  function Latched(m: Monitor, op: Op): Option<Option<ClockSample>> {
    match op
    case SnapshotOp(at) => if m.state.Healthy? && Stale(m, at) then Some(None) else None
    case GateOp(e, at) =>
      if m.state.Healthy? && e.Window? && (Stale(m, at) || !AgreesWith(m, e.window)) then Some(None) else None
    case ObserveOp(o, at) =>
      if !OnTime(m.generation, m.config, op) then Some(None)
      else
        match m.state
        case Healthy => if !Consistent(m.config, m.lastAccepted, o.sample) then Some(None) else None
        case Unhealthy(fault, _, _) =>
          if !fault.ProcessGenerationChanged? && m.recoveryLast.Some?
             && !Consistent(m.config, m.recoveryLast.value, o.sample)
          then Some(Some(o.sample)) else None
  }

  /** A latch makes the monitor unhealthy and its count start over.  Without one, a healthy monitor stays
      healthy, and an unhealthy one keeps its fault and counts each observation, unless the generation
      changed, or recovers. */
  lemma LatchedMeans(m: Monitor, op: Op)
    requires m.Valid()
    ensures var (t, latched) := (Apply(m, op), Latched(m, op));
            && t.Valid() && t.generation == m.generation && t.config == m.config
            && (latched.None? && !op.ObserveOp? ==> t == m)
            && (latched.Some? ==>
                  && t.state.Unhealthy? && t.recoveryLast == latched.value
                  && t.state.progress == if latched.value.Some? then 1 else 0)
            && (latched.None? && m.state.Healthy? ==> t.state.Healthy?)
            && (latched.None? && t.state.Unhealthy? ==>
                  && m.state.Unhealthy? && t.state.fault == m.state.fault
                  && if op.ObserveOp? && !m.state.fault.ProcessGenerationChanged?
                     then t.state.progress == m.state.progress + 1 && t.recoveryLast == Some(op.observation.sample)
                     else t == m)
  {
    match op {
      case ObserveOp(o, at) =>
        LatchedObserve(m, o, at);
        hide Observe, Latched;
      case SnapshotOp(at) => hide Gate, Observe;
      case GateOp(e, at) => hide Observe;
    }
  }

  lemma LatchedObserve(m: Monitor, o: Observation, at: u64)
    requires m.Valid()
    ensures var (t, latched) := (Observe(m, o, at).0, Latched(m, ObserveOp(o, at)));
            && t.Valid() && t.generation == m.generation && t.config == m.config
            && (latched.Some? ==>
                  && t.state.Unhealthy? && t.recoveryLast == latched.value
                  && t.state.progress == if latched.value.Some? then 1 else 0)
            && (latched.None? && m.state.Healthy? ==> t.state.Healthy?)
            && (latched.None? && t.state.Unhealthy? ==>
                  && m.state.Unhealthy? && t.state.fault == m.state.fault
                  && if !m.state.fault.ProcessGenerationChanged?
                     then t.state.progress == m.state.progress + 1 && t.recoveryLast == Some(o.sample)
                     else t == m)
  {
    CompareVerdict(m.config, m.lastAccepted, o.sample);
    if m.recoveryLast.Some? {
      CompareVerdict(m.config, m.recoveryLast.value, o.sample);
    }
    hide Compare, Consistent, SnapshotOf;
  }

  /** What an observation reports: the fault it latches, with its measure, the kind of transition and a snapshot of
      the monitor it leaves.  Only health accepts the sample. */
  lemma ObserveVerdict(m: Monitor, o: Observation, at: u64)
    requires m.Valid()
    ensures var ((t, r), latched) := (Observe(m, o, at), Latched(m, ObserveOp(o, at)));
            && (latched.Some? ==>
                  if o.generation != m.generation then t.state.fault == ProcessGenerationChanged
                  else if at < o.sample.monotonic then t.state.fault == TimelineRegressed
                  else if at > o.sample.monotonic + m.config.maxDelay then
                    t.state.fault == SamplingDelayed(at - o.sample.monotonic)
                  else
                    var before := if m.state.Healthy? then m.lastAccepted else m.recoveryLast.value;
                    Compare(m.config, before, o.sample) == Some(t.state.fault))
            && (r.StayedHealthy? <==> m.state.Healthy? && t.state.Healthy?)
            && (r.BecameUnhealthy? <==> m.state.Healthy? && t.state.Unhealthy?)
            && (r.Recovered? <==> m.state.Unhealthy? && t.state.Healthy?)
            && (r.Recovering? <==> m.state.Unhealthy? && t.state.Unhealthy? && latched.None? && t != m)
            && r.snapshot == Snapshot(t.generation, t.state, t.lastAccepted, at, Max(at - t.lastAccepted.monotonic, 0),
                                      Min(t.lastAccepted.monotonic + m.config.cadence, U64_MAX))
            && t.lastAccepted == (if t.state.Healthy? then o.sample else m.lastAccepted)
  {
    CompareVerdict(m.config, m.lastAccepted, o.sample);
    if m.recoveryLast.Some? {
      CompareVerdict(m.config, m.recoveryLast.value, o.sample);
    }
    hide Compare, Consistent;
  }

  /** A snapshot latches exactly the staleness of a healthy mapping, with its age. */
  lemma SnapshotVerdict(m: Monitor, at: u64)
    ensures Refresh(m, at)
         == if m.state.Healthy? && Stale(m, at)
            then m.(state := Unhealthy(StaleMapping(at - m.lastAccepted.monotonic), 0, m.config.recoverySamples),
                    recoveryLast := None)
            else m
  {
  }

  /** A window is ready exactly for a healthy, fresh monitor that agrees with its capture mapping; otherwise it is
      refused with the fault, which is latched. */
  lemma GateVerdict(m: Monitor, w: ReceiveWindow, at: u64)
    requires m.Valid()
    ensures var (t, g) := Gate(m, Window(w), at);
            var predicted := m.lastAccepted.monotonic + (w.slotStartUtc - m.lastAccepted.utc);
            && (g.WindowReady? <==> m.state.Healthy? && !Stale(m, at) && AgreesWith(m, w))
            && (g.WindowReady? ==>
                  && t == m && g.window == w
                  && g.alignment == Alignment(w.slotStartUtc, predicted, Max(at - m.lastAccepted.monotonic, 0)))
            && (!g.WindowReady? ==>
                  && g.WindowRejected? && g.slotStartUtc == w.slotStartUtc
                  && t == m.(state := t.state, recoveryLast := t.recoveryLast)
                  && (m.state.Unhealthy? ==> t == m)
                  && (m.state.Healthy? ==> t.state == Unhealthy(g.fault, 0, m.config.recoverySamples) && t.recoveryLast.None?)
                  && g.fault == (if m.state.Unhealthy? then m.state.fault
                                 else if Stale(m, at) then StaleMapping(at - m.lastAccepted.monotonic)
                                 else if FitsU64(predicted) && FitsI64(w.mapping.monotonic - predicted)
                                      then WindowMisaligned(w.mapping.monotonic - predicted)
                                 else ClockOverflow))
    ensures forall slot :: Gate(m, Incomplete(slot), at) == (m, PassedIncomplete(slot))
  {
  }

  // ---------------------------------------------------------------------
  // The accepted samples of a healthy monitor
  // ---------------------------------------------------------------------

  /** The samples accepted since the monitor was last made healthy. */
  function Accepted(m: Monitor, ops: seq<Op>): seq<ClockSample> {
    if ops == [] then [m.lastAccepted]
    else
      var (before, op) := (ops[..|ops| - 1], ops[|ops| - 1]);
      if RunOps(m, ops).state.Unhealthy? || !op.ObserveOp? then Accepted(m, before)
      else if RunOps(m, before).state.Unhealthy? then [op.observation.sample]
      else Accepted(m, before) + [op.observation.sample]
  }

  ghost predicate AllConsistent(config: Config, samples: seq<ClockSample>) {
    forall i, j | 0 <= i && j == i + 1 && j < |samples| :: Consistent(config, samples[i], samples[j])
  }

  /** In every run of a healthy monitor the newest accepted sample is the mapping it uses, and each sample accepted
      since health was last restored is consistent with the one before. */
  lemma {:induction false} AcceptedConsistent(initial: Observation, config: Config, ops: seq<Op>)
    requires config.Valid()
    ensures var (start, m) := (StartMonitor(initial, config), RunOps(StartMonitor(initial, config), ops));
            var accepted := Accepted(start, ops);
            && AllConsistent(config, accepted)
            && accepted != [] && m.lastAccepted == accepted[|accepted| - 1]
  {
    if ops != [] {
      hide StartMonitor, CountsSinceLatch, Apply, Consistent, AllConsistent, Monitor.Valid;
      var (before, op) := (ops[..|ops| - 1], ops[|ops| - 1]);
      var start := StartMonitor(initial, config);
      MonitorInvariant(initial, config, before);
      AcceptedConsistent(initial, config, before);
      AcceptedStep(RunOps(start, before), op);
      if op.ObserveOp? {
        ConsistentSnoc(config, Accepted(start, before), op.observation.sample);
      }
    }
  }

  lemma ConsistentSnoc(config: Config, samples: seq<ClockSample>, s: ClockSample)
    requires AllConsistent(config, samples) && samples != []
    ensures AllConsistent(config, [s])
    ensures Consistent(config, samples[|samples| - 1], s) ==> AllConsistent(config, samples + [s])
  {
    hide Consistent;
  }

  /** One operation: the mapping changes only to the sample of an observation that leaves health, and from health
      only to a consistent one. */
  lemma AcceptedStep(m: Monitor, op: Op)
    requires m.Valid()
    ensures var t := Apply(m, op);
            && (t.state.Unhealthy? || !op.ObserveOp? ==> t.lastAccepted == m.lastAccepted)
            && (t.state.Healthy? && op.ObserveOp? ==>
                  && t.lastAccepted == op.observation.sample
                  && (m.state.Healthy? ==> Consistent(m.config, m.lastAccepted, op.observation.sample)))
  {
    if op.ObserveOp? {
      CompareVerdict(m.config, m.lastAccepted, op.observation.sample);
      hide Consistent;
    }
  }

  /** Index of the last latching operation of a run. */
  function LastLatch(m: Monitor, ops: seq<Op>): Option<nat> {
    if ops == [] then None
    else
      var n := |ops| - 1;
      if Latched(RunOps(m, ops[..n]), ops[n]).Some? then Some(n) else LastLatch(m, ops[..n])
  }

  predicate LatchesAt(m: Monitor, ops: seq<Op>, i: nat)
    requires i < |ops|
  {
    Latched(RunOps(m, ops[..i]), ops[i]).Some?
  }

  predicate UnhealthyAt(m: Monitor, ops: seq<Op>, i: nat)
    requires i <= |ops|
  {
    RunOps(m, ops[..i]).state.Unhealthy?
  }

  /** The observations since the latch at `l`, with the latching one where it was kept pending. */
  function Counted(m: Monitor, ops: seq<Op>, l: nat): seq<Op>
    requires l < |ops|
  {
    var latched := Latched(RunOps(m, ops[..l]), ops[l]);
    (if latched.Some? && latched.value.Some? then [ops[l]] else []) + Observations(ops[l + 1..])
  }

  /** From the latch at `l` on the monitor was unhealthy after every operation, and none latched again. */
  ghost predicate UnbrokenSince(m: Monitor, ops: seq<Op>, l: nat) {
    && l < |ops| && LatchesAt(m, ops, l)
    && (forall i | l < i < |ops| :: !LatchesAt(m, ops, i))
    && (forall i | l < i <= |ops| :: UnhealthyAt(m, ops, i))
  }

  /** Progress counts exactly the given observations, they form a chain and the last is pending; after a
      change of generation nothing is counted. */
  ghost predicate CountMatches(m: Monitor, counted: seq<Op>)
    requires m.state.Unhealthy?
  {
    if m.state.fault.ProcessGenerationChanged? then m.state.progress == 0
    else
      && m.state.progress == |counted| && Chain(m.generation, m.config, counted)
      && (counted != [] ==>
            counted[|counted| - 1].ObserveOp?
            && m.recoveryLast == Some(counted[|counted| - 1].observation.sample))
  }

  /** Progress counts exactly the observations since the last latch. */
  ghost predicate CountsSinceLatch(start: Monitor, ops: seq<Op>) {
    var m := RunOps(start, ops);
    m.state.Unhealthy? ==>
      && LastLatch(start, ops).Some?
      && var l := LastLatch(start, ops).value;
         UnbrokenSince(start, ops, l) && CountMatches(m, Counted(start, ops, l))
  }

  lemma MatchGrows(m: Monitor, counted: seq<Op>, op: Op)
    requires m.Valid() && m.state.Unhealthy? && CountMatches(m, counted)
    requires Latched(m, op).None? && Apply(m, op).state.Unhealthy?
    ensures CountMatches(Apply(m, op), counted + if op.ObserveOp? then [op] else [])
  {
    LatchedMeans(m, op);
    NoNewLatch(m, op);
    hide Apply, Latched, OnTime, Consistent, Chain, Monitor.Valid;
    assert counted + [] == counted;
    if op.ObserveOp? && !m.state.fault.ProcessGenerationChanged? {
      ChainGrows(m.generation, m.config, counted, op);
    }
  }

  /** What holds of an index in a prefix holds of it in the whole run. */
  lemma SamePrefix(m: Monitor, ops: seq<Op>, i: nat)
    requires ops != [] && i < |ops|
    ensures UnhealthyAt(m, ops, i) == UnhealthyAt(m, ops[..|ops| - 1], i)
    ensures i < |ops| - 1 ==> LatchesAt(m, ops, i) == LatchesAt(m, ops[..|ops| - 1], i)
  {
    hide Latched;
    assert ops[..|ops| - 1][..i] == ops[..i];
  }

  lemma CountedGrows(m: Monitor, ops: seq<Op>, l: nat)
    requires l < |ops| - 1
    ensures Counted(m, ops, l)
         == Counted(m, ops[..|ops| - 1], l) + if ops[|ops| - 1].ObserveOp? then [ops[|ops| - 1]] else []
  {
    hide Latched;
    var (n, before) := (|ops| - 1, ops[..|ops| - 1]);
    assert before[..l] == ops[..l];
    assert ops[l + 1..][..n - l - 1] == before[l + 1..];
  }

  lemma ChainGrows(generation: Generation, config: Config, chain: seq<Op>, op: Op)
    requires Chain(generation, config, chain) && OnTime(generation, config, op)
    requires chain != [] ==> Consistent(config, chain[|chain| - 1].observation.sample, op.observation.sample)
    ensures Chain(generation, config, chain + [op])
  {
    hide Consistent, OnTime;
  }

  lemma UnbrokenGrows(m: Monitor, ops: seq<Op>, l: nat)
    requires ops != [] && UnbrokenSince(m, ops[..|ops| - 1], l)
    requires !LatchesAt(m, ops, |ops| - 1) && UnhealthyAt(m, ops, |ops|)
    ensures UnbrokenSince(m, ops, l)
  {
    hide LatchesAt, UnhealthyAt;
    SamePrefix(m, ops, l);
    forall i | l < i < |ops|
      ensures !LatchesAt(m, ops, i) && UnhealthyAt(m, ops, i)
    {
      SamePrefix(m, ops, i);
    }
  }

  lemma FreshLatch(m: Monitor, ops: seq<Op>)
    requires ops != [] && RunOps(m, ops[..|ops| - 1]).Valid() && LatchesAt(m, ops, |ops| - 1)
    ensures CountsSinceLatch(m, ops)
  {
    var (n, before) := (|ops| - 1, RunOps(m, ops[..|ops| - 1]));
    LatchedMeans(before, ops[n]);
    assert ops[n + 1..] == [] && ops[..|ops|] == ops;
    hide Apply;
  }

  /** One more operation without a latch. */
  lemma CountStep(m: Monitor, ops: seq<Op>)
    requires ops != [] && RunOps(m, ops[..|ops| - 1]).Valid() && !LatchesAt(m, ops, |ops| - 1)
    requires CountsSinceLatch(m, ops[..|ops| - 1])
    ensures CountsSinceLatch(m, ops)
  {
    var (n, op) := (|ops| - 1, ops[|ops| - 1]);
    var before := RunOps(m, ops[..n]);
    LatchedMeans(before, op);
    assert ops[..|ops|] == ops;
    hide Apply, UnbrokenSince, Counted, Monitor.Valid, Latched, CountMatches;
    if RunOps(m, ops).state.Unhealthy? {
      var l := LastLatch(m, ops).value;
      UnbrokenGrows(m, ops, l);
      UnbrokenInside(m, ops[..n], l);
      CountedGrows(m, ops, l);
      MatchGrows(before, Counted(m, ops[..n], l), op);
    }
  }

  /** An observation that does not latch is on time and consistent with a pending one. */
  lemma NoNewLatch(m: Monitor, op: Op)
    ensures Latched(m, op).None? && op.ObserveOp? && m.state.Unhealthy? && !m.state.fault.ProcessGenerationChanged? ==>
              && OnTime(m.generation, m.config, op)
              && (m.recoveryLast.Some? ==> Consistent(m.config, m.recoveryLast.value, op.observation.sample))
  {
  }

  lemma UnbrokenInside(m: Monitor, ops: seq<Op>, l: nat)
    requires UnbrokenSince(m, ops, l)
    ensures l < |ops|
  {
  }

  /** The monitor's own invariant and the meaning of its progress counter, in every run. */
  lemma {:induction false} MonitorInvariant(initial: Observation, config: Config, ops: seq<Op>)
    requires config.Valid()
    ensures var m := RunOps(StartMonitor(initial, config), ops);
            && m.Valid() && m.generation == initial.generation && m.config == config
            && CountsSinceLatch(StartMonitor(initial, config), ops)
  {
    if ops != [] {
      var (n, start) := (|ops| - 1, StartMonitor(initial, config));
      MonitorInvariant(initial, config, ops[..n]);
      hide Apply, Monitor.Valid, CountsSinceLatch, StartMonitor, LatchesAt;
      LatchedMeans(RunOps(start, ops[..n]), ops[n]);
      if LatchesAt(start, ops, n) { FreshLatch(start, ops); } else { CountStep(start, ops); }
    }
  }

  /** Health returns only with the required number of observations since the last latch, counting the
      latching one where it was kept pending: all of them on time, of the monitor's generation and
      pairwise consistent.  From that latch on the monitor was unhealthy throughout and latched nothing. */
  lemma RecoveredOnlyAfterChain(initial: Observation, config: Config, ops: seq<Op>, o: Observation, at: u64)
    requires config.Valid()
    requires Observe(RunOps(StartMonitor(initial, config), ops), o, at).1.Recovered?
    ensures var start := StartMonitor(initial, config);
            && LastLatch(start, ops).Some?
            && var l := LastLatch(start, ops).value;
               && UnbrokenSince(start, ops, l) && Latched(RunOps(start, ops), ObserveOp(o, at)).None?
               && var chain := Counted(start, ops, l) + [ObserveOp(o, at)];
                  |chain| == config.recoverySamples && Chain(initial.generation, config, chain)
  {
    MonitorInvariant(initial, config, ops);
    var start := StartMonitor(initial, config);
    var m := RunOps(start, ops);
    RecoveredFrom(m, o, at);
    hide RunOps, StartMonitor, Observe, UnbrokenSince, Chain, Consistent, OnTime;
    var l := LastLatch(start, ops).value;
    UnbrokenInside(start, ops, l);
    ChainGrows(m.generation, m.config, Counted(start, ops, l), ObserveOp(o, at));
  }

  lemma RecoveredFrom(m: Monitor, o: Observation, at: u64)
    requires m.Valid() && Observe(m, o, at).1.Recovered?
    ensures m.state.Unhealthy? && !m.state.fault.ProcessGenerationChanged?
    ensures m.state.progress + 1 == m.config.recoverySamples && OnTime(m.generation, m.config, ObserveOp(o, at))
    ensures m.recoveryLast.Some? ==> Consistent(m.config, m.recoveryLast.value, o.sample)
    ensures Latched(m, ObserveOp(o, at)).None?
  {
    if m.recoveryLast.Some? {
      CompareVerdict(m.config, m.recoveryLast.value, o.sample);
    }
    hide Compare, Consistent;
  }

  /** The monitor holds the last sample of a chain of `n`: accepted if healthy, pending otherwise. */
  predicate Holds(m: Monitor, n: nat, last: ClockSample) {
    match m.state
    case Healthy => m.lastAccepted == last
    case Unhealthy(fault, progress, _) =>
      !fault.ProcessGenerationChanged? && n <= progress && m.recoveryLast == Some(last)
  }

  lemma ChainStep(m: Monitor, n: nat, last: ClockSample, op: Op)
    requires m.Valid() && OnTime(m.generation, m.config, op)
    requires if n == 0 then m.state.Unhealthy? && !m.state.fault.ProcessGenerationChanged?
             else Holds(m, n, last) && Consistent(m.config, last, op.observation.sample)
    ensures var t := Apply(m, op);
            t.Valid() && t.generation == m.generation && t.config == m.config && Holds(t, n + 1, op.observation.sample)
  {
    CompareVerdict(m.config, m.lastAccepted, op.observation.sample);
    if m.recoveryLast.Some? {
      CompareVerdict(m.config, m.recoveryLast.value, op.observation.sample);
    }
    hide Compare, Consistent;
  }

  /** Conversely, a chain of that length always restores health, from any unhealthy state whose fault is
      not a change of process generation and whatever recovery had already begun. */
  lemma {:induction false} ChainRecovers(m: Monitor, chain: seq<Op>)
    requires m.Valid() && m.state.Unhealthy? && !m.state.fault.ProcessGenerationChanged?
    requires Chain(m.generation, m.config, chain)
    ensures var t := RunOps(m, chain);
            && t.Valid() && t.generation == m.generation && t.config == m.config
            && (chain != [] ==> Holds(t, |chain|, chain[|chain| - 1].observation.sample))
            && (|chain| >= m.config.recoverySamples ==> t.state.Healthy?)
  {
    if chain != [] {
      hide Apply;
      var n := |chain| - 1;
      var before := chain[..n];
      ChainRecovers(m, before);
      assert OnTime(m.generation, m.config, chain[n]);
      if n > 0 {
        assert before[n - 1] == chain[n - 1];
        assert Consistent(m.config, chain[n - 1].observation.sample, chain[n].observation.sample);
      }
      ChainStep(RunOps(m, before), n, if n > 0 then chain[n - 1].observation.sample else Sample(0, 0), chain[n]);
    }
  }

  /** A change of generation is not permanent: an observation of the right generation replaces that
      fault exactly when it is from the future or late. */
  lemma GenerationFaultReplaced(m: Monitor, o: Observation, at: u64)
    requires m.Valid() && m.state.Unhealthy? && m.state.fault.ProcessGenerationChanged?
    requires o.generation == m.generation
    ensures var t := Observe(m, o, at).0;
            t.state.Unhealthy? &&
            (!t.state.fault.ProcessGenerationChanged? <==> !OnTime(m.generation, m.config, ObserveOp(o, at)))
  {
  }

  // ---------------------------------------------------------------------
  // The gate
  // ---------------------------------------------------------------------

  /** A window passes only a healthy, fresh monitor, and only if the capture's own UTC/monotonic offset
      agrees with the accepted clock offset to within the tolerance. */
  lemma GateSafety(m: Monitor, w: ReceiveWindow, at: u64)
    requires m.Valid() && w.mapping.utc == w.slotStartUtc
    ensures var (t, g) := Gate(m, Window(w), at);
            && (g.WindowReady? ==>
                  && m.state.Healthy? && t == m && g.window == w
                  && SaturatingSub(at, m.lastAccepted.monotonic) <= m.config.freshness
                  && Abs((w.mapping.monotonic - w.mapping.utc) - (m.lastAccepted.monotonic - m.lastAccepted.utc))
                     <= m.config.jumpTolerance)
            && (g.WindowRejected? ==> t.state.Unhealthy? && t.state.fault == g.fault)
            && t.Valid()
  {
  }

  /** Where both predicted instants are representable, the verdict depends on the capture offset and not
      on the slot. */
  lemma GateIgnoresSlot(m: Monitor, w: ReceiveWindow, v: ReceiveWindow, at: u64)
    requires w.mapping.utc == w.slotStartUtc && v.mapping.utc == v.slotStartUtc
    requires w.mapping.monotonic - w.mapping.utc == v.mapping.monotonic - v.mapping.utc
    requires FitsU64(Predicted(m, w.slotStartUtc)) && FitsU64(Predicted(m, v.slotStartUtc))
    ensures Gate(m, Window(w), at).1.WindowReady? <==> Gate(m, Window(v), at).1.WindowReady?
    ensures Gate(m, Window(w), at).0 == Gate(m, Window(v), at).0
  {
  }
}
