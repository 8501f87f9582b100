/**
 The receive timeline: which batches are accepted, and what a rejected batch
 does to the slot under assembly.
 */
module Timeline {
  import opened Numeric
  import opened Audio
  import opened Resampling
  import opened StreamingResampler

  const MAX_LATENESS_MILLIS: int := 2_000
  const MAX_JITTER_MILLIS: int := 50
  const MAX_REMAP_MILLIS: int := 20
  const MAX_DRIFT_PPM: int := 5_000

  datatype Health = Health(
    maxJitterMillis: u32, driftPpm: int, incompleteSlots: u64, lateBatches: u64)

  /** Between two anchors there is no stage; an anchor and its run live and die together. */
  datatype Stage = Unanchored | Anchored(anchor: TimeEvidence, run: Run)

  datatype State = State(
    processGeneration: Generation,
    streamGeneration: Generation,
    configuration: InputConfiguration,
    expected: Option<u64>,
    lastPosition: Option<u64>,
    lastMonotonic: Option<u64>,
    stage: Stage,
    health: Health)
  {
    function ContextOf(anchor: TimeEvidence): Context {
      Context(anchor, configuration.rate, processGeneration, streamGeneration)
    }

    /** A live run continues at the expected position. */
    ghost predicate Valid() {
      stage.Anchored? && stage.run.Feeding? ==>
        && stage.run.frames != []
        && expected == Some(stage.anchor.position + |stage.run.frames|)
        && AllMapped(ContextOf(stage.anchor), TickCount(|stage.run.frames|, configuration.rate))
    }
  }

  function Initial(process: Generation, stream: Generation, configuration: InputConfiguration): State {
    State(process, stream, configuration, None, None, None, Unanchored, Health(0, 0, 0, 0))
  }

  // ---------------------------------------------------------------------
  // Checks
  // ---------------------------------------------------------------------

  function IdentityError(
    process: Generation, stream: Generation, configuration: InputConfiguration, b: CaptureBatch)
    : Option<TimelineError>
  {
    if b.processGeneration != process then Some(ProcessGenerationChanged)
    else if b.streamGeneration != stream then Some(StreamGenerationChanged)
    else if b.configuration != configuration then Some(ConfigurationChanged)
    else None
  }

  function PositionError(expected: Option<u64>, lastPosition: Option<u64>, b: CaptureBatch): Option<TimelineError> {
    if expected.None? || b.first.position == expected.value then None
    else if b.first.position < expected.value then
      if lastPosition.Some? && b.first.position < lastPosition.value then Some(OutOfOrder)
      else Some(Overlap(expected.value - b.first.position))
    else Some(Gap(b.first.position - expected.value))
  }

  /** A stream restart is expected only before the first batch. */
  predicate Discontinuous(expected: Option<u64>, b: CaptureBatch) {
    b.discontinuity.Some? && !(expected.None? && b.discontinuity.value.kind == StreamRestart)
  }

  /** Whole milliseconds that `frames` source frames last. */
  function FrameMillis(frames: nat, rate: Rate): nat { Quotient(frames * 1_000, rate) }

  /** How far the UTC-minus-monotonic offset has moved between two observations. */
  function Remap(anchor: TimeEvidence, e: TimeEvidence): int {
    (e.utc - e.monotonic) - (anchor.utc - anchor.monotonic)
  }

  /** Estimated source-rate error over `elapsed` milliseconds. */
  function DriftPpm(error: int, elapsed: nat): int
    requires elapsed > 0
  {
    TruncDiv(error * 1_000_000, elapsed)
  }

  /** Timing checks of one batch against the anchor, with the health they leave. */
  function MappingCheck(
    rate: Rate, lastMonotonic: Option<u64>, h: Health, anchor: TimeEvidence, e: TimeEvidence)
    : (Health, Option<TimelineError>)
  {
    if lastMonotonic.Some? && e.monotonic < lastMonotonic.value then (h, Some(MonotonicRegression))
    else if e.monotonic < anchor.monotonic then (h, Some(MonotonicRegression))
    else if e.position < anchor.position then (h, Some(OutOfOrder))
    else if !FitsU64((e.position - anchor.position) * 1_000) then (h, Some(ArithmeticOverflow))
    else
      var elapsed := FrameMillis(e.position - anchor.position, rate);
      var jitter := e.monotonic - anchor.monotonic - elapsed;
      if !FitsI64(jitter) then (h, Some(ArithmeticOverflow))
      else
        var h := h.(maxJitterMillis := Max(h.maxJitterMillis, Min(Abs(jitter), U32_MAX)));
        if Abs(jitter) > MAX_JITTER_MILLIS then (h, Some(ExcessiveJitter(jitter)))
        else if !FitsI64(Remap(anchor, e)) then (h, Some(ArithmeticOverflow))
        else if Abs(Remap(anchor, e)) > MAX_REMAP_MILLIS then (h, Some(ClockRemappedError(Remap(anchor, e))))
        else if elapsed < 1_000 then (h, None)
        else
          var ppm := DriftPpm(jitter, elapsed);
          (h.(driftPpm := ppm), if Abs(ppm) > MAX_DRIFT_PPM then Some(ExcessiveDrift(ppm)) else None)
  }

  // ---------------------------------------------------------------------
  // State changes
  // ---------------------------------------------------------------------

  /** Records the batch as the latest seen; `false` when its end position leaves `u64`. */
  function Advance(s: State, b: CaptureBatch): (State, bool) {
    var s := s.(lastPosition := Some(b.first.position), lastMonotonic := Some(b.first.monotonic));
    if b.EndPosition().Some? then (s.(expected := b.EndPosition()), true) else (s, false)
  }

  /** A slot under assembly with at least one sample. */
  predicate HasPartialSlot(s: State) {
    s.stage.Anchored? &&
    match s.stage.run
    case Feeding(frames) =>
      AccumulatorAfter(s.ContextOf(s.stage.anchor), frames, TickCount(|frames|, s.configuration.rate)).Some?
    case Halted(_, partial) => partial
  }

  function CountIncomplete(s: State, n: nat): State {
    s.(health := s.health.(incompleteSlots := SaturatingAdd(s.health.incompleteSlots, n)))
  }

  /** Discards the anchor, its run and any partial slot. */
  function Invalidate(s: State): State {
    (if HasPartialSlot(s) then CountIncomplete(s, 1) else s).(stage := Unanchored)
  }

  /** Invalidates and moves past the rejected batch. */
  function Reject(s: State, b: CaptureBatch, error: TimelineError)
    : (State, Result<seq<TimelineEvent>, TimelineError>)
  {
    var (s, moved) := Advance(Invalidate(s), b);
    (s, Err(if moved then error else ArithmeticOverflow))
  }

  function IncompleteCount(events: seq<TimelineEvent>): nat {
    if events == [] then 0
    else IncompleteCount(events[..|events| - 1]) + if events[|events| - 1].Incomplete? then 1 else 0
  }

  /** Feeds an accepted batch to the run of `anchor`. */
  function Accept(s: State, anchor: TimeEvidence, run: Run, b: CaptureBatch)
    : (State, Result<seq<TimelineEvent>, TimelineError>)
  {
    var (after, events) := FeedBatch(s.ContextOf(anchor), run, b.first.position, b.samples);
    var s := s.(stage := Anchored(anchor, after));
    if events.None? then (s, Err(ArithmeticOverflow))
    else
      var (s, moved) := Advance(CountIncomplete(s, IncompleteCount(events.value)), b);
      (s, if moved then Ok(events.value) else Err(ArithmeticOverflow))
  }

  /** One batch observed at monotonic time `now`. */
  function Push(s: State, b: CaptureBatch, now: u64): (State, Result<seq<TimelineEvent>, TimelineError>) {
    var lateness := SaturatingSub(now, b.first.monotonic);
    var identity := IdentityError(s.processGeneration, s.streamGeneration, s.configuration, b);
    var position := PositionError(s.expected, s.lastPosition, b);
    if identity.Some? then (s, Err(identity.value))
    else if lateness > MAX_LATENESS_MILLIS then
      Reject(s.(health := s.health.(lateBatches := SaturatingAdd(s.health.lateBatches, 1))), b, LateData(lateness))
    else if position.Some? then
      if position.value.Gap? then Reject(s, b, position.value) else (Invalidate(s), Err(position.value))
    else if Discontinuous(s.expected, b) then Reject(s, b, DiscontinuityError(b.discontinuity.value.kind))
    else
      match s.stage
      case Unanchored => Accept(s, b.first, Feeding([]), b)
      case Anchored(anchor, run) =>
        var (health, error) := MappingCheck(s.configuration.rate, s.lastMonotonic, s.health, anchor, b.first);
        var s := s.(health := health);
        if error.Some? then Reject(s, b, error.value) else Accept(s, anchor, run, b)
  }

  /** Every batch, accepted or not, leaves a timeline whose live run is contiguous and mapped. */
  lemma PushValid(s: State, b: CaptureBatch, now: u64)
    requires s.Valid()
    ensures Push(s, b, now).0.Valid()
  {
    hide MappingCheck, EventsUpTo, AccumulatorAfter, SlotMapped, TickCount, IncompleteCount, FeedBatch;
    if s.stage.Unanchored? {
      assert TickCount(0, s.configuration.rate) == 0 by { NoTicks(s.configuration.rate); }
      FeedBatchAlive(s.ContextOf(b.first), [], b.first.position, b.samples);
    } else if s.stage.run.Feeding? {
      FeedBatchAlive(s.ContextOf(s.stage.anchor), s.stage.run.frames, b.first.position, b.samples);
    } else {
      HaltedStays(s.ContextOf(s.stage.anchor), s.stage.run, b.first.position, b.samples);
    }
  }

  lemma NoTicks(rate: Rate)
    ensures TickCount(0, rate) == 0
  {
  }

  // ---------------------------------------------------------------------
  // The timeline object
  // ---------------------------------------------------------------------

  class Ft8ReceiveTimeline {
    const processGeneration: Generation
    const streamGeneration: Generation
    const configuration: InputConfiguration
    var expected: Option<u64>
    var lastPosition: Option<u64>
    var lastMonotonic: Option<u64>
    var anchor: Option<TimeEvidence>
    var resampler: RationalResampler?
    var health: Health

    ghost function Abs(): State
      reads this, resampler
    {
      State(processGeneration, streamGeneration, configuration, expected, lastPosition, lastMonotonic,
            if anchor.Some? && resampler != null then Anchored(anchor.value, resampler.run) else Unanchored,
            health)
    }

    ghost predicate Valid()
      reads this, resampler
    {
      && (anchor.Some? <==> resampler != null)
      && (resampler != null ==>
            && resampler.Valid()
            && resampler.context
               == Context(anchor.value, configuration.rate, processGeneration, streamGeneration))
      && Abs().Valid()
    }

    constructor (process: Generation, stream: Generation, configuration: InputConfiguration)
      ensures Valid() && Abs() == Initial(process, stream, configuration)
      ensures resampler == null
    {
      this.processGeneration := process;
      this.streamGeneration := stream;
      this.configuration := configuration;
      expected, lastPosition, lastMonotonic := None, None, None;
      anchor, resampler := None, null;
      health := Health(0, 0, 0, 0);
    }

    method AdvanceExpected(b: CaptureBatch) returns (moved: bool)
      modifies this`expected, this`lastPosition, this`lastMonotonic
      ensures (Abs(), moved) == Advance(old(Abs()), b)
    {
      lastPosition := Some(b.first.position);
      lastMonotonic := Some(b.first.monotonic);
      moved := b.EndPosition().Some?;
      if moved {
        expected := b.EndPosition();
      }
    }

    method InvalidateActive()
      requires Valid()
      modifies this`anchor, this`resampler, this`health
      ensures Valid() && Abs() == Invalidate(old(Abs()))
    {
      if resampler != null && resampler.active.Some? && resampler.active.value.samples != [] {
        health := health.(incompleteSlots := SaturatingAdd(health.incompleteSlots, 1));
      }
      if resampler != null && resampler.run.Feeding? {
        AccumulatorAligned(resampler.context, resampler.run.frames,
                           TickCount(|resampler.run.frames|, configuration.rate));
      }
      anchor, resampler := None, null;
    }

    /** The shared tail of every rejection that moves past its batch. */
    method RejectBatch(b: CaptureBatch, error: TimelineError) returns (r: Result<seq<TimelineEvent>, TimelineError>)
      requires Valid()
      modifies this
      ensures Valid() && (Abs(), r) == Reject(old(Abs()), b, error)
    {
      InvalidateActive();
      var moved := AdvanceExpected(b);
      r := Err(if moved then error else ArithmeticOverflow);
    }

    /** Consumes one batch observed at monotonic time `now`. */
    method PushBatch(b: CaptureBatch, now: u64) returns (r: Result<seq<TimelineEvent>, TimelineError>)
      requires Valid()
      modifies this, resampler
      ensures Valid() && (Abs(), r) == Push(old(Abs()), b, now)
      ensures resampler != old(resampler) ==> resampler == null || fresh(resampler)
    {
      hide MappingCheck, FeedBatch, AccumulatorAfter, TickCount, SlotMapped;
      PushValid(Abs(), b, now);
      var identity := IdentityError(processGeneration, streamGeneration, configuration, b);
      if identity.Some? {
        return Err(identity.value);
      }
      var lateness := SaturatingSub(now, b.first.monotonic);
      if lateness > MAX_LATENESS_MILLIS {
        health := health.(lateBatches := SaturatingAdd(health.lateBatches, 1));
        r := RejectBatch(b, LateData(lateness));
        return;
      }
      var position := PositionError(expected, lastPosition, b);
      if position.Some? {
        if position.value.Gap? {
          r := RejectBatch(b, position.value);
        } else {
          InvalidateActive();
          r := Err(position.value);
        }
        return;
      }
      if Discontinuous(expected, b) {
        r := RejectBatch(b, DiscontinuityError(b.discontinuity.value.kind));
        return;
      }
      if anchor.Some? {
        var (checked, error) := MappingCheck(configuration.rate, lastMonotonic, health, anchor.value, b.first);
        health := checked;
        if error.Some? {
          r := RejectBatch(b, error.value);
          return;
        }
        MappingKeepsOrder(configuration.rate, lastMonotonic, old(health), anchor.value, b.first);
      } else {
        anchor := Some(b.first);
        resampler := new RationalResampler(
          Context(b.first, configuration.rate, processGeneration, streamGeneration));
      }
      r := AcceptBatch(b);
    }

    /** Feeds an accepted batch to the resampler of the current anchor. */
    method AcceptBatch(b: CaptureBatch) returns (r: Result<seq<TimelineEvent>, TimelineError>)
      requires anchor.Some? && resampler != null && resampler.Valid()
      requires resampler.context == Context(anchor.value, configuration.rate, processGeneration, streamGeneration)
      requires anchor.value.position <= b.first.position
      requires resampler.run.Feeding? ==> b.first.position == anchor.value.position + |resampler.run.frames|
      modifies this`health, this`expected, this`lastPosition, this`lastMonotonic, resampler
      ensures resampler.Valid()
      ensures (Abs(), r) == Accept(old(Abs()), anchor.value, old(resampler.run), b)
    {
      hide FeedBatch, IncompleteCount, HasPartialSlot, RationalResampler.At, RationalResampler.HaltedAt,
           RationalResampler.Previous, TickCount, AccumulatorAfter, SlotMapped;
      r := resampler.PushBatch(b.first.position, b.samples);
      ghost var fed := FeedBatch(resampler.context, old(resampler.run), b.first.position, b.samples);
      ghost var s := old(Abs()).(stage := Anchored(anchor.value, fed.0));
      if r.Ok? {
        health := health.(incompleteSlots := SaturatingAdd(health.incompleteSlots, IncompleteCount(r.value)));
        assert Abs() == CountIncomplete(s, IncompleteCount(fed.1.value));
        var moved := AdvanceExpected(b);
        if !moved {
          r := Err(ArithmeticOverflow);
        }
      }
    }
  }

  lemma MappingKeepsOrder(
    rate: Rate, lastMonotonic: Option<u64>, h: Health, anchor: TimeEvidence, e: TimeEvidence)
    requires MappingCheck(rate, lastMonotonic, h, anchor, e).1.None?
    ensures anchor.position <= e.position
  {
  }
}
