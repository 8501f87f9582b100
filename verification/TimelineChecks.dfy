/**
 What the timeline's checks mean: each verdict as arithmetic on the fields of the batch, the anchor and the
 batch before, with the numbers that the errors report.
 */
module TimelineChecks {
  import opened Numeric
  import opened Audio
  import opened Resampling
  import opened Timeline

  // ---------------------------------------------------------------------
  // Timing against the anchor
  // ---------------------------------------------------------------------

  /** The capture clock ran backwards since the last batch or since the anchor. */
  predicate Regressed(last: Option<u64>, anchor: TimeEvidence, e: TimeEvidence) {
    (last.Some? && e.monotonic < last.value) || e.monotonic < anchor.monotonic
  }

  /** The batch is at or after the anchor, and the milliseconds since then can be computed in 64 bits. */
  predicate Measurable(last: Option<u64>, anchor: TimeEvidence, e: TimeEvidence) {
    && !Regressed(last, anchor, e) && anchor.position <= e.position
    && (e.position - anchor.position) * 1_000 <= U64_MAX
  }

  /** Whole milliseconds of source frames since the anchor. */
  function Elapsed(rate: Rate, anchor: TimeEvidence, e: TimeEvidence): int { (e.position - anchor.position) * 1_000 / rate }

  /** By how much the capture clock is ahead of the source frames. */
  function Jitter(rate: Rate, anchor: TimeEvidence, e: TimeEvidence): int {
    e.monotonic - anchor.monotonic - Elapsed(rate, anchor, e)
  }

  /** By how much UTC has moved against the capture clock. */
  function Shift(anchor: TimeEvidence, e: TimeEvidence): int {
    (e.utc - anchor.utc) - (e.monotonic - anchor.monotonic)
  }

  predicate Drifting(rate: Rate, anchor: TimeEvidence, e: TimeEvidence) {
    && Elapsed(rate, anchor, e) >= 1_000
    && Abs(Jitter(rate, anchor, e)) * 1_000_000 >= 5_001 * Elapsed(rate, anchor, e)
  }

  /** The timing of a batch agrees with the anchor: 50 ms of jitter, 20 ms of UTC remapping, and after a second
      5,000 parts per million of drift. */
  predicate Agrees(rate: Rate, last: Option<u64>, anchor: TimeEvidence, e: TimeEvidence) {
    && Measurable(last, anchor, e)
    && Abs(Jitter(rate, anchor, e)) <= 50 && Abs(Shift(anchor, e)) <= 20
    && !Drifting(rate, anchor, e)
  }

  /** A batch's timing is accepted exactly when it agrees with the anchor; otherwise the error names the first
      condition that failed, with its measure. */
  lemma MappingVerdict(rate: Rate, last: Option<u64>, h: Health, anchor: TimeEvidence, e: TimeEvidence)
    ensures var error := MappingCheck(rate, last, h, anchor, e).1;
            var (jitter, shift) := (Jitter(rate, anchor, e), Shift(anchor, e));
            && (error.None? <==> Agrees(rate, last, anchor, e))
            && (error == Some(MonotonicRegression) <==> Regressed(last, anchor, e))
            && (error == Some(OutOfOrder) <==> !Regressed(last, anchor, e) && e.position < anchor.position)
            && (error == Some(ExcessiveJitter(jitter)) <==>
                  Measurable(last, anchor, e) && FitsI64(jitter) && Abs(jitter) > 50)
            && (error == Some(ClockRemappedError(shift)) <==>
                  Measurable(last, anchor, e) && Abs(jitter) <= 50 && FitsI64(shift) && Abs(shift) > 20)
            && (error.Some? && error.value.ExcessiveDrift? <==>
                  && Measurable(last, anchor, e) && Abs(jitter) <= 50 && Abs(shift) <= 20
                  && Drifting(rate, anchor, e))
            && (error.Some? ==>
                  || error.value in {MonotonicRegression, OutOfOrder, ArithmeticOverflow, ExcessiveJitter(jitter),
                                     ClockRemappedError(shift)}
                  || error.value == ExcessiveDrift(MappingCheck(rate, last, h, anchor, e).0.driftPpm))
  {
    var d := e.position - anchor.position;
    if Measurable(last, anchor, e) {
      DivisionIdentity(d * 1_000, rate);
      var (elapsed, jitter) := (Elapsed(rate, anchor, e), Jitter(rate, anchor, e));
      assert FrameMillis(d, rate) == elapsed;
      hide FrameMillis, Elapsed;
      if Abs(jitter) <= 50 && Abs(Shift(anchor, e)) <= 20 && elapsed >= 1_000 {
        DriftLimit(jitter, elapsed);
      }
    }
  }

  /** The truncated estimate exceeds the bound exactly when the error reaches the next whole part per million. */
  lemma DriftLimit(jitter: int, elapsed: nat)
    requires elapsed > 0
    ensures Abs(DriftPpm(jitter, elapsed)) > 5_000 <==> Abs(jitter) * 1_000_000 >= 5_001 * elapsed
  {
    QuotientBound(Abs(jitter) * 1_000_000, elapsed, 5_001);
  }

  /** `q` is `x / d` rounded toward zero. */
  predicate Truncated(q: int, x: int, d: nat) {
    && Abs(q) * d <= Abs(x) < (Abs(q) + 1) * d
    && (q < 0 ==> x < 0) && (q > 0 ==> x > 0)
  }

  /** The health that the timing checks leave: the largest jitter ever measured and the newest drift estimate. */
  lemma MappingHealth(rate: Rate, last: Option<u64>, h: Health, anchor: TimeEvidence, e: TimeEvidence)
    ensures var after := MappingCheck(rate, last, h, anchor, e).0;
            var (elapsed, jitter) := (Elapsed(rate, anchor, e), Jitter(rate, anchor, e));
            var measured := Measurable(last, anchor, e) && FitsI64(jitter);
            && after.incompleteSlots == h.incompleteSlots && after.lateBatches == h.lateBatches
            && after.maxJitterMillis == (if measured && Abs(jitter) > h.maxJitterMillis then Min(Abs(jitter), U32_MAX)
                                         else h.maxJitterMillis)
            && if measured && Abs(jitter) <= 50 && Abs(Shift(anchor, e)) <= 20 && elapsed >= 1_000
               then Truncated(after.driftPpm, jitter * 1_000_000, elapsed)
               else after.driftPpm == h.driftPpm
  {
    var d := e.position - anchor.position;
    if Measurable(last, anchor, e) {
      DivisionIdentity(d * 1_000, rate);
      var (elapsed, jitter) := (Elapsed(rate, anchor, e), Jitter(rate, anchor, e));
      assert FrameMillis(d, rate) == elapsed;
      hide FrameMillis, Elapsed, Truncated;
      if elapsed >= 1_000 {
        DriftTruncated(jitter, elapsed);
      }
    }
  }

  lemma DriftTruncated(jitter: int, elapsed: nat)
    requires elapsed > 0
    ensures Truncated(DriftPpm(jitter, elapsed), jitter * 1_000_000, elapsed)
  {
    var x := Abs(jitter * 1_000_000);
    DivisionIdentity(x, elapsed);
    ProductStep(x / elapsed, elapsed);
    QuotientSign(x, elapsed);
  }

  lemma QuotientSign(x: nat, d: nat)
    requires d > 0
    ensures x / d > 0 ==> x > 0
  {
  }

  // ---------------------------------------------------------------------
  // The whole sequence of checks
  // ---------------------------------------------------------------------

  /** The batch belongs to another process, stream or configuration. */
  predicate Foreign(s: State, b: CaptureBatch) {
    b.processGeneration != s.processGeneration || b.streamGeneration != s.streamGeneration
    || b.configuration != s.configuration
  }

  /** Observed more than two seconds after its capture. */
  predicate Late(b: CaptureBatch, now: u64) { now > b.first.monotonic + 2_000 }

  /** The batch does not begin where the last one ended. */
  predicate Displaced(s: State, b: CaptureBatch) { s.expected.Some? && b.first.position != s.expected.value }

  /** The batch carries a mark that is not the restart before the first batch. */
  predicate Broken(s: State, b: CaptureBatch) {
    b.discontinuity.Some? && (s.expected.Some? || b.discontinuity.value.kind != StreamRestart)
  }

  /** The timing of the batch disagrees with the anchor of the run. */
  predicate Disagrees(s: State, b: CaptureBatch) {
    s.stage.Anchored? && !Agrees(s.configuration.rate, s.lastMonotonic, s.stage.anchor, b.first)
  }

  /** The batch passes every check that precedes resampling. */
  predicate PassesChecks(s: State, b: CaptureBatch, now: u64) {
    !Late(b, now) && !Displaced(s, b) && !Broken(s, b) && !Disagrees(s, b)
  }

  /** A foreign batch is refused with what differs first, and changes nothing. */
  lemma ForeignVerdict(s: State, b: CaptureBatch, now: u64)
    ensures Foreign(s, b) ==>
              && Push(s, b, now).0 == s
              && Push(s, b, now).1 == Err(if b.processGeneration != s.processGeneration then ProcessGenerationChanged
                                          else if b.streamGeneration != s.streamGeneration then StreamGenerationChanged
                                          else ConfigurationChanged)
    ensures IdentityError(s.processGeneration, s.streamGeneration, s.configuration, b).Some? <==> Foreign(s, b)
  {
  }

  /** The timeline moved past the batch: it is the latest seen and its end, if representable, is expected next. */
  predicate MovedPast(s: State, t: State, b: CaptureBatch) {
    && t.lastPosition == Some(b.first.position) && t.lastMonotonic == Some(b.first.monotonic)
    && t.expected == (if b.first.position + |b.samples| <= U64_MAX then Some(b.first.position + |b.samples|) else s.expected)
  }

  /** The error of a rejection that moves past its batch: a batch without an end position is an overflow. */
  function RejectedAs(b: CaptureBatch, error: TimelineError): TimelineError {
    if b.first.position + |b.samples| <= U64_MAX then error else ArithmeticOverflow
  }

  /** What becomes of an own batch that fails a check: the error is that of the first failed check, with its
      measure, and the run is discarded.  Overlapping data alone is not moved past. */
  lemma RefusalVerdict(s: State, b: CaptureBatch, now: u64)
    requires !Foreign(s, b) && !PassesChecks(s, b, now)
    ensures var (t, r) := Push(s, b, now);
            && t.stage.Unanchored?
            && if Late(b, now) then r == Err(RejectedAs(b, LateData(now - b.first.monotonic))) && MovedPast(s, t, b)
               else if Displaced(s, b) && b.first.position > s.expected.value then
                 r == Err(RejectedAs(b, Gap(b.first.position - s.expected.value))) && MovedPast(s, t, b)
               else if Displaced(s, b) then
                 && r == Err(if s.lastPosition.Some? && b.first.position < s.lastPosition.value then OutOfOrder
                             else Overlap(s.expected.value - b.first.position))
                 && t.expected == s.expected && t.lastPosition == s.lastPosition && t.lastMonotonic == s.lastMonotonic
               else if Broken(s, b) then
                 r == Err(RejectedAs(b, DiscontinuityError(b.discontinuity.value.kind))) && MovedPast(s, t, b)
               else
                 var error := MappingCheck(s.configuration.rate, s.lastMonotonic, s.health, s.stage.anchor, b.first).1;
                 error.Some? && r == Err(RejectedAs(b, error.value)) && MovedPast(s, t, b)
  {
    if s.stage.Anchored? {
      MappingVerdict(s.configuration.rate, s.lastMonotonic, s.health, s.stage.anchor, b.first);
    }
    hide MappingCheck, HasPartialSlot, Accept, Agrees;
  }

  /** An own batch that passes every check is fed to the run of the anchor, or begins one. */
  lemma PassingIsFed(s: State, b: CaptureBatch, now: u64)
    requires !Foreign(s, b) && PassesChecks(s, b, now)
    ensures Push(s, b, now)
         == match s.stage
            case Unanchored => Accept(s, b.first, Feeding([]), b)
            case Anchored(anchor, run) =>
              Accept(s.(health := MappingCheck(s.configuration.rate, s.lastMonotonic, s.health, anchor, b.first).0),
                     anchor, run, b)
  {
    if s.stage.Anchored? {
      MappingVerdict(s.configuration.rate, s.lastMonotonic, s.health, s.stage.anchor, b.first);
    }
    hide MappingCheck, Accept, Agrees;
  }

  /** An accepted batch is moved past; one that passed the checks and failed in the resampler is not, unless only its
      end has no position. */
  lemma AcceptedMoves(s: State, b: CaptureBatch, now: u64)
    requires !Foreign(s, b) && PassesChecks(s, b, now)
    ensures var (t, r) := Push(s, b, now);
            && t.stage.Anchored? && (s.stage.Anchored? ==> t.stage.anchor == s.stage.anchor)
            && (s.stage.Unanchored? ==> t.stage.anchor == b.first)
            && (r.Ok? ==> MovedPast(s, t, b))
            && (r.Err? ==> r.error.ArithmeticOverflow?)
            && (r.Err? && !MovedPast(s, t, b) ==>
                  t.expected == s.expected && t.lastPosition == s.lastPosition && t.lastMonotonic == s.lastMonotonic)
  {
    PassingIsFed(s, b, now);
    hide MappingCheck, FeedBatch, PassesChecks, Push, IncompleteCount;
  }
}
