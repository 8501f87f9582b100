/**
 Closed form of the rational resampler and of FT8 slot assembly.

 Nothing here streams: a run is the anchor of its first frame together with the
 whole sequence of contiguous source frames that followed, and the output is a
 function of that sequence.  `Resampler.dfy` shows that the bounded streaming
 implementation produces exactly this.
 */
module Resampling {
  import opened Numeric
  import opened Audio

  datatype TimelineError =
    | ProcessGenerationChanged
    | StreamGenerationChanged
    | ConfigurationChanged
    | OutOfOrder
    | Overlap(frames: nat)
    | Gap(frames: nat)
    | DiscontinuityError(kind: DiscontinuityKind)
    | MonotonicRegression
    | ExcessiveJitter(millis: int)
    | ClockRemappedError(remapMillis: int)
    | ExcessiveDrift(partsPerMillion: int)
    | LateData(lateMillis: nat)
    | ArithmeticOverflow

  /** Everything that is fixed for one anchor lifetime. */
  datatype Context = Context(
    anchor: TimeEvidence, rate: Rate, processGeneration: Generation, streamGeneration: Generation)
  {
    /** The anchor expressed in 12 kHz output ticks since the Unix epoch. */
    function AnchorTick(): nat { TICKS_PER_MILLI * anchor.utc }
  }

  /** A slot under assembly. */
  datatype Accumulator = Accumulator(
    slotTick: nat, firstTick: nat, mapping: TimeEvidence, samples: seq<i16>)

  // ---------------------------------------------------------------------
  // Output ticks
  // ---------------------------------------------------------------------

  /** Number of output ticks that `n` contiguous source frames determine. */
  function TickCount(n: nat, rate: Rate): nat {
    if n == 0 then 0 else Quotient(OUTPUT_RATE_HZ * (n - 1), rate) + 1
  }

  /** Tick `k` lies at source time `k * rate / 12000`; it is due once a frame reaches that time. */
  lemma TickDue(n: nat, rate: Rate, k: nat)
    requires n > 0
    ensures k < TickCount(n, rate) <==> k * rate <= OUTPUT_RATE_HZ * (n - 1)
  {
    QuotientBound(OUTPUT_RATE_HZ * (n - 1), rate, k);
  }

  lemma TickCountMonotone(m: nat, n: nat, rate: Rate)
    requires m <= n
    ensures TickCount(m, rate) <= TickCount(n, rate)
  {
    if m > 0 {
      var k := TickCount(m, rate) - 1;
      TickDue(m, rate, k);
      TickDue(n, rate, k);
    }
  }

  /** The first source frame at or after tick `k`. */
  function UpperFrame(k: nat, rate: Rate): nat {
    (k * rate + OUTPUT_RATE_HZ - 1) / OUTPUT_RATE_HZ
  }

  lemma UpperFrameAvailable(n: nat, rate: Rate, k: nat)
    requires k < TickCount(n, rate)
    ensures UpperFrame(k, rate) < n
  {
    TickDue(n, rate, k);
  }

  /** The rounded quotient of `interpolate`: half away from zero. */
  function RoundedStep(adjustment: int, denominator: nat): int
    requires denominator > 0
  {
    TruncDiv(if adjustment >= 0 then adjustment + denominator / 2 else adjustment - denominator / 2,
             denominator)
  }

  function Interpolate(previous: i16, current: i16, numerator: int, denominator: int)
    : (r: Result<i16, TimelineError>)
  {
    if denominator <= 0 || numerator < 0 || numerator > denominator then Err(ArithmeticOverflow)
    else
      var value := previous + RoundedStep((current - previous) * numerator, denominator);
      if I16_MIN <= value <= I16_MAX then Ok(value) else Err(ArithmeticOverflow)
  }

  /** A nonnegative quotient rounded to nearest, halves up: within half a unit, and no larger than `top` when
      the dividend is no larger than `top * d`. */
  lemma RoundHalfUp(a: nat, top: nat, d: nat)
    requires d > 0 && a <= top * d
    ensures var t := (a + d / 2) / d; 0 <= t <= top && 2 * (t * d - a) <= d && 2 * (a - t * d) < d
  {
    var x := a + d / 2;
    var t := x / d;
    DivisionIdentity(x, d);
    if t > top {
      ProductMonotone(top + 1, t, d);
      ProductStep(top, d);
    }
  }

  /** One rounded step: it stays between 0 and the difference, and is the nearest one, a half rounded away from
      zero. */
  lemma RoundedStepBounds(difference: int, adjustment: int, denominator: nat)
    requires 0 < denominator
    requires if difference >= 0 then 0 <= adjustment <= difference * denominator
             else (-difference) * denominator >= -adjustment >= 0
    ensures var s := RoundedStep(adjustment, denominator);
            && (if difference >= 0 then 0 <= s <= difference else difference <= s <= 0)
            && Nearest(s, adjustment, denominator)
  {
    var s := RoundedStep(adjustment, denominator);
    if adjustment >= 0 {
      var top := if difference >= 0 then difference else -difference;
      RoundHalfUp(adjustment, top, denominator);
      if difference < 0 { RoundHalfUp(0, 0, denominator); }
    } else {
      RoundHalfUp(-adjustment, -difference, denominator);
      var t := (-adjustment + denominator / 2) / denominator;
      assert s == -t;
      ProductNegation(t, denominator);
    }
  }

  /** `s` is `a / d` rounded to nearest, a half away from zero; there is exactly one such integer. */
  predicate Nearest(s: int, a: int, d: nat) {
    && 2 * Abs(s * d - a) <= d
    && (2 * Abs(s * d - a) == d ==> Abs(s * d) > Abs(a))
  }

  lemma AdjustmentBounds(difference: int, numerator: nat, denominator: nat)
    requires numerator <= denominator
    ensures if difference >= 0 then 0 <= difference * numerator <= difference * denominator
            else (-difference) * denominator >= -(difference * numerator) >= 0
  {
    if difference >= 0 {
      ProductMonotone(numerator, denominator, difference);
    } else {
      ProductMonotone(numerator, denominator, -difference);
      ProductNegation(difference, numerator);
    }
  }

  /** Interpolation between two 16-bit samples never leaves 16 bits, so it never fails in range; the step from
      the previous sample is the nearest to the exact one, a half rounded away from that sample. */
  lemma InterpolateTotal(previous: i16, current: i16, numerator: nat, denominator: nat)
    requires 0 < denominator && numerator <= denominator
    ensures var r := Interpolate(previous, current, numerator, denominator);
            && r.Ok?
            && Min(previous, current) <= r.value <= Max(previous, current)
            && Nearest(r.value - previous, (current - previous) * numerator, denominator)
  {
    hide RoundedStep;
    AdjustmentBounds(current - previous, numerator, denominator);
    RoundedStepBounds(current - previous, (current - previous) * numerator, denominator);
  }

  lemma InterpolateAtEnd(previous: i16, current: i16, denominator: nat)
    requires 0 < denominator
    ensures Interpolate(previous, current, denominator, denominator) == Ok(current)
  {
    hide RoundedStep;
    InterpolateTotal(previous, current, denominator, denominator);
    var r := Interpolate(previous, current, denominator, denominator);
    ScaledDistance(r.value - previous, current - previous, denominator);
  }

  /** Distinct integers stay at least `d` apart after scaling by `d`. */
  lemma ScaledDistance(x: int, y: int, d: nat)
    requires d > 0 && 2 * Abs(x * d - y * d) <= d
    ensures x == y
  {
    if x > y { ProductDifference(x, y, d); ProductMonotone(1, x - y, d); }
    if x < y { ProductDifference(y, x, d); ProductMonotone(1, y - x, d); }
  }

  /** Output sample `k` of a run. Ticks that the frames do not yet determine read as silence. */
  function TickSample(frames: seq<i16>, rate: Rate, k: nat): i16 {
    var d := UpperFrame(k, rate);
    if d >= |frames| then 0
    else if d == 0 then frames[0]
    else
      InterpolateTotal(frames[d - 1], frames[d], k * rate - OUTPUT_RATE_HZ * (d - 1), OUTPUT_RATE_HZ);
      Interpolate(frames[d - 1], frames[d], k * rate - OUTPUT_RATE_HZ * (d - 1), OUTPUT_RATE_HZ).value
  }

  /** The two frames around `k * rate / 12000` bound tick `k`, which is their exact linear interpolation rounded
      to nearest, a half away from the earlier frame; on the source grid, and so everywhere at 12 kHz, it is
      the source sample itself. */
  lemma TickIsLinearInterpolation(frames: seq<i16>, rate: Rate, k: nat)
    requires k < TickCount(|frames|, rate)
    ensures var lower := k * rate / OUTPUT_RATE_HZ;
            var fraction := k * rate % OUTPUT_RATE_HZ;
            var upper := if fraction == 0 then lower else lower + 1;
            && lower <= upper < |frames|
            && Min(frames[lower], frames[upper]) <= TickSample(frames, rate, k) <= Max(frames[lower], frames[upper])
            && Nearest(TickSample(frames, rate, k) - frames[lower], (frames[upper] - frames[lower]) * fraction,
                       OUTPUT_RATE_HZ)
            && (fraction == 0 ==> TickSample(frames, rate, k) == frames[lower])
    ensures rate == OUTPUT_RATE_HZ ==> k < |frames| && TickSample(frames, rate, k) == frames[k]
  {
    UpperFrameAvailable(|frames|, rate, k);
    var lower := k * rate / OUTPUT_RATE_HZ;
    var fraction := k * rate % OUTPUT_RATE_HZ;
    var d := UpperFrame(k, rate);
    assert k * rate == lower * OUTPUT_RATE_HZ + fraction;
    if fraction == 0 {
      assert d == lower;
      if d > 0 {
        InterpolateAtEnd(frames[d - 1], frames[d], OUTPUT_RATE_HZ);
      }
    } else {
      assert d == lower + 1;
      InterpolateTotal(frames[lower], frames[d], fraction, OUTPUT_RATE_HZ);
    }
  }

  function Ticks(frames: seq<i16>, rate: Rate, from: nat, count: nat): seq<i16> {
    seq<i16>(count, (j: nat) => TickSample(frames, rate, from + j))
  }

  /** The tick that becomes due with frame `d` interpolates frames `d - 1` and `d`. */
  lemma TickAtFrame(frames: seq<i16>, rate: Rate, k: nat, d: nat)
    requires d < |frames| && TickCount(d, rate) <= k && k * rate <= OUTPUT_RATE_HZ * d
    ensures d == 0 ==> k == 0 && TickSample(frames, rate, k) == frames[0]
    ensures d > 0 ==>
              && OUTPUT_RATE_HZ * (d - 1) < k * rate
              && Interpolate(frames[d - 1], frames[d], k * rate - OUTPUT_RATE_HZ * (d - 1), OUTPUT_RATE_HZ)
                 == Ok(TickSample(frames, rate, k))
  {
    if d == 0 {
      if k > 0 { ProductMonotone(1, k, rate); }
    } else {
      TickDue(d, rate, k);
      assert UpperFrame(k, rate) == d;
      InterpolateTotal(frames[d - 1], frames[d], k * rate - OUTPUT_RATE_HZ * (d - 1), OUTPUT_RATE_HZ);
    }
  }

  lemma TickSampleStable(frames: seq<i16>, more: seq<i16>, rate: Rate, k: nat)
    requires k < TickCount(|frames|, rate)
    ensures TickSample(frames + more, rate, k) == TickSample(frames, rate, k)
  {
    UpperFrameAvailable(|frames|, rate, k);
  }

  lemma TicksStable(frames: seq<i16>, more: seq<i16>, rate: Rate, from: nat, count: nat)
    requires from + count <= TickCount(|frames|, rate)
    ensures Ticks(frames + more, rate, from, count) == Ticks(frames, rate, from, count)
  {
    forall j | 0 <= j < count
      ensures Ticks(frames + more, rate, from, count)[j] == Ticks(frames, rate, from, count)[j]
    {
      TickSampleStable(frames, more, rate, from + j);
    }
  }

  // ---------------------------------------------------------------------
  // Slots
  // ---------------------------------------------------------------------

  /** First tick of the slot that contains tick `t` (`div_euclid`). */
  function SlotTick(t: nat): nat { t / WINDOW_SAMPLES * WINDOW_SAMPLES }

  /** Source frames from the anchor to a tick, rounded toward the anchor. */
  function SourceDelta(c: Context, slotTick: nat): int {
    TruncDiv((slotTick - c.AnchorTick()) * c.rate, OUTPUT_RATE_HZ)
  }

  /** Source position, UTC and monotonic time of a slot boundary, carried from the anchor. */
  function MappingForTick(c: Context, slotTick: nat): (r: Result<TimeEvidence, TimelineError>) {
    var sourceDelta := SourceDelta(c, slotTick);
    if !FitsI64(sourceDelta) then Err(ArithmeticOverflow)
    else if !FitsU64(c.anchor.position + sourceDelta) then Ok(c.anchor)
    else
      var slotMillis := slotTick / TICKS_PER_MILLI;
      if !FitsI64(slotMillis) || !FitsU64(c.anchor.monotonic + slotMillis - c.anchor.utc)
      then Err(ArithmeticOverflow)
      else Ok(Evidence(c.anchor.position + sourceDelta, slotMillis, c.anchor.monotonic + slotMillis - c.anchor.utc))
  }

  function SlotTickOf(c: Context, k: nat): nat { SlotTick(c.AnchorTick() + k) }

  /** An accumulator for the slot of tick `k` can be created: its mapping and start are representable. */
  predicate SlotMapped(c: Context, k: nat) {
    MappingForTick(c, SlotTickOf(c, k)).Ok? && FitsI64(SlotTickOf(c, k) / TICKS_PER_MILLI)
  }

  ghost predicate AllMapped(c: Context, n: nat) {
    forall k: nat :: k < n ==> SlotMapped(c, k)
  }

  function SlotMapping(c: Context, slotTick: nat): TimeEvidence {
    var m := MappingForTick(c, slotTick);
    if m.Ok? then m.value else c.anchor
  }

  /** Ticks from the anchor to the first slot boundary. */
  function Lead(c: Context): nat { (WINDOW_SAMPLES - c.AnchorTick() % WINDOW_SAMPLES) % WINDOW_SAMPLES }

  /** Complete slots contained in the first `n` ticks. */
  function WindowCount(c: Context, n: nat): nat {
    if n <= Lead(c) then 0 else (n - Lead(c)) / WINDOW_SAMPLES
  }

  /** First tick, counted from the anchor, of complete slot `i`. */
  function WindowStart(c: Context, i: nat): nat { Lead(c) + i * WINDOW_SAMPLES }

  function WindowAt(c: Context, frames: seq<i16>, i: nat): ReceiveWindow {
    var slotTick := c.AnchorTick() + WindowStart(c, i);
    ReceiveWindow(c.processGeneration, c.streamGeneration, slotTick / TICKS_PER_MILLI,
                  SlotMapping(c, slotTick), Ticks(frames, c.rate, WindowStart(c, i), WINDOW_SAMPLES))
  }

  /** The slot the capture started in, when it started after its boundary. */
  function LeadIn(c: Context, n: nat): seq<TimelineEvent> {
    if 0 < Lead(c) < n
    then [Incomplete(IncompleteSlot(SlotTickOf(c, 0) / TICKS_PER_MILLI, CaptureStartedLate, Lead(c)))]
    else []
  }

  lemma WindowStartsSlot(c: Context, i: nat)
    ensures c.AnchorTick() + WindowStart(c, i) == SlotTickOf(c, WindowStart(c, i))
  {
    assert (c.AnchorTick() + WindowStart(c, i)) % WINDOW_SAMPLES == 0;
  }

  lemma SourceDeltaForward(c: Context, slotTick: nat)
    requires c.AnchorTick() <= slotTick
    ensures SourceDelta(c, slotTick) == (slotTick - c.AnchorTick()) * c.rate / OUTPUT_RATE_HZ >= 0
  {
    ProductMonotone(0, slotTick - c.AnchorTick(), c.rate);
  }

  /** For a slot that starts at or after the anchor, and whose boundary frame has a position, the
      mapping is the anchor moved forward by the exact slot offset. */
  lemma ForwardMapping(c: Context, slotTick: nat)
    requires c.AnchorTick() <= slotTick && slotTick % WINDOW_SAMPLES == 0
    requires c.anchor.position + SourceDelta(c, slotTick) <= U64_MAX
    requires MappingForTick(c, slotTick).Ok?
    ensures var m := slotTick / TICKS_PER_MILLI;
            && c.anchor.utc <= m <= I64_MAX
            && SourceDelta(c, slotTick) >= 0
            && MappingForTick(c, slotTick).value
               == Evidence(c.anchor.position + SourceDelta(c, slotTick), m, c.anchor.monotonic + m - c.anchor.utc)
  {
    assert SourceDelta(c, slotTick) >= 0 by { SourceDeltaForward(c, slotTick); }
    hide SourceDelta;
  }

  /** All events of a run after `n` output ticks: at most one withheld lead-in, then every complete
      slot in order. */
  function EventsUpTo(c: Context, frames: seq<i16>, n: nat): seq<TimelineEvent> {
    LeadIn(c, n) + seq(WindowCount(c, n), (i: nat) => Window(WindowAt(c, frames, i)))
  }

  /** The slot under assembly after `n` output ticks. */
  function AccumulatorAfter(c: Context, frames: seq<i16>, n: nat): Option<Accumulator> {
    if n == 0 then None
    else if n <= Lead(c) then
      Some(Accumulator(SlotTickOf(c, 0), c.AnchorTick(), SlotMapping(c, SlotTickOf(c, 0)),
                       Ticks(frames, c.rate, 0, n)))
    else
      var start := WindowStart(c, WindowCount(c, n));
      if start == n then None
      else Some(Accumulator(c.AnchorTick() + start, c.AnchorTick() + start,
                            SlotMapping(c, c.AnchorTick() + start),
                            Ticks(frames, c.rate, start, n - start)))
  }

  /** Events and accumulator are determined by the frames that were needed for them. */
  lemma RunStable(c: Context, frames: seq<i16>, more: seq<i16>, n: nat)
    requires n <= TickCount(|frames|, c.rate)
    ensures EventsUpTo(c, frames + more, n) == EventsUpTo(c, frames, n)
    ensures AccumulatorAfter(c, frames + more, n) == AccumulatorAfter(c, frames, n)
  {
    forall i: nat | i < WindowCount(c, n)
      ensures WindowAt(c, frames + more, i) == WindowAt(c, frames, i)
    {
      TicksStable(frames, more, c.rate, WindowStart(c, i), WINDOW_SAMPLES);
    }
    if 0 < n <= Lead(c) {
      TicksStable(frames, more, c.rate, 0, n);
    } else if n > Lead(c) {
      var start := WindowStart(c, WindowCount(c, n));
      TicksStable(frames, more, c.rate, start, n - start);
    }
  }

  // ---------------------------------------------------------------------
  // One output tick
  // ---------------------------------------------------------------------

  /** The event that withdraws an unfinished slot when the next one begins. */
  function Withdrawn(a: Accumulator): seq<TimelineEvent> {
    if a.samples == [] then []
    else [Incomplete(IncompleteSlot(
            a.slotTick / TICKS_PER_MILLI,
            if a.firstTick == a.slotTick then TimelineInvalidated else CaptureStartedLate,
            |a.samples|))]
  }

  /** What the constructors of a slot under assembly and of its window check. */
  predicate Aligned(a: Accumulator) {
    a.slotTick % WINDOW_SAMPLES == 0 && FitsI64(a.slotTick / TICKS_PER_MILLI)
  }

  /** Effect of appending output tick `k` to the slot under assembly. */
  function OutputStep(c: Context, active: Option<Accumulator>, k: nat, sample: i16)
    : (Option<Accumulator>, seq<TimelineEvent>)
  {
    var slotTick := SlotTickOf(c, k);
    var opens := active.None? || active.value.slotTick != slotTick;
    var withdrawn := if opens && active.Some? then Withdrawn(active.value) else [];
    var slot := if opens then Accumulator(slotTick, c.AnchorTick() + k, SlotMapping(c, slotTick), [])
                else active.value;
    var grown := slot.(samples := slot.samples + [sample]);
    if |grown.samples| == WINDOW_SAMPLES
    then (None, withdrawn + [Window(ReceiveWindow(c.processGeneration, c.streamGeneration,
                                                  grown.slotTick / TICKS_PER_MILLI, grown.mapping, grown.samples))])
    else (Some(grown), withdrawn)
  }

  /** Where tick `k` falls once the lead-in is over. */
  lemma SlotOfTick(c: Context, k: nat)
    requires Lead(c) <= k
    ensures var w := WindowCount(c, k);
            var start := WindowStart(c, w);
            && start <= k < start + WINDOW_SAMPLES
            && SlotTickOf(c, k) == c.AnchorTick() + start
            && WindowCount(c, k + 1) == (if k + 1 == start + WINDOW_SAMPLES then w + 1 else w)
  {
    WindowStartsSlot(c, WindowCount(c, k));
  }

  lemma TicksSnoc(frames: seq<i16>, rate: Rate, from: nat, count: nat)
    ensures Ticks(frames, rate, from, count + 1)
         == Ticks(frames, rate, from, count) + [TickSample(frames, rate, from + count)]
  {
  }

  lemma LeadInStep(c: Context, frames: seq<i16>, k: nat)
    requires k < Lead(c)
    ensures OutputStep(c, AccumulatorAfter(c, frames, k), k, TickSample(frames, c.rate, k))
         == (AccumulatorAfter(c, frames, k + 1), [])
    ensures EventsUpTo(c, frames, k) == EventsUpTo(c, frames, k + 1) == []
  {
    assert SlotTickOf(c, k) == SlotTickOf(c, 0);
    TicksSnoc(frames, c.rate, 0, k);
    assert Ticks(frames, c.rate, 0, 0) == [];
  }

  /** The slot grown by one tick, and the lead-in withdrawn at the first boundary. */
  lemma SlotGrowth(c: Context, frames: seq<i16>, k: nat)
    requires Lead(c) <= k
    ensures var start := WindowStart(c, WindowCount(c, k));
            var active := AccumulatorAfter(c, frames, k);
            var opens := active.None? || active.value.slotTick != SlotTickOf(c, k);
            && (opens <==> k == start)
            && (!opens ==> active == Some(Accumulator(c.AnchorTick() + start, c.AnchorTick() + start,
                                                      SlotMapping(c, c.AnchorTick() + start),
                                                      Ticks(frames, c.rate, start, k - start))))
            && (opens && active.Some? ==> k == Lead(c) > 0 && Withdrawn(active.value) == LeadIn(c, k + 1))
            && (opens && active.None? ==> LeadIn(c, k + 1) == LeadIn(c, k))
  {
    SlotOfTick(c, k);
    if k == Lead(c) > 0 {
      assert SlotTickOf(c, 0) < c.AnchorTick() < SlotTickOf(c, k);
    }
  }

  /** A slot under assembly is aligned, and so is the tick that would extend it. */
  lemma AccumulatorAligned(c: Context, frames: seq<i16>, k: nat)
    requires AllMapped(c, k)
    ensures var active := AccumulatorAfter(c, frames, k);
            active.Some? ==>
              && Aligned(active.value) && active.value.samples != []
              && (active.value.slotTick == SlotTickOf(c, k) ==> SlotMapped(c, k))
  {
    hide MappingForTick, TickSample;
    if 0 < k {
      assert SlotMapped(c, 0);
      if k > Lead(c) {
        var start := WindowStart(c, WindowCount(c, k));
        WindowStartsSlot(c, WindowCount(c, k));
        if start < k { assert SlotMapped(c, start); }
      }
    }
  }

  /** One output step moves the closed form from `k` ticks to `k + 1`. */
  lemma OutputStepClosedForm(c: Context, frames: seq<i16>, k: nat)
    ensures var step := OutputStep(c, AccumulatorAfter(c, frames, k), k, TickSample(frames, c.rate, k));
            && step.0 == AccumulatorAfter(c, frames, k + 1)
            && EventsUpTo(c, frames, k) + step.1 == EventsUpTo(c, frames, k + 1)
  {
    hide TickSample, OutputStep, AccumulatorAfter, EventsUpTo, Lead;
    if k < Lead(c) {
      LeadInStep(c, frames, k);
      var events := EventsUpTo(c, frames, k);
      assert events + [] == events;
    } else {
      SlotStep(c, frames, k);
    }
  }

  /** After the lead-in the step extends the slot under assembly, and reports it when it is whole. */
  lemma SlotStep(c: Context, frames: seq<i16>, k: nat)
    requires Lead(c) <= k
    ensures var step := OutputStep(c, AccumulatorAfter(c, frames, k), k, TickSample(frames, c.rate, k));
            && step.0 == AccumulatorAfter(c, frames, k + 1)
            && EventsUpTo(c, frames, k) + step.1 == EventsUpTo(c, frames, k + 1)
  {
    hide TickSample, SlotTick, SlotMapping, Lead, Withdrawn;
    SlotOfTick(c, k);
    SlotGrowth(c, frames, k);
    var start := WindowStart(c, WindowCount(c, k));
    TicksSnoc(frames, c.rate, start, k - start);
    assert Ticks(frames, c.rate, start, 0) == [];
  }

  // ---------------------------------------------------------------------
  // Feeding a batch
  // ---------------------------------------------------------------------

  /** Output tick `k` is due at source position `position`. */
  predicate Reaches(c: Context, k: nat, position: int) {
    k * c.rate <= OUTPUT_RATE_HZ * (position - c.anchor.position)
  }

  /**
   State of one anchor lifetime.  `Feeding` holds every frame since the anchor.  `Halted` is what
   remains after an arithmetic failure that the caller did not follow with an invalidation: output
   stands at a tick that cannot be produced, and nothing is emitted again.
   */
  datatype Run = Feeding(frames: seq<i16>) | Halted(tick: nat, partial: bool)

  /** The first tick in `[lo, hi)` whose slot cannot be opened, or `hi`. */
  function FirstUnmapped(c: Context, lo: nat, hi: nat): (k: nat)
    requires lo <= hi
    ensures lo <= k <= hi
    ensures forall j: nat :: lo <= j < k ==> SlotMapped(c, j)
    ensures k < hi ==> !SlotMapped(c, k)
    decreases hi - lo
  {
    if lo == hi || !SlotMapped(c, lo) then lo else FirstUnmapped(c, lo + 1, hi)
  }

  /** Frames of a batch whose positions are representable. */
  function Representable(position: u64, samples: seq<i16>): nat {
    Min(|samples|, U64_MAX + 1 - position)
  }

  /** Events that `all` adds to those of its prefix `frames`. */
  function NewEvents(c: Context, frames: seq<i16>, all: seq<i16>): (events: seq<TimelineEvent>)
    requires frames <= all
    ensures EventsUpTo(c, frames, TickCount(|frames|, c.rate)) + events
         == EventsUpTo(c, all, TickCount(|all|, c.rate))
  {
    hide EventsUpTo, TickCount;
    EventsGrow(c, frames, all);
    EventsUpTo(c, all, TickCount(|all|, c.rate))[|EventsUpTo(c, frames, TickCount(|frames|, c.rate))|..]
  }

  lemma NewEventsCompose(c: Context, frames: seq<i16>, more: seq<i16>, all: seq<i16>)
    requires frames <= more <= all
    ensures NewEvents(c, frames, all) == NewEvents(c, frames, more) + NewEvents(c, more, all)
  {
    hide EventsUpTo, TickCount;
    var start := EventsUpTo(c, frames, TickCount(|frames|, c.rate));
    var parts := NewEvents(c, frames, more) + NewEvents(c, more, all);
    assert start + parts == start + NewEvents(c, frames, more) + NewEvents(c, more, all);
    assert (start + parts)[|start|..] == parts;
  }

  lemma EventsGrow(c: Context, frames: seq<i16>, all: seq<i16>)
    requires frames <= all
    ensures EventsUpTo(c, frames, TickCount(|frames|, c.rate)) <= EventsUpTo(c, all, TickCount(|all|, c.rate))
  {
    var n := TickCount(|frames|, c.rate);
    assert all == frames + all[|frames|..];
    RunStable(c, frames, all[|frames|..], n);
    TickCountMonotone(|frames|, |all|, c.rate);
    EventsMonotone(c, all, n, TickCount(|all|, c.rate));
  }

  lemma EventsMonotone(c: Context, frames: seq<i16>, m: nat, n: nat)
    requires m <= n
    ensures EventsUpTo(c, frames, m) <= EventsUpTo(c, frames, n)
  {
    hide TickSample, Lead;
    if WindowCount(c, m) > 0 || n <= Lead(c) {
      assert LeadIn(c, m) == LeadIn(c, n);
    }
  }

  /**
   Feeding the first `i` samples of a batch whose first frame has the given position: the run that
   results, and either the new events or `None` for an arithmetic failure.
   */
  function FeedPrefix(c: Context, run: Run, position: u64, samples: seq<i16>, i: nat)
    : (Run, Option<seq<TimelineEvent>>)
    requires i <= |samples|
  {
    match run
    case Feeding(frames) =>
      var all := frames + samples[..i];
      var lo, hi := TickCount(|frames|, c.rate), TickCount(|all|, c.rate);
      TickCountMonotone(|frames|, |all|, c.rate);
      var k := FirstUnmapped(c, lo, hi);
      if k < hi then (Halted(k, false), None) else (Feeding(all), Some(NewEvents(c, frames, all)))
    case Halted(k, _) =>
      (run, if i > 0 && Reaches(c, k, position + i - 1) then None else Some([]))
  }

  lemma FeedNothing(c: Context, run: Run, position: u64, samples: seq<i16>)
    ensures FeedPrefix(c, run, position, samples, 0) == (run, Some([]))
  {
    hide EventsUpTo, TickCount, SlotMapped;
    if run.Feeding? { assert run.frames + samples[..0] == run.frames; }
  }

  /** One more sample, from the state that its predecessors left. */
  lemma FeedPrefixStep(c: Context, run: Run, position: u64, samples: seq<i16>, i: nat)
    requires i < |samples| && position + i <= U64_MAX
    requires FeedPrefix(c, run, position, samples, i).1.Some?
    ensures var before := FeedPrefix(c, run, position, samples, i);
            var step := FeedPrefix(c, before.0, position + i, [samples[i]], 1);
            && FeedPrefix(c, run, position, samples, i + 1)
               == (step.0, if step.1.None? then None else Some(before.1.value + step.1.value))
            && (step.0.Feeding? ==> before.0.Feeding? && |step.0.frames| == |before.0.frames| + 1)
  {
    hide EventsUpTo, TickCount, SlotMapped;
    if run.Feeding? {
      var frames := run.frames;
      assert frames + samples[..i] <= frames + samples[..i + 1];
      NewEventsCompose(c, frames, frames + samples[..i], frames + samples[..i + 1]);
      var lo, mid := TickCount(|frames|, c.rate), TickCount(|frames| + i, c.rate);
      assert FirstUnmapped(c, lo, mid) == mid;
      assert samples[..i + 1] == samples[..i] + [samples[i]];
      assert frames + samples[..i + 1] == (frames + samples[..i]) + [samples[i]];
      assert [samples[i]][..1] == [samples[i]];
      TickCountMonotone(|frames|, |frames| + i, c.rate);
      TickCountMonotone(|frames| + i, |frames| + i + 1, c.rate);
    } else {
      var nothing: seq<TimelineEvent> := [];
      assert nothing + nothing == nothing;
    }
  }

  /** A failure inside a batch is the failure of the batch. */
  lemma FeedPrefixFailure(c: Context, run: Run, position: u64, samples: seq<i16>, i: nat, m: nat)
    requires i <= m <= |samples|
    requires FeedPrefix(c, run, position, samples, i).1.None?
    ensures FeedPrefix(c, run, position, samples, m) == FeedPrefix(c, run, position, samples, i)
  {
    hide EventsUpTo, TickCount, SlotMapped;
    if run.Feeding? {
      TickCountMonotone(|run.frames|, |run.frames| + i, c.rate);
      TickCountMonotone(|run.frames| + i, |run.frames| + m, c.rate);
    }
  }

  /**
   Feeding one whole batch.  Positions past `u64` fail; a run whose next position would leave `u64`
   has no frame left that could make a tick due.
   */
  function FeedBatch(c: Context, run: Run, position: u64, samples: seq<i16>)
    : (Run, Option<seq<TimelineEvent>>)
  {
    var m := Representable(position, samples);
    var (after, events) := FeedPrefix(c, run, position, samples, m);
    if events.None? then (after, None)
    else
      (match after
       case Feeding(all) =>
         if position + |samples| <= U64_MAX then after
         else Halted(TickCount(|all|, c.rate), AccumulatorAfter(c, all, TickCount(|all|, c.rate)).Some?)
       case Halted(_, _) => after,
       if m < |samples| then None else events)
  }

  /** A batch keeps a run alive exactly when its positions are representable and every slot it
      reaches can be opened; the run then holds its frames and emits the difference of closed forms. */
  lemma FeedBatchAlive(c: Context, frames: seq<i16>, position: u64, samples: seq<i16>)
    requires AllMapped(c, TickCount(|frames|, c.rate))
    ensures var fed := FeedBatch(c, Feeding(frames), position, samples);
            && (fed.0.Feeding? <==> position + |samples| <= U64_MAX
                                    && AllMapped(c, TickCount(|frames| + |samples|, c.rate)))
            && (fed.0.Feeding? ==> fed == (Feeding(frames + samples), Some(NewEvents(c, frames, frames + samples))))
  {
    hide EventsUpTo, TickCount, SlotMapped, AccumulatorAfter;
    var m := Representable(position, samples);
    TickCountMonotone(|frames|, |frames| + m, c.rate);
    if position + |samples| <= U64_MAX {
      assert samples[..m] == samples;
    }
  }

  lemma HaltedStays(c: Context, run: Run, position: u64, samples: seq<i16>)
    requires run.Halted?
    ensures FeedBatch(c, run, position, samples).0 == run
    ensures FeedBatch(c, run, position, samples).1 in {None, Some([])}
  {
  }

  /** A batch that ends a run without an error, or finds it ended, reports nothing that a later batch
      could continue: only at the very last representable position do events accompany a halt. */
  lemma FeedBatchQuiet(c: Context, run: Run, position: u64, samples: seq<i16>)
    ensures var fed := FeedBatch(c, run, position, samples);
            fed.0.Halted? && fed.1.Some? && fed.1.value != [] ==> position + |samples| > U64_MAX
  {
  }

  // ---------------------------------------------------------------------
  // What the closed form promises
  // ---------------------------------------------------------------------

  /** Start of the first slot that the run can complete. */
  function FirstSlot(c: Context): nat { (c.AnchorTick() + Lead(c)) / TICKS_PER_MILLI }

  /** The first complete slot is the earliest slot boundary at or after the anchor. */
  lemma FirstSlotIsNext(c: Context)
    ensures FirstSlot(c) % SLOT_MILLIS == 0 && c.anchor.utc <= FirstSlot(c) < c.anchor.utc + SLOT_MILLIS
    ensures c.AnchorTick() + Lead(c) == TICKS_PER_MILLI * FirstSlot(c)
  {
    LeadReachesBoundary(c.AnchorTick());
    var slots := (c.AnchorTick() + Lead(c)) / WINDOW_SAMPLES;
    hide Lead;
    assert c.AnchorTick() + Lead(c) == TICKS_PER_MILLI * (slots * SLOT_MILLIS);
    assert FirstSlot(c) == slots * SLOT_MILLIS;
  }

  /** The distance to the next boundary, from anywhere in a slot. */
  lemma LeadReachesBoundary(t: nat)
    ensures var lead := (WINDOW_SAMPLES - t % WINDOW_SAMPLES) % WINDOW_SAMPLES;
            && 0 <= lead < WINDOW_SAMPLES
            && t + lead == (t + lead) / WINDOW_SAMPLES * WINDOW_SAMPLES
  {
    var (q, r) := (t / WINDOW_SAMPLES, t % WINDOW_SAMPLES);
    assert t == q * WINDOW_SAMPLES + r;
    if r == 0 {
      assert (WINDOW_SAMPLES - r) % WINDOW_SAMPLES == 0;
    } else {
      assert t + (WINDOW_SAMPLES - r) == (q + 1) * WINDOW_SAMPLES;
    }
  }

  /** The boundary frame of a determined tick has a representable position. */
  lemma BoundaryPositionFits(c: Context, n: nat, k: nat)
    requires k < TickCount(n, c.rate) && c.anchor.position + n <= U64_MAX + 1
    ensures c.anchor.position + SourceDelta(c, c.AnchorTick() + k) <= U64_MAX
  {
    TickDue(n, c.rate, k);
    SourceDeltaForward(c, c.AnchorTick() + k);
  }

  lemma WindowSlotStart(c: Context, i: nat)
    ensures (c.AnchorTick() + WindowStart(c, i)) / TICKS_PER_MILLI == FirstSlot(c) + i * SLOT_MILLIS
    ensures (FirstSlot(c) + i * SLOT_MILLIS) % SLOT_MILLIS == 0
  {
    FirstSlotIsNext(c);
    hide FirstSlot, Lead;
    assert c.AnchorTick() + WindowStart(c, i) == TICKS_PER_MILLI * (FirstSlot(c) + i * SLOT_MILLIS);
  }

  /** Window `i` of a run passes its constructor's checks, names slot `i` after the first, and maps the
      slot boundary by the anchor's own UTC-minus-monotonic offset. */
  lemma WindowIdentity(c: Context, frames: seq<i16>, i: nat)
    requires AllMapped(c, TickCount(|frames|, c.rate))
    requires i < WindowCount(c, TickCount(|frames|, c.rate))
    requires c.anchor.position + |frames| <= U64_MAX + 1
    ensures var w := WindowAt(c, frames, i);
            && w.Valid()
            && w.slotStartUtc == FirstSlot(c) + i * SLOT_MILLIS
            && w.mapping.utc == w.slotStartUtc
            && w.mapping.monotonic - w.mapping.utc == c.anchor.monotonic - c.anchor.utc
            && w.mapping.position == c.anchor.position + SourceDelta(c, c.AnchorTick() + WindowStart(c, i))
  {
    var k := WindowStart(c, i);
    var t := c.AnchorTick() + k;
    BoundaryPositionFits(c, |frames|, k);
    WindowStartsSlot(c, i);
    WindowSlotStart(c, i);
    assert k < TickCount(|frames|, c.rate) by { hide TickCount; }
    assert t % WINDOW_SAMPLES == 0;
    hide TickCount, SourceDelta, TickSample, MappingForTick, Lead, SlotTick, FirstSlot;
    assert SlotMapped(c, k);
    ForwardMapping(c, t);
  }

  /** In milliseconds and frames: window `i` holds the 180,000 samples of a 15-second slot at or after the anchor,
      and its boundary lies as many source frames after the anchor as that time lasts. */
  lemma WindowPlace(c: Context, frames: seq<i16>, i: nat)
    requires AllMapped(c, TickCount(|frames|, c.rate))
    requires i < WindowCount(c, TickCount(|frames|, c.rate))
    requires c.anchor.position + |frames| <= U64_MAX + 1
    ensures var w := WindowAt(c, frames, i);
            && w.slotStartUtc % 15_000 == 0 && |w.samples| == 180_000
            && i * 15_000 <= w.slotStartUtc - c.anchor.utc < (i + 1) * 15_000
            && w.mapping.position == c.anchor.position + (w.slotStartUtc - c.anchor.utc) * c.rate / 1_000
            && w.processGeneration == c.processGeneration && w.streamGeneration == c.streamGeneration
  {
    WindowIdentity(c, frames, i);
    WindowSlotStart(c, i);
    FirstSlotIsNext(c);
    var slot := FirstSlot(c) + i * SLOT_MILLIS;
    hide TickCount, SourceDelta, MappingForTick, Lead, SlotTick, FirstSlot, SlotMapping, SlotMapped, WindowCount;
    assert c.AnchorTick() + WindowStart(c, i) == TICKS_PER_MILLI * slot;
    SourceDeltaMillis(c, slot, c.AnchorTick() + WindowStart(c, i));
  }

  /** Sample `j` of window `i` is the tick `j` twelfths of a millisecond after the start of its slot. */
  lemma WindowSample(c: Context, frames: seq<i16>, i: nat, j: nat)
    requires j < 180_000
    ensures var w := WindowAt(c, frames, i);
            && c.anchor.utc <= w.slotStartUtc
            && w.samples[j] == TickSample(frames, c.rate, 12 * (w.slotStartUtc - c.anchor.utc) + j)
  {
    WindowSlotStart(c, i);
    FirstSlotIsNext(c);
    hide TickSample, Lead, FirstSlot, SlotMapping;
  }

  /** Source frames to a boundary at or after the anchor, from its milliseconds. */
  lemma SourceDeltaMillis(c: Context, slot: nat, slotTick: nat)
    requires c.anchor.utc <= slot && slotTick == TICKS_PER_MILLI * slot
    ensures SourceDelta(c, slotTick) == (slot - c.anchor.utc) * c.rate / 1_000
  {
    SourceDeltaForward(c, slotTick);
    var x := (slot - c.anchor.utc) * c.rate;
    assert (slotTick - c.AnchorTick()) * c.rate == 12 * x by { ScaledByTicks(slot - c.anchor.utc, c.rate); }
    assert 12 * x / 12_000 == x / 1_000;
  }

  lemma ScaledByTicks(a: int, c: int)
    ensures (12 * a) * c == 12 * (a * c)
  {
  }

  /** Every output tick ends up in exactly one place: a window, the withheld lead-in, or the slot under
      assembly. */
  lemma TickConservation(c: Context, frames: seq<i16>, n: nat)
    ensures var active := AccumulatorAfter(c, frames, n);
            n == WindowCount(c, n) * WINDOW_SAMPLES
                 + (if LeadIn(c, n) == [] then 0 else LeadIn(c, n)[0].slot.accumulatedSamples)
                 + (if active.Some? then |active.value.samples| else 0)
  {
    hide TickSample;
  }

  /** At most one incomplete slot, only before every window, and always because capture started late. */
  lemma EventShape(c: Context, frames: seq<i16>, n: nat, e: nat)
    requires e < |EventsUpTo(c, frames, n)|
    ensures var events := EventsUpTo(c, frames, n);
            var skipped := |events| - WindowCount(c, n);
            && skipped in {0, 1}
            && (events[e].Incomplete? <==> e < skipped)
            && (events[e].Incomplete? ==>
                  var into := c.anchor.utc % 15_000;
                  events[e].slot == IncompleteSlot(c.anchor.utc - into, CaptureStartedLate, 12 * (15_000 - into)))
            && (events[e].Window? ==> events[e].window == WindowAt(c, frames, e - skipped))
  {
    LeadInArithmetic(c);
    hide WindowAt, Lead, SlotTickOf;
  }

  /** The slot that contains the anchor, and the ticks from the anchor to its end, in milliseconds of UTC. */
  lemma LeadInArithmetic(c: Context)
    ensures var into := c.anchor.utc % 15_000;
            && SlotTickOf(c, 0) == 12 * (c.anchor.utc - into)
            && Lead(c) == (if into == 0 then 0 else 12 * (15_000 - into))
  {
    var (slots, into) := (c.anchor.utc / 15_000, c.anchor.utc % 15_000);
    assert c.AnchorTick() == slots * WINDOW_SAMPLES + 12 * into;
    assert c.AnchorTick() / WINDOW_SAMPLES == slots && c.AnchorTick() % WINDOW_SAMPLES == 12 * into;
  }

  /** After `n` ticks a slot is under assembly: output stands inside one, or at the end of the one the capture started
      in. */
  predicate UnderAssembly(c: Context, n: nat) {
    var into := c.anchor.utc % 15_000;
    var lead := if into == 0 then 0 else 12 * (15_000 - into);
    n > 0 && (n <= lead || (n - lead) % 180_000 != 0)
  }

  /** Where a live run stops: at the first due tick whose slot cannot be opened, with nothing under assembly; or, with all
      of them opened, at the last position there is, with what is then under assembly.  Events survive only if the
      batch ends exactly there. */
  lemma HaltVerdict(c: Context, frames: seq<i16>, position: u64, samples: seq<i16>)
    requires FeedBatch(c, Feeding(frames), position, samples).0.Halted?
    ensures var ((k, partial), out) := ((FeedBatch(c, Feeding(frames), position, samples).0.tick,
                                         FeedBatch(c, Feeding(frames), position, samples).0.partial),
                                        FeedBatch(c, Feeding(frames), position, samples).1);
            var n := Min(|samples|, 0x1_0000_0000_0000_0000 - position);
            var (from, to) := (TickCount(|frames|, c.rate), TickCount(|frames| + n, c.rate));
            if exists j :: from <= j < to && !SlotMapped(c, j) then
              && from <= k < to && !SlotMapped(c, k) && (forall j | from <= j < k :: SlotMapped(c, j))
              && !partial && out.None?
            else
              && position + |samples| > U64_MAX && k == to && (partial <==> UnderAssembly(c, k))
              && (out.Some? <==> position + |samples| == 0x1_0000_0000_0000_0000)
  {
    LeadInArithmetic(c);
    var n := Representable(position, samples);
    assert |frames + samples[..n]| == |frames| + n;
    TickCountMonotone(|frames|, |frames| + n, c.rate);
    hide TickCount, Lead, SlotMapping, Ticks, SlotMapped, EventsUpTo;
  }

  /** A run that has stopped fails exactly on a batch that reaches its tick or leaves 64 bits. */
  lemma StoppedVerdict(c: Context, run: Run, position: u64, samples: seq<i16>)
    requires run.Halted?
    ensures var n := Min(|samples|, 0x1_0000_0000_0000_0000 - position);
            && FeedBatch(c, run, position, samples).0 == run
            && (FeedBatch(c, run, position, samples).1.None? <==>
                  || position + |samples| > 0x1_0000_0000_0000_0000
                  || (n > 0 && run.tick * c.rate <= 12_000 * (position + n - 1 - c.anchor.position)))
  {
  }

  /** One batch of at most 8,192 frames spans less than one slot of output, at every supported rate. */
  lemma BatchSpan(n: nat, m: nat, rate: Rate)
    requires m <= MAX_BATCH_FRAMES
    ensures TickCount(n, rate) <= TickCount(n + m, rate) < TickCount(n, rate) + WINDOW_SAMPLES
  {
    TickCountMonotone(n, n + m, rate);
    if n + m > 0 {
      var (a, b) := (TickCount(n, rate), TickCount(n + m, rate));
      TickDue(n + m, rate, b - 1);
      if n > 0 { TickDue(n, rate, a); }
      if b - 1 >= a {
        assert (b - 1 - a) * rate <= OUTPUT_RATE_HZ * m by { ProductDifference(b - 1, a, rate); }
        ProductMonotone(MIN_RATE_HZ, rate, b - 1 - a);
      }
    }
  }

  /** So a batch yields at most one event. */
  lemma AtMostOneEvent(c: Context, frames: seq<i16>, samples: seq<i16>)
    requires |samples| <= MAX_BATCH_FRAMES
    ensures |NewEvents(c, frames, frames + samples)| <= 1
  {
    BatchSpan(|frames|, |samples|, c.rate);
    hide TickCount, WindowAt, NewEvents;
    var (m, n) := (TickCount(|frames|, c.rate), TickCount(|frames + samples|, c.rate));
    assert |EventsUpTo(c, frames + samples, n)| == |EventsUpTo(c, frames, m)| + |NewEvents(c, frames, frames + samples)|;
  }

  // ---------------------------------------------------------------------
  // When every slot of a run can be opened
  // ---------------------------------------------------------------------

  /** The slot the capture started in can be opened: either its boundary precedes the first source
      position, or the monotonic clock reaches back to it. */
  predicate FirstSlotOpens(c: Context) {
    var into := c.anchor.utc % 15_000;
    c.anchor.position < into * c.rate / 1_000 || into <= c.anchor.monotonic
  }

  /** The last of `n` ticks falls into a slot whose start has a representable UTC, monotonic time and distance in
      frames. */
  predicate LastSlotFits(c: Context, n: nat) {
    n > 0 ==>
      var start := (12 * c.anchor.utc + n - 1) / 180_000 * 15_000;
      && start <= I64_MAX
      && c.anchor.monotonic + (start - c.anchor.utc) <= U64_MAX
      && (start - c.anchor.utc) * c.rate / 1_000 <= I64_MAX
  }

  /** The same two conditions in output ticks. */
  predicate FirstTickOpens(c: Context) {
    var start := SlotTickOf(c, 0);
    c.anchor.position + SourceDelta(c, start) < 0 || c.anchor.utc - start / TICKS_PER_MILLI <= c.anchor.monotonic
  }

  predicate LastTickFits(c: Context, n: nat) {
    n > 0 ==>
      var start := SlotTickOf(c, n - 1);
      && start / TICKS_PER_MILLI <= I64_MAX
      && c.anchor.monotonic + start / TICKS_PER_MILLI - c.anchor.utc <= U64_MAX
      && SourceDelta(c, start) <= I64_MAX
  }

  lemma FirstTickInMillis(c: Context)
    ensures FirstTickOpens(c) <==> FirstSlotOpens(c)
  {
    LeadInArithmetic(c);
    var into := c.anchor.utc % 15_000;
    hide SlotTickOf;
    assert (SlotTickOf(c, 0) - c.AnchorTick()) * c.rate == -12 * (into * c.rate) by {
      assert SlotTickOf(c, 0) - c.AnchorTick() == -(12 * into);
      ProductNegation(12 * into, c.rate);
      ScaledByTicks(into, c.rate);
    }
    ProductMonotone(0, into, c.rate);
    assert 12 * (into * c.rate) / 12_000 == into * c.rate / 1_000;
  }

  lemma LastTickInMillis(c: Context, n: nat)
    ensures LastTickFits(c, n) <==> LastSlotFits(c, n)
  {
    if n > 0 {
      var start := (12 * c.anchor.utc + n - 1) / 180_000 * 15_000;
      assert SlotTickOf(c, n - 1) == 12 * start;
      assert 12 * start / TICKS_PER_MILLI == start;
      if c.anchor.utc <= start {
        SourceDeltaMillis(c, start, 12 * start);
      } else {
        SlotTickBounds(c.AnchorTick() + n - 1);
        SourceDeltaBackward(c, 12 * start);
        ProductMonotone(0, c.anchor.utc - start, c.rate);
        ProductNegation(c.anchor.utc - start, c.rate);
      }
      hide SourceDelta, SlotTickOf;
    }
  }

  lemma SlotTickBounds(t: nat)
    ensures SlotTick(t) <= t < SlotTick(t) + WINDOW_SAMPLES && SlotTick(t) % WINDOW_SAMPLES == 0
  {
  }

  lemma SlotTickMonotone(t: nat, u: nat)
    requires t <= u
    ensures SlotTick(t) <= SlotTick(u)
  {
  }

  /** Before the anchor the offset is at most one slot of frames. */
  lemma SourceDeltaBackward(c: Context, slotTick: nat)
    requires slotTick <= c.AnchorTick() < slotTick + WINDOW_SAMPLES
    ensures -6_000_000 <= SourceDelta(c, slotTick) <= 0
  {
    var d := c.AnchorTick() - slotTick;
    ProductNegation(d, c.rate);
    ProductMonotone(d, WINDOW_SAMPLES, c.rate);
    ProductMonotone(0, d, c.rate);
    ProductMonotone(c.rate, MAX_RATE_HZ, WINDOW_SAMPLES);
  }

  lemma SourceDeltaMonotone(c: Context, s: nat, t: nat)
    requires c.AnchorTick() <= s <= t
    ensures 0 <= SourceDelta(c, s) <= SourceDelta(c, t)
  {
    SourceDeltaForward(c, s);
    SourceDeltaForward(c, t);
    ProductMonotone(s - c.AnchorTick(), t - c.AnchorTick(), c.rate);
  }

  /** A slot that starts before the anchor opens exactly when the first one does. */
  lemma EarlySlot(c: Context, k: nat)
    requires SlotTickOf(c, k) < c.AnchorTick()
    ensures SlotTickOf(c, k) == SlotTickOf(c, 0)
    ensures SlotMapped(c, k) <==> FirstSlotOpens(c)
    ensures LastTickFits(c, k + 1)
  {
    SlotTickBounds(c.AnchorTick());
    SlotTickBounds(c.AnchorTick() + k);
    SlotTickMonotone(c.AnchorTick(), c.AnchorTick() + k);
    assert SlotTickOf(c, k) == SlotTickOf(c, 0);
    SourceDeltaBackward(c, SlotTickOf(c, 0));
    FirstTickInMillis(c);
    hide SourceDelta, SlotTick, FirstSlotOpens;
  }

  /** A slot that starts at or after the anchor opens exactly when its boundary is representable. */
  lemma LateSlot(c: Context, n: nat, k: nat)
    requires c.AnchorTick() <= SlotTickOf(c, k) && k < TickCount(n, c.rate) && c.anchor.position + n <= U64_MAX + 1
    ensures SlotMapped(c, k) <==> LastTickFits(c, k + 1)
  {
    var start := SlotTickOf(c, k);
    SlotTickBounds(c.AnchorTick() + k);
    BoundaryPositionFits(c, n, k);
    SourceDeltaMonotone(c, start, c.AnchorTick() + k);
    hide SourceDelta, TickCount, SlotTick;
  }

  lemma FitsBefore(c: Context, n: nat, k: nat)
    requires k < n && LastTickFits(c, n) && c.AnchorTick() <= SlotTickOf(c, k)
    ensures LastTickFits(c, k + 1)
  {
    SlotTickMonotone(c.AnchorTick() + k, c.AnchorTick() + n - 1);
    SourceDeltaMonotone(c, SlotTickOf(c, k), SlotTickOf(c, n - 1));
    hide SourceDelta, SlotTick;
  }

  lemma AlignedStartOpens(c: Context)
    requires SlotTickOf(c, 0) >= c.AnchorTick()
    ensures FirstTickOpens(c)
  {
    SlotTickBounds(c.AnchorTick());
  }

  /** A run can open every slot it reaches exactly when it can open the first and the last. */
  lemma AllMappedIffEndsFit(c: Context, n: nat)
    requires n > 0 && c.anchor.position + n <= U64_MAX + 1
    ensures AllMapped(c, TickCount(n, c.rate)) <==> FirstSlotOpens(c) && LastSlotFits(c, TickCount(n, c.rate))
  {
    var ticks := TickCount(n, c.rate);
    assert ticks > 0;
    FirstTickInMillis(c);
    LastTickInMillis(c, ticks);
    hide SlotMapped, FirstTickOpens, LastTickFits, TickCount, SlotTickOf, FirstSlotOpens, LastSlotFits;
    if AllMapped(c, ticks) {
      assert SlotMapped(c, 0) && SlotMapped(c, ticks - 1);
      if SlotTickOf(c, 0) < c.AnchorTick() { EarlySlot(c, 0); } else { AlignedStartOpens(c); }
      if SlotTickOf(c, ticks - 1) < c.AnchorTick() { EarlySlot(c, ticks - 1); } else { LateSlot(c, n, ticks - 1); }
    }
    if FirstTickOpens(c) && LastTickFits(c, ticks) {
      forall k: nat | k < ticks
        ensures SlotMapped(c, k)
      {
        if SlotTickOf(c, k) < c.AnchorTick() {
          EarlySlot(c, k);
        } else {
          FitsBefore(c, ticks, k);
          LateSlot(c, n, k);
        }
      }
    }
  }
}
