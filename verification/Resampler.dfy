/**
 The streaming resampler of `crates/audio/src/timeline.rs`: one previous source
 sample, the next output tick and one slot under assembly.
 */
module StreamingResampler {
  import opened Numeric
  import opened Audio
  import opened Resampling

  class RationalResampler {
    const context: Context
    var nextOutputTick: nat
    var previous: Option<(nat, i16)>
    var active: Option<Accumulator>
    ghost var run: Run

    /** The fields hold exactly what the closed form prescribes after `k` ticks of `frames`. */
    ghost predicate At(frames: seq<i16>, k: nat)
      reads this
    {
      && nextOutputTick == context.AnchorTick() + k
      && active == AccumulatorAfter(context, frames, k)
      && AllMapped(context, k)
    }

    ghost predicate Previous(frames: seq<i16>)
      reads this
    {
      previous == if frames == [] then None else Some((|frames| - 1, frames[|frames| - 1]))
    }

    /** A halted resampler stands at a tick that no later frame can make it emit. */
    ghost predicate HaltedAt(k: nat, partial: bool)
      reads this
    {
      && nextOutputTick == context.AnchorTick() + k
      && previous.Some?
      && (OUTPUT_RATE_HZ * previous.value.0 < k * context.rate || (k == 0 && previous.value.0 == 0))
      && active.Some? == partial
      && (partial ==> active.value.samples != [])
      && ((!SlotMapped(context, k) && !partial) || !Reaches(context, k, U64_MAX))
    }

    ghost predicate Valid()
      reads this
    {
      match run
      case Feeding(frames) => At(frames, TickCount(|frames|, context.rate)) && Previous(frames)
      case Halted(k, partial) => HaltedAt(k, partial)
    }

    constructor (context: Context)
      ensures Valid() && run == Feeding([]) && this.context == context
    {
      this.context := context;
      nextOutputTick := context.AnchorTick();
      previous := None;
      active := None;
      run := Feeding([]);
    }

    /** Appends one output sample to its slot; fails exactly when a slot must be opened that has no
        representable mapping. */
    method PushOutput(sample: i16) returns (r: Result<seq<TimelineEvent>, TimelineError>)
      requires nextOutputTick >= context.AnchorTick()
      requires active.Some? ==> Aligned(active.value)
      modifies this`active
      ensures var k := nextOutputTick - context.AnchorTick();
              var opens := old(active).None? || old(active).value.slotTick != SlotTickOf(context, k);
              if opens && !SlotMapped(context, k) then r == Err(ArithmeticOverflow) && active == None
              else r == Ok(OutputStep(context, old(active), k, sample).1)
                   && active == OutputStep(context, old(active), k, sample).0
    {
      hide MappingForTick, SourceDelta;
      var slotTick := SlotTick(nextOutputTick);
      var events := [];
      if active.None? || active.value.slotTick != slotTick {
        if active.Some? {
          events := Withdrawn(active.value);
        }
        active := None;
        var mapping := MappingForTick(context, slotTick);
        if mapping.Err? || !FitsI64(slotTick / TICKS_PER_MILLI) {
          return Err(ArithmeticOverflow);
        }
        active := Some(Accumulator(slotTick, nextOutputTick, mapping.value, []));
      }
      var slot := active.value;
      active := Some(slot.(samples := slot.samples + [sample]));
      if |active.value.samples| == WINDOW_SAMPLES {
        var complete := active.value;
        active := None;
        var window := ReceiveWindow(context.processGeneration, context.streamGeneration,
                                    complete.slotTick / TICKS_PER_MILLI, complete.mapping, complete.samples);
        assert window.Valid();
        events := events + [Window(window)];
      }
      r := Ok(events);
    }

    /** The output sample at the next tick, between the previous and the current source frame. */
    method InterpolateNext(delta: nat, sample: i16) returns (r: Result<i16, TimelineError>)
      requires nextOutputTick >= context.AnchorTick() && previous.Some?
      ensures var k := nextOutputTick - context.AnchorTick();
              r == if k * context.rate < OUTPUT_RATE_HZ * previous.value.0 then Err(OutOfOrder)
                   else if delta == previous.value.0 then Ok(previous.value.1)
                   else Interpolate(previous.value.1, sample, k * context.rate - OUTPUT_RATE_HZ * previous.value.0,
                                    OUTPUT_RATE_HZ * delta - OUTPUT_RATE_HZ * previous.value.0)
    {
      var target := (nextOutputTick - context.AnchorTick()) * context.rate;
      var (previousDelta, previousSample) := previous.value;
      var previousTick := OUTPUT_RATE_HZ * previousDelta;
      if target < previousTick {
        return Err(OutOfOrder);
      }
      if delta == previousDelta {
        return Ok(previousSample);
      }
      r := Interpolate(previousSample, sample, target - previousTick, OUTPUT_RATE_HZ * delta - previousTick);
    }

    /** Between two output ticks of one frame: `frame` is being consumed at distance `delta`. */
    ghost predicate Consuming(delta: nat, sample: i16)
      reads this
    {
      && nextOutputTick >= context.AnchorTick()
      && var k := nextOutputTick - context.AnchorTick();
      match run
      case Feeding(before) =>
        && delta == |before| && At(before + [sample], k)
        && TickCount(|before|, context.rate) <= k <= TickCount(|before| + 1, context.rate)
        && previous == Some(if before == [] then (0, sample) else (delta - 1, before[delta - 1]))
      case Halted(tick, partial) => tick == k && HaltedAt(tick, partial)
    }

    /** In either state the next due tick can be interpolated; while feeding it is the closed form. */
    lemma NextTickValue(delta: nat, sample: i16)
      requires Consuming(delta, sample)
      requires (nextOutputTick - context.AnchorTick()) * context.rate <= OUTPUT_RATE_HZ * delta
      ensures var k := nextOutputTick - context.AnchorTick();
              var q := previous.value.0;
              && OUTPUT_RATE_HZ * q <= k * context.rate
              && (OUTPUT_RATE_HZ * q < k * context.rate || (k == 0 && q == 0))
              && (delta != q ==>
                    var v := Interpolate(previous.value.1, sample, k * context.rate - OUTPUT_RATE_HZ * q,
                                         OUTPUT_RATE_HZ * delta - OUTPUT_RATE_HZ * q);
                    v.Ok? && (run.Feeding? ==> v.value == TickSample(run.frames + [sample], context.rate, k)))
              && (delta == q && run.Feeding? ==> previous.value.1 == TickSample(run.frames + [sample], context.rate, k))
    {
      hide Interpolate, TickSample, TickCount, RationalResampler.At, SlotMapped, Reaches;
      var k := nextOutputTick - context.AnchorTick();
      if run.Feeding? {
        TickAtFrame(run.frames + [sample], context.rate, k, delta);
      } else if delta != previous.value.0 {
        var q := previous.value.0;
        InterpolateTotal(previous.value.1, sample, k * context.rate - OUTPUT_RATE_HZ * q,
                         OUTPUT_RATE_HZ * delta - OUTPUT_RATE_HZ * q);
      }
    }

    /** Emits the next due tick. */
    method EmitTick(delta: nat, sample: i16) returns (r: Result<seq<TimelineEvent>, TimelineError>)
      requires Consuming(delta, sample)
      requires (nextOutputTick - context.AnchorTick()) * context.rate <= OUTPUT_RATE_HZ * delta
      requires context.anchor.position + delta <= U64_MAX
      modifies this
      ensures var k := old(nextOutputTick) - context.AnchorTick();
              match old(run)
              case Feeding(before) =>
                var all := before + [sample];
                if SlotMapped(context, k) then
                  && Consuming(delta, sample) && run == old(run) && nextOutputTick == old(nextOutputTick) + 1
                  && r.Ok? && EventsUpTo(context, all, k) + r.value == EventsUpTo(context, all, k + 1)
                else r == Err(ArithmeticOverflow) && run == Halted(k, false) && Valid()
              case Halted(_, _) => r == Err(ArithmeticOverflow) && run == old(run) && Valid()
    {
      hide EventsUpTo, AccumulatorAfter, TickSample, Interpolate, OutputStep, SlotMapped;
      ghost var k := nextOutputTick - context.AnchorTick();
      NextTickValue(delta, sample);
      var value := InterpolateNext(delta, sample);
      if run.Feeding? {
        TickDue(|run.frames| + 1, context.rate, k);
        AccumulatorAligned(context, run.frames + [sample], k);
        OutputStepClosedForm(context, run.frames + [sample], k);
      }
      r := PushOutput(value.value);
      if r.Err? {
        if run.Feeding? {
          run := Halted(k, false);
        }
      } else {
        nextOutputTick := nextOutputTick + 1;
      }
    }

    /** Consumes one source frame, emitting every output tick that it makes due. */
    method PushSample(position: u64, sample: i16) returns (r: Result<seq<TimelineEvent>, TimelineError>)
      requires Valid() && context.anchor.position <= position
      requires run.Feeding? ==> position == context.anchor.position + |run.frames|
      modifies this
      ensures Valid()
      ensures var (after, events) := FeedPrefix(context, old(run), position, [sample], 1);
              && run == after
              && r == if events.Some? then Ok(events.value) else Err(ArithmeticOverflow)
    {
      hide EventsUpTo, AccumulatorAfter, TickSample, SlotMapped;
      var delta := position - context.anchor.position;
      ghost var frames := if run.Feeding? then run.frames else [];
      ghost var all := frames + [sample];
      ghost var lo, hi := TickCount(|frames|, context.rate), TickCount(|all|, context.rate);
      TickCountMonotone(|frames|, |all|, context.rate);
      RunStable(context, frames, [sample], lo);
      assert [sample][..1] == [sample];
      ghost var stop := FirstUnmapped(context, lo, hi);
      if previous.None? {
        previous := Some((delta, sample));
      }
      var events := [];
      while (nextOutputTick - context.AnchorTick()) * context.rate <= OUTPUT_RATE_HZ * delta
        invariant Consuming(delta, sample) && run == old(run)
        invariant run.Halted? ==> events == []
        invariant run.Feeding? ==> nextOutputTick - context.AnchorTick() <= stop
        invariant run.Feeding? ==>
                    EventsUpTo(context, all, lo) + events == EventsUpTo(context, all, nextOutputTick - context.AnchorTick())
        decreases OUTPUT_RATE_HZ * delta - (nextOutputTick - context.AnchorTick()) * context.rate
      {
        ghost var k := nextOutputTick - context.AnchorTick();
        if run.Feeding? { TickDue(|all|, context.rate, k); }
        var step := EmitTick(delta, sample);
        if step.Err? {
          return step;
        }
        events := events + step.value;
        ProductStep(k, context.rate);
      }
      previous := Some((delta, sample));
      if run.Feeding? {
        TickDue(|all|, context.rate, nextOutputTick - context.AnchorTick());
        run := Feeding(all);
      }
      r := Ok(events);
    }

    /** Once every representable position is consumed, a feeding resampler can emit nothing more. */
    lemma Exhausted()
      requires Valid() && run.Feeding? && run.frames != []
      requires context.anchor.position + |run.frames| == U64_MAX + 1
      ensures HaltedAt(TickCount(|run.frames|, context.rate), active.Some?)
    {
      var k := TickCount(|run.frames|, context.rate);
      TickDue(|run.frames|, context.rate, k);
      AccumulatorAligned(context, run.frames, k);
    }

    /** Consumes the frames of one batch in order. */
    method PushBatch(position: u64, samples: seq<i16>) returns (r: Result<seq<TimelineEvent>, TimelineError>)
      requires Valid() && samples != [] && context.anchor.position <= position
      requires run.Feeding? ==> position == context.anchor.position + |run.frames|
      modifies this
      ensures Valid()
      ensures var (after, events) := FeedBatch(context, old(run), position, samples);
              && run == after
              && r == if events.Some? then Ok(events.value) else Err(ArithmeticOverflow)
    {
      hide EventsUpTo, AccumulatorAfter, SlotMapped, TickCount, FeedPrefix;
      ghost var start := run;
      FeedNothing(context, run, position, samples);
      var events := [];
      var index := 0;
      while index < |samples|
        invariant 0 <= index <= Representable(position, samples) && Valid()
        invariant (run, Some(events)) == FeedPrefix(context, start, position, samples, index)
        invariant run.Feeding? ==> position + index == context.anchor.position + |run.frames|
      {
        if position + index > U64_MAX {
          if run.Feeding? {
            Exhausted();
            run := Halted(TickCount(|run.frames|, context.rate), active.Some?);
          }
          return Err(ArithmeticOverflow);
        }
        FeedPrefixStep(context, start, position, samples, index);
        var step := PushSample(position + index, samples[index]);
        if step.Err? {
          FeedPrefixFailure(context, start, position, samples, index + 1, Representable(position, samples));
          return step;
        }
        events := events + step.value;
        index := index + 1;
      }
      if run.Feeding? && position + |samples| > U64_MAX {
        Exhausted();
        run := Halted(TickCount(|run.frames|, context.rate), active.Some?);
      }
      r := Ok(events);
    }
  }
}
