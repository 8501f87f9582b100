/**
 Whole runs of the timeline: what every window is made of, over every sequence
 of batches that a caller may push.
 */
module TimelineRuns {
  import opened Numeric
  import opened Audio
  import opened Resampling
  import opened Timeline
  import opened TimelineChecks

  datatype Input = Input(batch: CaptureBatch, now: u64)

  function StateAfter(start: State, inputs: seq<Input>): State {
    if inputs == [] then start
    else
      var last := inputs[|inputs| - 1];
      Push(StateAfter(start, inputs[..|inputs| - 1]), last.batch, last.now).0
  }

  /** Outcome of the last push. */
  function LastResult(start: State, inputs: seq<Input>): Result<seq<TimelineEvent>, TimelineError>
    requires inputs != []
  {
    var last := inputs[|inputs| - 1];
    Push(StateAfter(start, inputs[..|inputs| - 1]), last.batch, last.now).1
  }

  /** Source frames of the timeline's own batches from index `i` on. */
  function FramesFrom(start: State, inputs: seq<Input>, i: nat): seq<i16> {
    if |inputs| <= i then []
    else
      var b := inputs[|inputs| - 1].batch;
      FramesFrom(start, inputs[..|inputs| - 1], i) + if Foreign(start, b) then [] else b.samples
  }

  /** Events reported by the pushes from index `i` on. */
  function EventsFrom(start: State, inputs: seq<Input>, i: nat): seq<TimelineEvent> {
    if |inputs| <= i then []
    else
      var r := LastResult(start, inputs);
      EventsFrom(start, inputs[..|inputs| - 1], i) + if r.Ok? then r.value else []
  }

  /** Index of the batch that established the current anchor. */
  function Origin(start: State, inputs: seq<Input>): nat {
    if inputs == [] then 0
    else
      var before := inputs[..|inputs| - 1];
      if StateAfter(start, before).stage.Unanchored? then |before| else Origin(start, before)
  }

  /** The UTC evidence of a batch is close to the UTC that the output grid gives its first frame. */
  predicate LabelWithinTolerance(anchor: TimeEvidence, rate: Rate, e: TimeEvidence) {
    && anchor.position <= e.position
    && var elapsed := FrameMillis(e.position - anchor.position, rate);
       var jitter := e.monotonic - anchor.monotonic - elapsed;
       && Abs(e.utc - (anchor.utc + elapsed)) <= MAX_JITTER_MILLIS + MAX_REMAP_MILLIS
       && (elapsed >= 1_000 ==> Abs(jitter) * 1_000_000 < (MAX_DRIFT_PPM + 1) * elapsed)
  }

  lemma TruncDivBound(a: int, d: nat, bound: nat)
    requires d > 0 && Abs(TruncDiv(a, d)) <= bound
    ensures Abs(a) < (bound + 1) * d
  {
    DivisionIdentity(Abs(a), d);
    ProductMonotone(Abs(a) / d, bound, d);
    ProductStep(bound, d);
  }

  /** Any batch that passes the mapping checks carries a label within the documented tolerances. */
  lemma AcceptedLabel(rate: Rate, last: Option<u64>, h: Health, anchor: TimeEvidence, e: TimeEvidence)
    requires MappingCheck(rate, last, h, anchor, e).1.None?
    ensures LabelWithinTolerance(anchor, rate, e)
  {
    var elapsed := FrameMillis(e.position - anchor.position, rate);
    var jitter := e.monotonic - anchor.monotonic - elapsed;
    hide FrameMillis;
    assert e.utc - (anchor.utc + elapsed) == jitter + Remap(anchor, e);
    if elapsed >= 1_000 {
      hide TruncDiv;
      TruncDivBound(jitter * 1_000_000, elapsed, MAX_DRIFT_PPM);
    }
  }

  /** How one push of an own batch can leave a live run, and when it can report events. */
  lemma PushAlive(s: State, b: CaptureBatch, now: u64)
    requires s.Valid() && !Foreign(s, b)
    ensures var (t, r) := Push(s, b, now);
            && (t.stage.Anchored? && t.stage.run.Feeding? ==>
                  && r.Ok?
                  && match s.stage
                     case Unanchored =>
                       && t.stage.anchor == b.first && t.stage.run.frames == b.samples
                       && r.value == NewEvents(s.ContextOf(b.first), [], b.samples)
                     case Anchored(a, run) =>
                       && run.Feeding? && t.stage.anchor == a
                       && b.first.position == a.position + |run.frames|
                       && t.stage.run.frames == run.frames + b.samples
                       && r.value == NewEvents(s.ContextOf(a), run.frames, run.frames + b.samples)
                       && LabelWithinTolerance(a, s.configuration.rate, b.first))
            && (r.Ok? && r.value != [] ==> t.stage.Anchored? && t.stage.run.Feeding?)
            && (r.Err? && t.stage.Anchored? ==> t.stage.run.Halted?)
  {
    hide MappingCheck, EventsUpTo, AccumulatorAfter, SlotMapped, TickCount, IncompleteCount, FeedBatch,
         LabelWithinTolerance;
    match s.stage {
      case Unanchored =>
        NoTicks(s.configuration.rate);
        var nothing: seq<i16> := [];
        assert nothing + b.samples == b.samples;
        FeedBatchAlive(s.ContextOf(b.first), [], b.first.position, b.samples);
        FeedBatchQuiet(s.ContextOf(b.first), Feeding([]), b.first.position, b.samples);
      case Anchored(a, run) =>
        if MappingCheck(s.configuration.rate, s.lastMonotonic, s.health, a, b.first).1.None? {
          AcceptedLabel(s.configuration.rate, s.lastMonotonic, s.health, a, b.first);
        }
        FeedBatchQuiet(s.ContextOf(a), run, b.first.position, b.samples);
        if run.Feeding? {
          FeedBatchAlive(s.ContextOf(a), run.frames, b.first.position, b.samples);
        } else {
          HaltedStays(s.ContextOf(a), run, b.first.position, b.samples);
        }
    }
  }

  lemma PushKeepsIdentity(s: State, b: CaptureBatch, now: u64)
    ensures var t := Push(s, b, now).0;
            && t.configuration == s.configuration
            && t.processGeneration == s.processGeneration && t.streamGeneration == s.streamGeneration
  {
    hide MappingCheck, FeedBatch, HasPartialSlot, IncompleteCount;
  }

  lemma RunKeepsIdentity(start: State, inputs: seq<Input>)
    requires start.Valid()
    ensures var s := StateAfter(start, inputs);
            && s.Valid() && s.configuration == start.configuration
            && s.processGeneration == start.processGeneration && s.streamGeneration == start.streamGeneration
  {
    if inputs != [] {
      var n := |inputs| - 1;
      hide Push;
      RunKeepsIdentity(start, inputs[..n]);
      PushKeepsIdentity(StateAfter(start, inputs[..n]), inputs[n].batch, inputs[n].now);
      PushValid(StateAfter(start, inputs[..n]), inputs[n].batch, inputs[n].now);
    }
  }

  /** Push `j` was either a refused foreign batch or the contiguous, accepted continuation of the run
      that started with batch `i`. */
  ghost predicate Continues(start: State, inputs: seq<Input>, i: nat, j: nat)
    requires i <= j < |inputs|
  {
    var b := inputs[j].batch;
    var a := inputs[i].batch.first;
    Foreign(start, b) ||
    (&& LastResult(start, inputs[..j + 1]).Ok?
     && b.first.position == a.position + |FramesFrom(start, inputs[..j], i)|
     && (i < j ==> LabelWithinTolerance(a, start.configuration.rate, b.first)))
  }

  /** The run held by the timeline is exactly what was pushed since its anchor, gap-free and without a
      rejection, and the events reported since then are exactly its closed form. */
  ghost predicate LiveRun(start: State, inputs: seq<Input>) {
    var s := StateAfter(start, inputs);
    s.stage.Anchored? && s.stage.run.Feeding? ==>
      var i := Origin(start, inputs);
      var frames := FramesFrom(start, inputs, i);
      && i < |inputs| && !Foreign(start, inputs[i].batch)
      && s.stage.anchor == inputs[i].batch.first && s.stage.run.frames == frames
      && (forall j | i <= j < |inputs| :: Continues(start, inputs, i, j))
      && EventsFrom(start, inputs, i)
         == EventsUpTo(start.ContextOf(s.stage.anchor), frames, TickCount(|frames|, start.configuration.rate))
  }

  /** Push `j` of a longer run is push `j` of its prefix. */
  lemma ContinuesStable(start: State, inputs: seq<Input>, i: nat, j: nat)
    requires i <= j < |inputs| - 1
    ensures Continues(start, inputs, i, j) <==> Continues(start, inputs[..|inputs| - 1], i, j)
  {
    hide LastResult, FramesFrom, LabelWithinTolerance;
    var before := inputs[..|inputs| - 1];
    assert before[..j + 1] == inputs[..j + 1] && before[..j] == inputs[..j];
  }

  lemma OriginFirst(start: State, inputs: seq<Input>)
    requires inputs != []
    requires StateAfter(start, inputs[..|inputs| - 1]).stage.Unanchored?
    ensures var n := |inputs| - 1;
            Origin(start, inputs) == n && FramesFrom(start, inputs[..n], n) == [] && EventsFrom(start, inputs[..n], n) == []
  {
  }

  /** In every run of a new timeline, the live run is the closed form of what was pushed. */
  lemma {:induction false} LiveRunAlways(start: State, inputs: seq<Input>)
    requires start.Valid() && start.stage.Unanchored?
    ensures LiveRun(start, inputs)
  {
    if inputs != [] {
      var n := |inputs| - 1;
      var (before, last) := (inputs[..n], inputs[n]);
      LiveRunAlways(start, before);
      RunKeepsIdentity(start, before);
      LiveRunStep(start, inputs);
    }
  }

  lemma LiveRunStep(start: State, inputs: seq<Input>)
    requires inputs != [] && start.Valid() && start.stage.Unanchored?
    requires LiveRun(start, inputs[..|inputs| - 1])
    ensures LiveRun(start, inputs)
  {
    hide Push, EventsUpTo, TickCount, LabelWithinTolerance, NewEvents;
    var n := |inputs| - 1;
    var (before, last) := (inputs[..n], inputs[n]);
    var (s, t) := (StateAfter(start, before), StateAfter(start, inputs));
    RunKeepsIdentity(start, before);
    assert inputs[..n + 1] == inputs;
    if t.stage.Anchored? && t.stage.run.Feeding? {
      var i := Origin(start, inputs);
      var c := start.ContextOf(t.stage.anchor);
      if Foreign(start, last.batch) {
        ForeignIgnored(s, last.batch, last.now);
        assert FramesFrom(start, inputs, i) == FramesFrom(start, before, i);
        assert EventsFrom(start, inputs, i) == EventsFrom(start, before, i);
      } else {
        PushAlive(s, last.batch, last.now);
        if s.stage.Unanchored? {
          OriginFirst(start, inputs);
          NothingYet(c);
          assert FramesFrom(start, inputs, i) == last.batch.samples;
          assert EventsFrom(start, inputs, i) == NewEvents(c, [], last.batch.samples);
          assert [] + NewEvents(c, [], last.batch.samples) == NewEvents(c, [], last.batch.samples);
        } else {
          assert c == s.ContextOf(s.stage.anchor);
        }
      }
      forall j | i <= j < n
        ensures Continues(start, inputs, i, j)
      {
        assert Continues(start, before, i, j);
        ContinuesStable(start, inputs, i, j);
      }
    }
  }

  lemma ForeignIgnored(s: State, b: CaptureBatch, now: u64)
    requires Foreign(s, b)
    ensures Push(s, b, now).0 == s && Push(s, b, now).1.Err?
  {
  }

  lemma NothingYet(c: Context)
    ensures EventsUpTo(c, [], TickCount(0, c.rate)) == []
  {
  }

  /** Window `w` is complete slot number `k` of the gap-free run of own batches that began with batch
      `i`, and nothing was rejected in between. */
  ghost predicate WindowOfRun(start: State, inputs: seq<Input>, i: nat, k: nat, w: ReceiveWindow) {
    && i < |inputs|
    && var c := start.ContextOf(inputs[i].batch.first);
       var frames := FramesFrom(start, inputs, i);
       && (forall j | i <= j < |inputs| :: Continues(start, inputs, i, j))
       && k < WindowCount(c, TickCount(|frames|, c.rate))
       && w == WindowAt(c, frames, k)
       && w.Valid()
       && w.slotStartUtc == FirstSlot(c) + k * SLOT_MILLIS == w.mapping.utc
       && w.mapping.monotonic - w.mapping.utc == c.anchor.monotonic - c.anchor.utc
  }

  /** A push that reports an event leaves a live run, and the event belongs to that run. */
  lemma ReportedByRun(start: State, inputs: seq<Input>, e: TimelineEvent)
    requires start.Valid() && start.stage.Unanchored? && inputs != []
    requires LastResult(start, inputs).Ok? && e in LastResult(start, inputs).value
    ensures var s := StateAfter(start, inputs);
            && s.Valid() && s.stage.Anchored? && s.stage.run.Feeding?
            && start.ContextOf(s.stage.anchor) == s.ContextOf(s.stage.anchor)
            && var frames := FramesFrom(start, inputs, Origin(start, inputs));
               e in EventsUpTo(start.ContextOf(s.stage.anchor), frames, TickCount(|frames|, start.configuration.rate))
  {
    hide Push, TickCount, EventsUpTo, Continues, LabelWithinTolerance, NewEvents;
    var n := |inputs| - 1;
    RunKeepsIdentity(start, inputs[..n]);
    RunKeepsIdentity(start, inputs);
    LiveRunAlways(start, inputs);
    var s := StateAfter(start, inputs[..n]);
    if Foreign(start, inputs[n].batch) {
      ForeignIgnored(s, inputs[n].batch, inputs[n].now);
    }
    PushAlive(s, inputs[n].batch, inputs[n].now);
    var i := Origin(start, inputs);
    assert EventsFrom(start, inputs, i) == EventsFrom(start, inputs[..n], i) + LastResult(start, inputs).value;
  }

  /** Whatever a caller pushes, every window ever reported is the closed-form resampling of one
      gap-free run of accepted batches. */
  lemma EveryWindowIsResampledRun(start: State, inputs: seq<Input>, w: ReceiveWindow)
    requires start.Valid() && start.stage.Unanchored? && inputs != []
    requires LastResult(start, inputs).Ok? && Window(w) in LastResult(start, inputs).value
    ensures exists i, k :: WindowOfRun(start, inputs, i, k, w)
  {
    hide StateAfter, LastResult, TickCount, Continues, WindowAt, EventsUpTo, FramesFrom, WindowCount;
    ReportedByRun(start, inputs, Window(w));
    LiveRunAlways(start, inputs);
    var s := StateAfter(start, inputs);
    var i := Origin(start, inputs);
    var c := start.ContextOf(s.stage.anchor);
    var frames := FramesFrom(start, inputs, i);
    var ticks := TickCount(|frames|, c.rate);
    var e :| 0 <= e < |EventsUpTo(c, frames, ticks)| && EventsUpTo(c, frames, ticks)[e] == Window(w);
    EventShape(c, frames, ticks, e);
    var k := e - (|EventsUpTo(c, frames, ticks)| - WindowCount(c, ticks));
    WindowIdentity(c, frames, k);
    assert WindowOfRun(start, inputs, i, k, w);
  }

  /** A push reports at most one event, so at most one window. */
  lemma OneEventPerPush(s: State, b: CaptureBatch, now: u64)
    requires s.Valid() && Push(s, b, now).1.Ok?
    ensures |Push(s, b, now).1.value| <= 1
  {
    hide NewEvents, FeedBatch, MappingCheck, EventsUpTo, LabelWithinTolerance;
    if Foreign(s, b) {
      ForeignIgnored(s, b, now);
    }
    PushAlive(s, b, now);
    var nothing: seq<i16> := [];
    assert nothing + b.samples == b.samples;
    AtMostOneEvent(s.ContextOf(b.first), [], b.samples);
    if s.stage.Anchored? && s.stage.run.Feeding? {
      AtMostOneEvent(s.ContextOf(s.stage.anchor), s.stage.run.frames, b.samples);
    }
  }

  // ---------------------------------------------------------------------
  // Fail-closed resets
  // ---------------------------------------------------------------------

  /** The documentation promises that every error discards the anchor and the slot under assembly.  An
      own batch that fails keeps the anchor exactly when it had passed every check, that is, when the
      failure is the resampler's own arithmetic; the run is then halted. */
  lemma ResetExactlyOnFailedCheck(s: State, b: CaptureBatch, now: u64)
    requires s.Valid() && !Foreign(s, b)
    requires Push(s, b, now).1.Err?
    ensures Push(s, b, now).0.stage.Anchored? <==> PassesChecks(s, b, now)
    ensures Push(s, b, now).0.stage.Anchored? ==> Push(s, b, now).0.stage.run.Halted?
    ensures PassesChecks(s, b, now) ==> Push(s, b, now).1 == Err(ArithmeticOverflow)
  {
    hide Push, MappingCheck, FeedBatch, HasPartialSlot, IncompleteCount, LabelWithinTolerance, NewEvents, TickCount,
         PassesChecks;
    PushAlive(s, b, now);
    if PassesChecks(s, b, now) {
      PassingIsFed(s, b, now);
    } else {
      RefusalVerdict(s, b, now);
    }
  }

  /** Such a failure: a stream that anchors ten seconds into a slot, with a source position that reaches
      back to the slot boundary but a monotonic clock that does not. */
  lemma MidSlotAnchorKeepsAnchor(b: CaptureBatch)
    requires b.configuration.rate == 48_000 && b.discontinuity == None
    requires b.first == Evidence(480_000, 10_000, 5_000)
    ensures var s := Initial(b.processGeneration, b.streamGeneration, b.configuration);
            var (t, r) := Push(s, b, 5_000);
            r == Err(ArithmeticOverflow) && t.stage == Anchored(b.first, Halted(0, false))
  {
    var s := Initial(b.processGeneration, b.streamGeneration, b.configuration);
    var c := s.ContextOf(b.first);
    assert !SlotMapped(c, 0);
    var m := Representable(b.first.position, b.samples);
    var nothing: seq<i16> := [];
    assert nothing + b.samples[..m] == b.samples[..m];
    TickDue(m, c.rate, 0);
    assert FirstUnmapped(c, 0, TickCount(m, c.rate)) == 0;
    assert FeedPrefix(c, Feeding([]), b.first.position, b.samples, m) == (Halted(0, false), None);
  }

  // ---------------------------------------------------------------------
  // Exactly when a batch is accepted
  // ---------------------------------------------------------------------

  /** A push that succeeds on a live or new timeline leaves it live, on a batch without a discontinuity. */
  lemma PushOk(s: State, b: CaptureBatch, now: u64)
    requires s.Valid() && (s.stage.Unanchored? || s.stage.run.Feeding?)
    requires Push(s, b, now).1.Ok?
    requires Abs(s.health.driftPpm) <= MAX_DRIFT_PPM
    ensures var t := Push(s, b, now).0;
            && !Foreign(s, b) && !Discontinuous(s.expected, b)
            && t.stage.Anchored? && t.stage.run.Feeding?
            && Abs(t.health.driftPpm) <= MAX_DRIFT_PPM
  {
    hide EventsUpTo, AccumulatorAfter, SlotMapped, TickCount, IncompleteCount, NewEvents;
    match s.stage {
      case Unanchored =>
        PushOkFeeds(s.ContextOf(b.first), Feeding([]), b);
      case Anchored(a, run) =>
        CheckedDrift(s.configuration.rate, s.lastMonotonic, s.health, a, b.first);
        PushOkFeeds(s.ContextOf(a), run, b);
        hide MappingCheck;
    }
  }

  lemma CheckedDrift(rate: Rate, last: Option<u64>, h: Health, a: TimeEvidence, e: TimeEvidence)
    requires Abs(h.driftPpm) <= MAX_DRIFT_PPM
    ensures var r := MappingCheck(rate, last, h, a, e);
            r.1.None? ==> Abs(r.0.driftPpm) <= MAX_DRIFT_PPM
  {
  }

  lemma PushOkFeeds(c: Context, run: Run, b: CaptureBatch)
    requires run.Feeding? && FeedBatch(c, run, b.first.position, b.samples).1.Some? && b.EndPosition().Some?
    ensures FeedBatch(c, run, b.first.position, b.samples).0.Feeding?
  {
    hide EventsUpTo, AccumulatorAfter, SlotMapped, TickCount, NewEvents;
  }

  /** The slots that the batch would make the run reach can be opened. */
  predicate OpensSlots(s: State, b: CaptureBatch)
    requires s.stage.Unanchored? || s.stage.run.Feeding?
  {
    var anchor := if s.stage.Anchored? then s.stage.anchor else b.first;
    var n := (if s.stage.Anchored? then |s.stage.run.frames| else 0) + |b.samples|;
    FirstSlotOpens(s.ContextOf(anchor)) && LastSlotFits(s.ContextOf(anchor), TickCount(n, s.configuration.rate))
  }

  /** An own batch on a live or new timeline succeeds exactly when it passes the checks, its end has a
      position, and the first and last slot of the run can be opened. */
  lemma PushSucceedsExactly(s: State, b: CaptureBatch, now: u64)
    requires s.Valid() && !Foreign(s, b) && (s.stage.Unanchored? || s.stage.run.Feeding?)
    ensures Push(s, b, now).1.Ok? <==> PassesChecks(s, b, now) && b.EndPosition().Some? && OpensSlots(s, b)
  {
    hide MappingCheck, EventsUpTo, AccumulatorAfter, SlotMapped, TickCount, IncompleteCount, NewEvents, FeedBatch,
         FirstSlotOpens, LastSlotFits, Push, Agrees;
    if !PassesChecks(s, b, now) {
      RefusalVerdict(s, b, now);
    } else {
      PassingIsFed(s, b, now);
    }
    var anchor := if s.stage.Anchored? then s.stage.anchor else b.first;
    var frames: seq<i16> := if s.stage.Anchored? then s.stage.run.frames else [];
    var c := s.ContextOf(anchor);
    NoTicks(s.configuration.rate);
    FeedBatchAlive(c, frames, b.first.position, b.samples);
    if PassesChecks(s, b, now) && b.EndPosition().Some? {
      InPosition(s, b);
      AllMappedIffEndsFit(c, |frames| + |b.samples|);
      if FeedBatch(c, Feeding(frames), b.first.position, b.samples).1.Some? {
        PushOkFeeds(c, Feeding(frames), b);
      }
    }
  }

  lemma InPosition(s: State, b: CaptureBatch)
    requires s.Valid() && !Displaced(s, b)
    ensures s.stage.Anchored? && s.stage.run.Feeding? ==>
              b.first.position == s.stage.anchor.position + |s.stage.run.frames|
  {
  }

  /** Every window a push reports passes the checks of its constructor. */
  lemma ReportedWindowsValid(s: State, b: CaptureBatch, now: u64)
    requires s.Valid()
    ensures Push(s, b, now).1.Ok? ==> forall e | e in Push(s, b, now).1.value && e.Window? :: e.window.Valid()
  {
    var (t, r) := (Push(s, b, now).0, Push(s, b, now).1);
    if r.Ok? && r.value != [] {
      if Foreign(s, b) { ForeignIgnored(s, b, now); }
      PushAlive(s, b, now);
      PushValid(s, b, now);
      PushKeepsIdentity(s, b, now);
      hide Push, NewEvents, LabelWithinTolerance, TickCount, SlotMapped, EventsUpTo;
      var before := if s.stage.Anchored? then s.stage.run.frames else [];
      NewWindowsValid(t.ContextOf(t.stage.anchor), before, t.stage.run.frames);
    }
  }

  lemma NewWindowsValid(c: Context, frames: seq<i16>, all: seq<i16>)
    requires frames <= all && AllMapped(c, TickCount(|all|, c.rate)) && c.anchor.position + |all| <= U64_MAX + 1
    ensures forall e | e in NewEvents(c, frames, all) && e.Window? :: e.window.Valid()
  {
    hide TickCount, SlotMapped, NewEvents, WindowAt, WindowCount;
    var (before, n) := (EventsUpTo(c, frames, TickCount(|frames|, c.rate)), TickCount(|all|, c.rate));
    var after := EventsUpTo(c, all, n);
    assert after == before + NewEvents(c, frames, all);
    hide EventsUpTo;
    forall e | e in NewEvents(c, frames, all) && e.Window?
      ensures e.window.Valid()
    {
      assert e in after;
      var i :| 0 <= i < |after| && after[i] == e;
      EventShape(c, all, n, i);
      WindowIdentity(c, all, i - (|after| - WindowCount(c, n)));
    }
  }

  // ---------------------------------------------------------------------
  // The health counters
  // ---------------------------------------------------------------------

  /** A slot is under assembly and has a sample. */
  predicate InsideSlot(s: State) {
    s.stage.Anchored? &&
    match s.stage.run
    case Feeding(frames) => UnderAssembly(s.ContextOf(s.stage.anchor), TickCount(|frames|, s.configuration.rate))
    case Halted(_, partial) => partial
  }

  lemma PartialIsInsideSlot(s: State)
    ensures HasPartialSlot(s) <==> InsideSlot(s)
  {
    if s.stage.Anchored? {
      LeadInArithmetic(s.ContextOf(s.stage.anchor));
      hide TickCount, Lead, SlotMapping, Ticks;
    }
  }

  /** The timing of the batch was measured against an anchor. */
  predicate TimingChecked(s: State, b: CaptureBatch, now: u64) {
    !Late(b, now) && !Displaced(s, b) && !Broken(s, b) && s.stage.Anchored?
  }

  /** What one own batch with an end position adds to the counters: one for a late batch, one for a reported
      incomplete slot, one for a slot discarded with its samples. */
  lemma HealthStep(s: State, b: CaptureBatch, now: u64)
    requires s.Valid() && !Foreign(s, b) && b.EndPosition().Some?
    ensures var (t, r) := Push(s, b, now);
            var checked := if TimingChecked(s, b, now)
                           then MappingCheck(s.configuration.rate, s.lastMonotonic, s.health, s.stage.anchor, b.first).0
                           else s.health;
            && t.health.maxJitterMillis == checked.maxJitterMillis && t.health.driftPpm == checked.driftPpm
            && t.health.lateBatches == Min(s.health.lateBatches + (if Late(b, now) then 1 else 0), U64_MAX)
            && t.health.incompleteSlots
               == Min(s.health.incompleteSlots
                      + (if r.Ok? && r.value != [] && r.value[0].Incomplete? then 1 else 0)
                      + (if InsideSlot(s) && t.stage.Unanchored? then 1 else 0), U64_MAX)
  {
    var r := Push(s, b, now).1;
    PartialIsInsideSlot(s);
    if r.Ok? {
      OneEventPerPush(s, b, now);
      CountOfOne(r.value);
    }
    if s.stage.Anchored? {
      MappingHealth(s.configuration.rate, s.lastMonotonic, s.health, s.stage.anchor, b.first);
    }
    hide MappingCheck, HasPartialSlot, InsideSlot, IncompleteCount, Agrees, FeedBatch, Elapsed, Jitter, Shift, Measurable,
         Truncated;
    if PassesChecks(s, b, now) {
      PassingIsFed(s, b, now);
    } else {
      RefusalVerdict(s, b, now);
    }
  }

  lemma CountOfOne(events: seq<TimelineEvent>)
    requires |events| <= 1
    ensures IncompleteCount(events) == if events != [] && events[0].Incomplete? then 1 else 0
  {
    if events != [] {
      assert events[..0] == [];
    }
  }

  /** Own batches of a run that came too late. */
  function LateBatches(start: State, inputs: seq<Input>): nat {
    if inputs == [] then 0
    else
      var last := inputs[|inputs| - 1];
      LateBatches(start, inputs[..|inputs| - 1])
      + if !Foreign(start, last.batch) && Late(last.batch, last.now) then 1 else 0
  }

  /** Slots of a run that were reported incomplete, or discarded while under assembly. */
  function LostSlots(start: State, inputs: seq<Input>): nat {
    if inputs == [] then 0
    else
      var (s, t, r) := (StateAfter(start, inputs[..|inputs| - 1]), StateAfter(start, inputs), LastResult(start, inputs));
      LostSlots(start, inputs[..|inputs| - 1])
      + (if r.Ok? && r.value != [] && r.value[0].Incomplete? then 1 else 0)
      + (if InsideSlot(s) && t.stage.Unanchored? then 1 else 0)
  }

  /** In every run of a new timeline whose own batches have an end position, the counters are exactly the late
      batches and the lost slots, up to saturation. */
  lemma {:induction false} HealthAlways(start: State, inputs: seq<Input>)
    requires start.Valid() && start.health.lateBatches == 0 && start.health.incompleteSlots == 0
    requires forall i | 0 <= i < |inputs| :: Foreign(start, inputs[i].batch) || inputs[i].batch.EndPosition().Some?
    ensures var h := StateAfter(start, inputs).health;
            && h.lateBatches == Min(LateBatches(start, inputs), U64_MAX)
            && h.incompleteSlots == Min(LostSlots(start, inputs), U64_MAX)
  {
    if inputs != [] {
      var n := |inputs| - 1;
      var (s, last) := (StateAfter(start, inputs[..n]), inputs[n]);
      HealthAlways(start, inputs[..n]);
      RunKeepsIdentity(start, inputs[..n]);
      hide Push, InsideSlot, Late;
      if Foreign(start, last.batch) {
        ForeignIgnored(s, last.batch, last.now);
        assert Foreign(s, last.batch);
        StillAnchored(s);
      } else {
        HealthStep(s, last.batch, last.now);
      }
    }
  }

  lemma StillAnchored(s: State)
    ensures InsideSlot(s) ==> s.stage.Anchored?
  {
  }
}
