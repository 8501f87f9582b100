/**
 What one poll answers, stores and leaves behind, in terms of what input, clock, timeline, decoder and store said;
 and, over every run, which poll made each stored record.
 */
module CoordinatorPolls {
  import opened Numeric
  import opened Audio
  import opened Decodes
  import opened Records
  import opened Resampling
  import opened Coordinator
  import opened CoordinatorRuns
  import CoordinatorTheorems
  import Timeline
  import ReceiveClock
  import Spectrum

  // ---------------------------------------------------------------------
  // One window
  // ---------------------------------------------------------------------

  /** The context names the window, the daemon, the device and the capture mapping. */
  predicate Describes(setup: Setup, w: ReceiveWindow, c: WindowContext) {
    && c.id == setup.windowId(w.streamGeneration, w.slotStartUtc) && c.service == setup.service
    && c.process == w.processGeneration && c.stream == w.streamGeneration && c.slotStartUtc == w.slotStartUtc
    && c.device == setup.device && c.configuration == setup.configuration && c.mapping == w.mapping
  }

  /** The record of window `w`: the decoder's answer in order, and the health of audio, timeline and clock. */
  ghost predicate RecordFor(
    setup: Setup, w: ReceiveWindow, audio: AudioHealth, health: Timeline.Health, age: nat, decodes: seq<Decode>,
    recordedUtc: i64, r: Record)
  {
    && Describes(setup, w, r.context)
    && multiset(r.decodes) == multiset(decodes) && InOrder(r.decodes)
    && (forall k :: TiesWith(r.decodes, k) == TiesWith(decodes, k))
    && r.diagnostics.audio == audio && r.diagnostics.timeline == health
    && r.diagnostics.clock.HealthyClock? && r.diagnostics.clock.age == age
    && r.recordedUtc == recordedUtc
  }

  /** What the durable record can hold. */
  predicate Storable(decodes: seq<Decode>, recordedUtc: i64) {
    && recordedUtc >= 0 && |decodes| <= 128
    && forall d | d in decodes :: Abs(d.offsetMillis) <= 60_000 && d.frequencyHz <= 6_000 && Abs(d.snrDb) <= 100
  }

  lemma RecordVerdict(
    setup: Setup, w: ReceiveWindow, audio: AudioHealth, health: Timeline.Health, age: u64, decodes: seq<Decode>, recordedUtc: i64)
    requires w.mapping.utc == w.slotStartUtc && Abs(health.driftPpm) <= 100_000 && age <= 86_400_000
    ensures var r := RecordOf(setup, w, audio, health, age, decodes, recordedUtc);
            && (r.Ok? <==> Storable(decodes, recordedUtc))
            && (r.Ok? ==> RecordFor(setup, w, audio, health, age, decodes, recordedUtc, r.value)
                          && |r.value.decodes| == |decodes|)
  {
    SortVerdict(decodes);
    assert |multiset(Sorted(decodes))| == |Sorted(decodes)| && |multiset(decodes)| == |decodes|;
    hide Sorted, TiesWith, InOrder;
  }

  /** The waterfall, if there is one, was cleared for `reason`. */
  predicate Blank(before: Option<Spectrum.LiveModel>, after: Option<Spectrum.LiveModel>, reason: Spectrum.Reason) {
    && (after.Some? <==> before.Some?)
    && (after.Some? ==>
          && after.value.pending == [] && after.value.cursor.None? && after.value.board.rows == []
          && after.value.board.reason == Some(reason) && !after.value.board.publicationPending)
  }

  lemma ResetBlank(before: Option<Spectrum.LiveModel>, shown: Option<Spectrum.LiveModel>, reason: Spectrum.Reason)
    requires shown.Some? <==> before.Some?
    ensures Blank(before, ResetSpectrum(shown, reason), reason)
  {
  }

  lemma StillShown(spectrum: Option<Spectrum.LiveModel>, w: ReceiveWindow)
    ensures ShowWindow(spectrum, w).0.Some? <==> spectrum.Some?
    ensures PublishWaterfall(ShowWindow(spectrum, w).0).0.Some? <==> spectrum.Some?
  {
    hide Spectrum.PushWindow, Spectrum.Publish;
  }

  /** The snapshot of a waterfall whose publication is due is reported once. */
  predicate Shows(before: Option<Spectrum.LiveModel>, after: Option<Spectrum.LiveModel>, events: seq<PollEvent>) {
    if before.None? || !before.value.board.publicationPending then after == before && events == []
    else
      var board := before.value.board;
      && events == [Waterfall(Spectrum.Snapshot(before.value.config, board.rows, board.coalesced, board.evicted))]
      && after.Some? && !after.value.board.publicationPending
      && after.value == before.value.(board := board.(publicationPending := false, tally := after.value.board.tally))
  }

  /** The answer of a poll that stored a window: the record, then the waterfall if that is due. */
  ghost predicate Answers(
    r: Result<seq<PollEvent>, CoordinatorError>, id: string, decodes: nat, before: Option<Spectrum.LiveModel>,
    after: Option<Spectrum.LiveModel>)
  {
    exists more :: Shows(before, after, more) && r == Ok([Persisted(id, decodes)] + more)
  }

  lemma WaterfallVerdict(spectrum: Option<Spectrum.LiveModel>)
    ensures Shows(spectrum, PublishWaterfall(spectrum).0, PublishWaterfall(spectrum).1)
  {
  }

  /** A reception that was ended during the poll, for `reason`, with a report of just that. */
  ghost predicate Ended(s: State, t: State, r: Result<seq<PollEvent>, CoordinatorError>, reason: Inhibition) {
    && s.lifecycle.Receiving? && t.lifecycle == Inhibited(s.lifecycle.stream, reason) && Idle(t)
    && Blank(s.spectrum, t.spectrum, Spectrum.TimelineBroken)
    && r == Ok([LifecycleChanged(Transition(s.lifecycle, t.lifecycle))])
  }

  /** An inhibition ends the reception; `u` is the state in which it strikes. */
  lemma InhibitionEnds(s: State, u: State, reason: Inhibition)
    requires s.lifecycle.Receiving? && u.lifecycle == s.lifecycle && (u.spectrum.Some? <==> s.spectrum.Some?)
    ensures var (t, r) := InhibitAlone(u, reason);
            Ended(s, t, r, reason) && t.log == u.log && InhibitAfter(u, [], reason) == (t, r)
  {
    ResetBlank(s.spectrum, u.spectrum, Spectrum.TimelineBroken);
    hide ResetSpectrum, Blank;
    var change := LifecycleChanged(Transition(u.lifecycle, Inhibit(u, reason).lifecycle));
    assert [] + [change] == [change];
  }

  /** The newest entry of `t`, added to those of `s`, is window `w` with the given fate. */
  predicate Adds(s: State, t: State, w: ReceiveWindow, fate: Fate) {
    t.log.entries == s.log.entries + [Entry(w.streamGeneration, w, fate)]
  }

  /** What becomes of a window that passed the gate with a clock mapping of age `age`. */
  ghost predicate Kept(
    setup: Setup, s: State, t: State, r: Result<seq<PollEvent>, CoordinatorError>, w: ReceiveWindow, age: nat,
    audio: AudioHealth, services: Services, recordedUtc: i64)
    requires s.timeline.Some?
  {
    var (shown, decodes) := (ShowWindow(s.spectrum, w), services.decode(w.samples));
    if !shown.1 then
      Adds(s, t, w, SpectrumFailed) && r == Err(SpectrumError) && t == s.(log := t.log, spectrum := shown.0)
    else if decodes.None? then Adds(s, t, w, DecodeFailed) && Ended(s, t, r, DecoderFailure)
    else if !Storable(decodes.value, recordedUtc) then Adds(s, t, w, StoreFailed) && Ended(s, t, r, StorageFailure)
    else exists record :: StoredOrNot(setup, s, t, r, w, age, audio, services, recordedUtc, decodes.value, record)
  }

  /** A storable window's record goes to the store, whose answer decides. */
  ghost predicate StoredOrNot(
    setup: Setup, s: State, t: State, r: Result<seq<PollEvent>, CoordinatorError>, w: ReceiveWindow, age: nat,
    audio: AudioHealth, services: Services, recordedUtc: i64, decodes: seq<Decode>, record: Record)
    requires s.timeline.Some?
  {
    && RecordFor(setup, w, audio, s.timeline.value.health, age, decodes, recordedUtc, record)
    && |record.decodes| == |decodes|
    && if !services.store(record) then Adds(s, t, w, StoreFailed) && Ended(s, t, r, StorageFailure)
       else
         && Adds(s, t, w, Stored(record))
         && t == s.(log := t.log, spectrum := t.spectrum)
         && Answers(r, record.context.id, |decodes|, ShowWindow(s.spectrum, w).0, t.spectrum)
  }

  lemma KeptVerdict(
    setup: Setup, s: State, e: TimelineEvent, audio: AudioHealth, replies: Replies, now: u64, recordedUtc: i64)
    requires s.lifecycle.Receiving? && s.timeline.Some? && s.clock.Some? && s.clock.value.Valid() && e.Window?
    requires e.window.mapping.utc == e.window.slotStartUtc && Abs(s.timeline.value.health.driftPpm) <= 100_000
    requires ReceiveClock.Gate(s.clock.value, e, now).1.WindowReady?
    ensures var (t, r) := HandleEvents(setup, s, [e], 0, audio, replies, now, recordedUtc, []);
            Kept(setup, s, t, r, e.window, Max(now - s.clock.value.lastAccepted.monotonic, 0), audio, replies.services, recordedUtc)
  {
    var (w, clock) := (e.window, s.clock.value);
    ReceiveClock.GateVerdict(clock, w, now);
    var age := Max(now - clock.lastAccepted.monotonic, 0);
    var decodes := replies.services.decode(w.samples);
    var none: seq<PollEvent> := [];
    var published := PublishWaterfall(ShowWindow(s.spectrum, w).0);
    WaterfallVerdict(ShowWindow(s.spectrum, w).0);
    StillShown(s.spectrum, w);
    hide ShowWindow, PublishWaterfall, ReceiveClock.Gate, RecordOf, RecordFor, Storable, Shows, Ended, Inhibit,
         InhibitAlone, InhibitAfter;
    if decodes.Some? {
      RecordVerdict(setup, w, audio, s.timeline.value.health, age, decodes.value, recordedUtc);
      var record := RecordOf(setup, w, audio, s.timeline.value.health, age, decodes.value, recordedUtc);
      assert record.Ok? ==> RecordFor(setup, w, audio, s.timeline.value.health, age, decodes.value, recordedUtc, record.value);
    }
    var kept := KeepWindow(setup, s, w, age, audio, replies.services, recordedUtc);
    assert HandleEvents(setup, s, [e], 0, audio, replies, now, recordedUtc, [])
        == match kept.1
           case Ok(more) => (kept.0, Ok(none + more))
           case Err(None) => (kept.0, Err(SpectrumError))
           case Err(Some(reason)) => InhibitAfter(kept.0, none, reason);
    hide HandleEvents;
    if kept.1.Ok? {
      assert none + kept.1.value == kept.1.value;
      var record := RecordOf(setup, w, audio, s.timeline.value.health, age, decodes.value, recordedUtc).value;
      assert Answers(Ok(kept.1.value), record.context.id, |decodes.value|, ShowWindow(s.spectrum, w).0, kept.0.spectrum);
    } else if kept.1.error.Some? {
      InhibitionEnds(s, kept.0, kept.1.error.value);
    }
    hide Answers;
    if kept.1.Ok? || kept.1.error.Some? {
      if decodes.Some? && Storable(decodes.value, recordedUtc) {
        var record := RecordOf(setup, w, audio, s.timeline.value.health, age, decodes.value, recordedUtc).value;
        var (t, r) := HandleEvents(setup, s, [e], 0, audio, replies, now, recordedUtc, []);
        assert StoredOrNot(setup, s, t, r, w, age, audio, replies.services, recordedUtc, decodes.value, record);
      }
    }
  }

  // ---------------------------------------------------------------------
  // One poll
  // ---------------------------------------------------------------------

  /** The input's errors as inhibitions name them. */
  predicate Names(error: InputError, kind: FaultKind) {
    && (error.PermissionRefused? <==> kind == PermissionDenied)
    && (error.DeviceGone? <==> kind == DeviceLost)
    && (!error.PermissionRefused? && !error.DeviceGone? <==> kind == BackendFailure)
  }

  /** The admission loop appends the input's batches, in order, until four wait, the input has none or it fails. */
  ghost predicate Admitted(worker: seq<CaptureBatch>, replies: Replies, i: nat, after: seq<CaptureBatch>, failed: Option<InputError>) {
    var k := |after| - |worker|;
    && worker <= after && |after| <= Max(|worker|, 4)
    && (forall m | |worker| <= m < |after| :: replies.NextBatch(i + m - |worker|) == Ok(Some(after[m])))
    && (|after| >= 4 ==> failed.None?)
    && (|after| < 4 ==>
          match replies.NextBatch(i + k)
          case Ok(next) => next.None? && failed.None?
          case Err(error) => failed == Some(error))
  }

  lemma {:induction false} AdmitVerdict(worker: seq<CaptureBatch>, replies: Replies, i: nat)
    ensures Admitted(worker, replies, i, Admit(worker, replies, i).0, Admit(worker, replies, i).1)
    decreases 4 - |worker|
  {
    var (after, failed) := (Admit(worker, replies, i).0, Admit(worker, replies, i).1);
    if |worker| < 4 && replies.NextBatch(i).Ok? && replies.NextBatch(i).value.Some? {
      var b := replies.NextBatch(i).value.value;
      var more := worker + [b];
      AdmitVerdict(more, replies, i + 1);
      assert after == Admit(more, replies, i + 1).0 && failed == Admit(more, replies, i + 1).1;
      assert worker <= more && after[|worker|] == b;
      forall m | |worker| <= m < |after|
        ensures replies.NextBatch(i + m - |worker|) == Ok(Some(after[m]))
      {
        assert m > |worker| ==> i + 1 + m - |more| == i + m - |worker|;
      }
    }
  }

  /** The state in which the oldest batch `b` has been accepted into its stream. */
  function Accepting(s: State, timeline: Timeline.State, b: CaptureBatch): State
    requires s.lifecycle.Receiving?
  {
    var (g, stream) := (s.lifecycle.stream, s.log.Of(s.lifecycle.stream));
    s.(timeline := Some(timeline),
       log := s.log.(streams := s.log.streams[g := stream.(accepted := stream.accepted + [b])]))
  }

  /** The fault of a window whose capture mapping disagrees with the clock. */
  function Misfit(clock: ReceiveClock.Monitor, w: ReceiveWindow): ReceiveClock.Fault {
    var off := w.mapping.monotonic - (clock.lastAccepted.monotonic + (w.slotStartUtc - clock.lastAccepted.utc));
    if 0 <= w.mapping.monotonic - off <= U64_MAX && FitsI64(off) then ReceiveClock.WindowMisaligned(off)
    else ReceiveClock.ClockOverflow
  }

  /** What becomes of the oldest waiting batch. */
  ghost predicate Processed(
    setup: Setup, s: State, t: State, r: Result<seq<PollEvent>, CoordinatorError>, b: CaptureBatch,
    audio: AudioHealth, services: Services, now: u64, recordedUtc: i64)
    requires s.lifecycle.Receiving? && s.timeline.Some? && s.clock.Some?
  {
    var pushed := Timeline.Push(s.timeline.value, b, now);
    if pushed.1.Err? then Ended(s, t, r, TimelineInhibition(pushed.1.error)) && t.log == s.log
    else Handled(setup, Accepting(s, pushed.0, b), t, r, pushed.1.value, audio, services, now, recordedUtc)
  }

  /** What becomes of the event, if any, of a batch whose acceptance led to `u`. */
  ghost predicate Handled(
    setup: Setup, u: State, t: State, r: Result<seq<PollEvent>, CoordinatorError>, events: seq<TimelineEvent>,
    audio: AudioHealth, services: Services, now: u64, recordedUtc: i64)
    requires u.timeline.Some? && u.clock.Some?
  {
    var clock := u.clock.value;
    if events == [] then r == Ok([]) && t == u
    else
      match events[0]
      case Incomplete(slot) => r == Ok([IncompleteSlotSeen(slot.slotStartUtc, slot.accumulatedSamples)]) && t == u
      case Window(w) =>
        if ReceiveClock.AgreesWith(clock, w)
        then Kept(setup, u, t, r, w, Max(now - clock.lastAccepted.monotonic, 0), audio, services, recordedUtc)
        else Ended(u, t, r, ClockInhibition(Misfit(clock, w))) && t.log == u.log
  }

  lemma ProcessVerdict(
    setup: Setup, s: State, g: Generation, b: CaptureBatch, audio: AudioHealth, replies: Replies, now: u64, recordedUtc: i64)
    requires s.lifecycle == Receiving(g) && s.timeline.Some? && s.clock.Some?
    requires s.clock.value.Valid() && s.clock.value.state.Healthy? && !ReceiveClock.Stale(s.clock.value, now)
    requires TimelineInStep(setup, g, s.timeline.value, s.log.Of(g).accepted)
    ensures var (t, r) := ProcessBatch(setup, s, b, audio, replies, now, recordedUtc);
            Processed(setup, s, t, r, b, audio, replies.services, now, recordedUtc)
  {
    var pushed := Timeline.Push(s.timeline.value, b, now);
    if pushed.1.Ok? {
      AcceptedEvents(setup, g, s.timeline.value, s.log.Of(g).accepted, b, now);
    }
    hide Timeline.Push, TimelineInStep, HandleEvents, Handled, ReceiveClock.Monitor.Valid, Ended, Inhibit, InhibitAlone;
    if pushed.1.Ok? {
      var u := Accepting(s, pushed.0, b);
      assert u == LogAccepted(s.(timeline := Some(pushed.0)), g, b);
      EventsVerdict(setup, u, pushed.1.value, audio, replies, now, recordedUtc);
    } else {
      InhibitionEnds(s, s.(timeline := Some(pushed.0)), TimelineInhibition(pushed.1.error));
    }
  }

  lemma EventsVerdict(
    setup: Setup, u: State, events: seq<TimelineEvent>, audio: AudioHealth, replies: Replies, now: u64, recordedUtc: i64)
    requires u.lifecycle.Receiving? && u.timeline.Some? && u.clock.Some? && u.clock.value.Valid() && |events| <= 1
    requires u.clock.value.state.Healthy? && !ReceiveClock.Stale(u.clock.value, now)
    requires events != [] && events[0].Window? ==>
               events[0].window.mapping.utc == events[0].window.slotStartUtc && Abs(u.timeline.value.health.driftPpm) <= 100_000
    ensures var (t, r) := HandleEvents(setup, u, events, 0, audio, replies, now, recordedUtc, []);
            Handled(setup, u, t, r, events, audio, replies.services, now, recordedUtc)
  {
    hide HandleEvents, Kept, ReceiveClock.Monitor.Valid, Ended, ReceiveClock.AgreesWith, Misfit;
    if events == [] {
      HandleNone(setup, u, audio, replies, now, recordedUtc);
      HandleNothing(setup, u, audio, replies, now, recordedUtc);
    } else {
      EventVerdict(setup, u, events[0], audio, replies, now, recordedUtc);
      assert events == [events[0]];
    }
  }

  /** An accepted batch reports one event at most; a window lies on its slot. */
  lemma AcceptedEvents(
    setup: Setup, g: Generation, timeline: Timeline.State, before: seq<CaptureBatch>, b: CaptureBatch, now: u64)
    requires TimelineInStep(setup, g, timeline, before) && Timeline.Push(timeline, b, now).1.Ok?
    ensures var (after, events) := (Timeline.Push(timeline, b, now).0, Timeline.Push(timeline, b, now).1.value);
            && |events| <= 1
            && (events != [] && events[0].Window? ==>
                  events[0].window.mapping.utc == events[0].window.slotStartUtc && Abs(after.health.driftPpm) <= 100_000)
  {
    hide TimelineInStep, Timeline.Push, WindowFrom, WindowsIn;
    AcceptStep(setup, g, timeline, before, b, now);
    ReportedWindow(setup, g, timeline, before, b, now);
    var events := Timeline.Push(timeline, b, now).1.value;
    if events != [] && events[0].Window? {
      WindowOnSlot(setup, g, before + [b], WindowsIn(setup, g, before), events[0].window);
      SmallDrift(setup, g, Timeline.Push(timeline, b, now).0, before + [b]);
    }
  }

  lemma WindowOnSlot(setup: Setup, g: Generation, batches: seq<CaptureBatch>, k: nat, w: ReceiveWindow)
    requires WindowFrom(setup, g, batches, k, w)
    ensures w.mapping.utc == w.slotStartUtc
  {
  }

  lemma SmallDrift(setup: Setup, g: Generation, timeline: Timeline.State, batches: seq<CaptureBatch>)
    requires TimelineInStep(setup, g, timeline, batches)
    ensures Abs(timeline.health.driftPpm) <= 100_000
  {
  }

  lemma HandleNothing(setup: Setup, s: State, audio: AudioHealth, replies: Replies, now: u64, recordedUtc: i64)
    requires s.lifecycle.Receiving? && s.timeline.Some? && s.clock.Some?
    ensures HandleEvents(setup, s, [], 0, audio, replies, now, recordedUtc, []).1 == Ok([])
  {
  }

  /** The single event of an accepted batch. */
  lemma EventVerdict(
    setup: Setup, s: State, e: TimelineEvent, audio: AudioHealth, replies: Replies, now: u64, recordedUtc: i64)
    requires s.lifecycle.Receiving? && s.timeline.Some? && s.clock.Some? && s.clock.value.Valid()
    requires s.clock.value.state.Healthy? && !ReceiveClock.Stale(s.clock.value, now)
    requires e.Window? ==>
               e.window.mapping.utc == e.window.slotStartUtc && Abs(s.timeline.value.health.driftPpm) <= 100_000
    ensures var ((t, r), clock) := (HandleEvents(setup, s, [e], 0, audio, replies, now, recordedUtc, []), s.clock.value);
            match e
            case Incomplete(slot) => r == Ok([IncompleteSlotSeen(slot.slotStartUtc, slot.accumulatedSamples)]) && t == s
            case Window(w) =>
              if ReceiveClock.AgreesWith(clock, w)
              then Kept(setup, s, t, r, w, Max(now - clock.lastAccepted.monotonic, 0), audio, replies.services, recordedUtc)
              else Ended(s, t, r, ClockInhibition(Misfit(clock, w))) && t.log == s.log
  {
    var none: seq<PollEvent> := [];
    match e {
      case Incomplete(slot) =>
        var seen := IncompleteSlotSeen(slot.slotStartUtc, slot.accumulatedSamples);
        assert none + [seen] == [seen];
      case Window(w) =>
        ReceiveClock.GateVerdict(s.clock.value, w, now);
        var gate := ReceiveClock.Gate(s.clock.value, e, now);
        hide ReceiveClock.Gate, KeepWindow, Kept, Ended, Inhibit, InhibitAlone, InhibitAfter;
        if ReceiveClock.AgreesWith(s.clock.value, w) {
          KeptVerdict(setup, s, e, audio, replies, now, recordedUtc);
        } else {
          InhibitionEnds(s, s.(clock := Some(gate.0)), ClockInhibition(Misfit(s.clock.value, w)));
        }
    }
  }

  /** The state in which `after` waits and the batches beyond the old backlog count as obtained. */
  function Obtaining(s: State, after: seq<CaptureBatch>): State
    requires s.lifecycle.Receiving? && s.worker <= after
  {
    var (g, stream) := (s.lifecycle.stream, s.log.Of(s.lifecycle.stream));
    s.(worker := after,
       log := s.log.(streams := s.log.streams[g := stream.(obtained := stream.obtained + after[|s.worker|..])]))
  }

  /** A poll in reception: the input's fault, health and overflow and the clock's age are judged first; then
      batches are admitted and the oldest one is processed. */
  ghost predicate Polled(
    setup: Setup, s: State, t: State, r: Result<seq<PollEvent>, CoordinatorError>, replies: Replies, now: u64, recordedUtc: i64)
    requires s.lifecycle.Receiving? && s.timeline.Some? && s.clock.Some?
  {
    var age := now - s.clock.value.lastAccepted.monotonic;
    if replies.fault.Some? then Ended(s, t, r, InputInhibition(replies.fault.value)) && t.log == s.log
    else if replies.health.Err? then
      exists kind :: Names(replies.health.error, kind) && Ended(s, t, r, InputInhibition(kind)) && t.log == s.log
    else if replies.health.value.overflowCount != 0 then Ended(s, t, r, InputInhibition(Overflowed(0))) && t.log == s.log
    else if age > s.clock.value.config.freshness then
      Ended(s, t, r, ClockInhibition(ReceiveClock.StaleMapping(age))) && t.log == s.log
    else
      exists after, failed ::
        && Admitted(s.worker, replies, 0, after, failed)
        && Worked(setup, s, t, r, after, failed, replies.health.value, replies.services, now, recordedUtc)
  }

  /** What becomes of the admitted batches. */
  ghost predicate Worked(
    setup: Setup, s: State, t: State, r: Result<seq<PollEvent>, CoordinatorError>, after: seq<CaptureBatch>,
    failed: Option<InputError>, audio: AudioHealth, services: Services, now: u64, recordedUtc: i64)
    requires s.lifecycle.Receiving? && s.timeline.Some? && s.clock.Some? && s.worker <= after
  {
    var u := Obtaining(s, after);
    if failed.Some? then exists kind :: Names(failed.value, kind) && Ended(s, t, r, InputInhibition(kind)) && t.log == u.log
    else if after == [] then r == Ok([]) && t == u
    else Processed(setup, u.(worker := after[1..]), t, r, after[0], audio, services, now, recordedUtc)
  }

  /** Exactly what a poll does, from every state a run can reach. */
  lemma PollVerdict(setup: Setup, s: State, replies: Replies, now: u64, recordedUtc: i64)
    requires Invariant(setup, s)
    ensures var (t, r) := Poll(setup, s, replies, now, recordedUtc);
            if s.lifecycle.Receiving? then Polled(setup, s, t, r, replies, now, recordedUtc)
            else t == s && r == Err(InvalidLifecycle(s.lifecycle))
  {
    hide LogOk, TimelineInStep, NewestEntry, Work, Admitted, Worked, Timeline.State.Valid, Ended, Inhibit, InhibitAlone;
    if s.lifecycle.Receiving? {
      var clock := s.clock.value;
      ReceiveClock.SnapshotVerdict(clock, now);
      var judged := s.(clock := Some(ReceiveClock.Refresh(clock, now)));
      forall reason
        ensures var (t, r) := InhibitAlone(s, reason); Ended(s, t, r, reason) && t.log == s.log
        ensures var (t, r) := InhibitAlone(judged, reason); Ended(s, t, r, reason) && t.log == s.log
      {
        InhibitionEnds(s, s, reason);
        InhibitionEnds(s, judged, reason);
      }
      if replies.fault.None? && replies.health.Ok? && replies.health.value.overflowCount == 0 && !ReceiveClock.Stale(clock, now) {
        WorkVerdict(setup, s, s.lifecycle.stream, replies, now, recordedUtc);
      } else if replies.fault.None? && replies.health.Err? {
        assert Names(replies.health.error, ErrorKind(replies.health.error));
      }
    }
  }

  lemma WorkVerdict(setup: Setup, s: State, g: Generation, replies: Replies, now: u64, recordedUtc: i64)
    requires s.lifecycle == Receiving(g) && Active(setup, s, g) && replies.health.Ok?
    requires !ReceiveClock.Stale(s.clock.value, now)
    ensures var (t, r) := Work(setup, s, replies.health.value, replies, now, recordedUtc);
            exists after, failed ::
              && Admitted(s.worker, replies, 0, after, failed)
              && Worked(setup, s, t, r, after, failed, replies.health.value, replies.services, now, recordedUtc)
  {
    var audio := replies.health.value;
    hide TimelineInStep, NewestEntry, ProcessBatch, Admit, Processed, ReceiveClock.Monitor.Valid, Ended, Inhibit, InhibitAlone;
    var (after, failed) := Admit(s.worker, replies, 0);
    AdmitVerdict(s.worker, replies, 0);
    var u := Obtaining(s, after);
    assert u == LogObtained(s.(worker := after), g, after[|s.worker|..]);
    if failed.Some? {
      assert Names(failed.value, ErrorKind(failed.value));
      InhibitionEnds(s, u, InputInhibition(ErrorKind(failed.value)));
    } else if after != [] {
      assert u.log.Of(g).accepted == s.log.Of(g).accepted;
      ProcessVerdict(setup, u.(worker := after[1..]), g, after[0], audio, replies, now, recordedUtc);
    }
    hide Admitted;
    var (t, r) := Work(setup, s, audio, replies, now, recordedUtc);
    if failed.Some? {
      assert Ended(s, t, r, InputInhibition(ErrorKind(failed.value))) && t.log == u.log;
    }
    assert Admitted(s.worker, replies, 0, after, failed);
  }

  // ---------------------------------------------------------------------
  // Every stored record of every run
  // ---------------------------------------------------------------------

  /** The identifiers and decode counts that a poll reports as persisted. */
  function Reports(events: seq<PollEvent>): seq<(string, nat)> {
    if events == [] then []
    else (if events[0].Persisted? then [(events[0].id, events[0].decodeCount)] else []) + Reports(events[1..])
  }

  /** Entry `e` is what a poll from `s` to `t`, with answer `r`, made of its window. */
  ghost predicate Made(
    setup: Setup, s: State, t: State, r: Result<seq<PollEvent>, CoordinatorError>, replies: Replies, now: u64, recordedUtc: i64,
    e: Entry)
  {
    && s.lifecycle.Receiving? && s.clock.Some? && replies.health.Ok?
    && var (services, age) := (replies.services, Max(now - s.clock.value.lastAccepted.monotonic, 0));
       var (shown, decodes) := (ShowWindow(s.spectrum, e.window).1, services.decode(e.window.samples));
       && t.log.entries == s.log.entries + [e]
       && match e.fate
          case SpectrumFailed => !shown && r == Err(SpectrumError)
          case DecodeFailed => shown && decodes.None? && Ended(s, t, r, DecoderFailure)
          case StoreFailed =>
            && shown && decodes.Some? && Ended(s, t, r, StorageFailure)
            && (|| !Storable(decodes.value, recordedUtc)
                || exists health, record ::
                     && RecordFor(setup, e.window, replies.health.value, health, age, decodes.value, recordedUtc, record)
                     && !services.store(record))
          case Stored(record) =>
            && shown && decodes.Some? && t.lifecycle == s.lifecycle && t.timeline.Some?
            && RecordFor(setup, e.window, replies.health.value, t.timeline.value.health, age, decodes.value, recordedUtc, record)
            && services.store(record)
            && r.Ok? && Reports(r.value) == [(record.context.id, |decodes.value|)]
            && Answers(r, record.context.id, |decodes.value|, ShowWindow(s.spectrum, e.window).0, t.spectrum)
  }

  /** A poll that adds an entry made it; one that adds none reports none. */
  ghost predicate Makes(
    setup: Setup, s: State, t: State, r: Result<seq<PollEvent>, CoordinatorError>, replies: Replies, now: u64, recordedUtc: i64)
  {
    if t.log.entries == s.log.entries then r.Ok? ==> Reports(r.value) == []
    else t.log.entries != [] && Made(setup, s, t, r, replies, now, recordedUtc, t.log.entries[|t.log.entries| - 1])
  }

  lemma AnswerReports(
    r: Result<seq<PollEvent>, CoordinatorError>, id: string, n: nat, before: Option<Spectrum.LiveModel>,
    after: Option<Spectrum.LiveModel>)
    requires Answers(r, id, n, before, after)
    ensures r.Ok? && Reports(r.value) == [(id, n)]
  {
    var more :| Shows(before, after, more) && r == Ok([Persisted(id, n)] + more);
    assert Reports(more) == [] by {
      if more != [] { assert more[1..] == []; }
    }
    if more != [] { assert more[1..] == []; }
    assert ([Persisted(id, n)] + more)[1..] == more;
  }

  lemma EndedReports(s: State, t: State, r: Result<seq<PollEvent>, CoordinatorError>, reason: Inhibition)
    requires Ended(s, t, r, reason)
    ensures r.Ok? && Reports(r.value) == []
  {
    assert r.value[1..] == [];
  }

  lemma PollMakes(setup: Setup, s: State, replies: Replies, now: u64, recordedUtc: i64)
    requires Invariant(setup, s)
    ensures var (t, r) := Poll(setup, s, replies, now, recordedUtc);
            Makes(setup, s, t, r, replies, now, recordedUtc)
  {
    var (t, r) := Poll(setup, s, replies, now, recordedUtc);
    PollVerdict(setup, s, replies, now, recordedUtc);
    hide LogOk, TimelineInStep, NewestEntry, Poll, ReceiveClock.Monitor.Valid, Polled;
    if s.lifecycle.Receiving? {
      PolledMakes(setup, s, t, r, replies, now, recordedUtc);
    }
  }

  lemma PolledMakes(
    setup: Setup, s: State, t: State, r: Result<seq<PollEvent>, CoordinatorError>, replies: Replies, now: u64, recordedUtc: i64)
    requires s.lifecycle.Receiving? && s.timeline.Some? && s.clock.Some? && Polled(setup, s, t, r, replies, now, recordedUtc)
    ensures Makes(setup, s, t, r, replies, now, recordedUtc)
  {
    hide Names, Ended, Made, Worked;
    forall reason | Ended(s, t, r, reason)
      ensures r.Ok? && Reports(r.value) == []
    {
      EndedReports(s, t, r, reason);
    }
    if replies.fault.None? && replies.health.Ok? && replies.health.value.overflowCount == 0
       && now - s.clock.value.lastAccepted.monotonic <= s.clock.value.config.freshness {
      var after, failed :|
        && Admitted(s.worker, replies, 0, after, failed) && s.worker <= after
        && Worked(setup, s, t, r, after, failed, replies.health.value, replies.services, now, recordedUtc);
      WorkMakes(setup, s, t, r, after, failed, replies, now, recordedUtc);
    }
  }

  lemma WorkMakes(
    setup: Setup, s: State, t: State, r: Result<seq<PollEvent>, CoordinatorError>, after: seq<CaptureBatch>,
    failed: Option<InputError>, replies: Replies, now: u64, recordedUtc: i64)
    requires replies.health.Ok? && s.lifecycle.Receiving? && s.timeline.Some? && s.clock.Some? && s.worker <= after
    requires Worked(setup, s, t, r, after, failed, replies.health.value, replies.services, now, recordedUtc)
    ensures Makes(setup, s, t, r, replies, now, recordedUtc)
  {
    hide Ended, Names, Made, Processed;
    if failed.Some? {
      var kind :| Names(failed.value, kind) && Ended(s, t, r, InputInhibition(kind));
      EndedReports(s, t, r, InputInhibition(kind));
    } else if after != [] {
      ProcessMakes(setup, s, Obtaining(s, after).(worker := after[1..]), t, r, after[0], replies, now, recordedUtc);
    }
  }

  lemma ProcessMakes(
    setup: Setup, s: State, u: State, t: State, r: Result<seq<PollEvent>, CoordinatorError>, b: CaptureBatch,
    replies: Replies, now: u64, recordedUtc: i64)
    requires replies.health.Ok? && s.lifecycle.Receiving? && s.timeline.Some? && s.clock.Some?
    requires u == s.(worker := u.worker, log := u.log) && u.log.entries == s.log.entries
    requires Processed(setup, u, t, r, b, replies.health.value, replies.services, now, recordedUtc)
    ensures Makes(setup, s, t, r, replies, now, recordedUtc)
  {
    var pushed := Timeline.Push(u.timeline.value, b, now);
    hide Timeline.Push, Ended, Made, Handled;
    if pushed.1.Err? {
      EndedReports(u, t, r, TimelineInhibition(pushed.1.error));
    } else {
      HandledMakes(setup, s, Accepting(u, pushed.0, b), t, r, pushed.1.value, replies, now, recordedUtc);
    }
  }

  lemma HandledMakes(
    setup: Setup, s: State, u: State, t: State, r: Result<seq<PollEvent>, CoordinatorError>, events: seq<TimelineEvent>,
    replies: Replies, now: u64, recordedUtc: i64)
    requires replies.health.Ok? && s.lifecycle.Receiving? && s.clock.Some? && u.timeline.Some?
    requires u == s.(worker := u.worker, timeline := u.timeline, log := u.log) && u.log.entries == s.log.entries
    requires Handled(setup, u, t, r, events, replies.health.value, replies.services, now, recordedUtc)
    ensures Makes(setup, s, t, r, replies, now, recordedUtc)
  {
    hide Ended, Made, Kept, ReceiveClock.AgreesWith, Misfit;
    if events != [] && events[0].Window? {
      var w := events[0].window;
      if ReceiveClock.AgreesWith(u.clock.value, w) {
        KeptMakes(setup, s, u, t, r, w, replies, now, recordedUtc);
      } else {
        EndedReports(u, t, r, ClockInhibition(Misfit(u.clock.value, w)));
      }
    } else if events != [] {
      assert r.value[1..] == [];
      assert Reports(r.value[1..]) == [];
    }
  }

  lemma KeptMakes(
    setup: Setup, s: State, u: State, t: State, r: Result<seq<PollEvent>, CoordinatorError>, w: ReceiveWindow,
    replies: Replies, now: u64, recordedUtc: i64)
    requires replies.health.Ok? && s.lifecycle.Receiving? && s.clock.Some? && u.timeline.Some?
    requires u == s.(worker := u.worker, timeline := u.timeline, log := u.log) && u.log.entries == s.log.entries
    requires Kept(setup, u, t, r, w, Max(now - s.clock.value.lastAccepted.monotonic, 0), replies.health.value,
                  replies.services, recordedUtc)
    ensures Makes(setup, s, t, r, replies, now, recordedUtc)
  {
    var (services, age) := (replies.services, Max(now - s.clock.value.lastAccepted.monotonic, 0));
    var (shown, decodes) := (ShowWindow(u.spectrum, w), services.decode(w.samples));
    EndedSame(s, u, t, r, DecoderFailure);
    EndedSame(s, u, t, r, StorageFailure);
    hide ShowWindow, RecordFor, Storable, Answers, Ended, Reports;
    if shown.1 && decodes.Some? && Storable(decodes.value, recordedUtc) {
      var record :| StoredOrNot(setup, u, t, r, w, age, replies.health.value, services, recordedUtc, decodes.value, record);
      if services.store(record) {
        AnswerReports(r, record.context.id, |decodes.value|, shown.0, t.spectrum);
      }
    }
  }

  /** Only lifecycle and spectrum of the first state matter to how a reception ended. */
  lemma EndedSame(s: State, u: State, t: State, r: Result<seq<PollEvent>, CoordinatorError>, reason: Inhibition)
    requires u.lifecycle == s.lifecycle && u.spectrum == s.spectrum
    ensures Ended(u, t, r, reason) <==> Ended(s, t, r, reason)
  {
  }

  /** Call `call`, after the calls `before`, was the poll that made `e` when there were the entries `earlier`. */
  ghost predicate MadeAfter(setup: Setup, before: seq<Call>, call: Call, earlier: seq<Entry>, e: Entry) {
    && call.PollCall? && RunCalls(setup, before).log.entries == earlier
    && var s := RunCalls(setup, before);
       var (t, r) := Poll(setup, s, call.replies, call.now, call.recordedUtc);
       Made(setup, s, t, r, call.replies, call.now, call.recordedUtc, e)
  }

  /** In every run each entry was made by one poll, which found exactly the entries before it: a stored record holds
      that poll's decoder answer, input health, timeline health, clock age and recording time, and that poll
      reported it once. */
  lemma {:induction false} EveryEntryMadeByItsPoll(setup: Setup, calls: seq<Call>, i: nat)
    requires setup.clock.Valid() && i < |RunCalls(setup, calls).log.entries|
    ensures var entries := RunCalls(setup, calls).log.entries;
            exists j | 0 <= j < |calls| :: MadeAfter(setup, calls[..j], calls[j], entries[..i], entries[i])
    decreases |calls|
  {
    NothingYet(setup, calls);
    hide RunCalls, MadeAfter;
    var n := |calls| - 1;
    var (before, call) := (calls[..n], calls[n]);
    var (earlier, entries) := (RunCalls(setup, before).log.entries, RunCalls(setup, calls).log.entries);
    assert calls == before + [call];
    LastMade(setup, before, call);
    if i < |earlier| {
      EveryEntryMadeByItsPoll(setup, before, i);
      var j :| 0 <= j < |before| && MadeAfter(setup, before[..j], before[j], earlier[..i], earlier[i]);
      assert before[..j] == calls[..j] && calls[j] == before[j] && entries[..i] == earlier[..i];
    } else {
      assert entries[..i] == earlier && calls[..n] == before;
    }
  }

  lemma NothingYet(setup: Setup, calls: seq<Call>)
    ensures calls == [] ==> RunCalls(setup, calls).log.entries == []
  {
  }

  lemma LastMade(setup: Setup, before: seq<Call>, call: Call)
    requires setup.clock.Valid()
    ensures var (earlier, entries) := (RunCalls(setup, before).log.entries, RunCalls(setup, before + [call]).log.entries);
            || entries == earlier
            || (entries != [] && entries == earlier + [entries[|entries| - 1]]
                && MadeAfter(setup, before, call, earlier, entries[|entries| - 1]))
  {
    var s := RunCalls(setup, before);
    assert (before + [call])[..|before|] == before;
    assert RunCalls(setup, before + [call]) == Apply(setup, s, call);
    InvariantAlways(setup, before);
    CoordinatorTheorems.OneWindowPerCall(setup, s, call);
    hide RunCalls, Invariant, Poll, Apply;
    if call.PollCall? {
      PollMakes(setup, s, call.replies, call.now, call.recordedUtc);
      PollApplied(setup, s, call);
    }
    hide Made;
  }

  lemma PollApplied(setup: Setup, s: State, call: Call)
    requires call.PollCall?
    ensures Apply(setup, s, call) == Poll(setup, s, call.replies, call.now, call.recordedUtc).0
  {
  }
}
