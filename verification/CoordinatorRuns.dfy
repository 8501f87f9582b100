/**
 What holds of the coordinator after every call of every run.
 */
module CoordinatorRuns {
  import opened Numeric
  import opened Audio
  import opened Records
  import opened Resampling
  import opened Coordinator
  import Timeline
  import TimelineRuns
  import ReceiveClock
  import Spectrum

  /** The source frames of a sequence of batches. */
  function FramesOf(batches: seq<CaptureBatch>): seq<i16> {
    if batches == [] then []
    else FramesOf(batches[..|batches| - 1]) + batches[|batches| - 1].samples
  }

  /** Batch `j` belongs to the stream and continues its predecessors without a gap, a discontinuity or a
      label outside tolerance. */
  predicate Follows(setup: Setup, g: Generation, batches: seq<CaptureBatch>, j: nat)
    requires j < |batches|
  {
    var b := batches[j];
    && b.processGeneration == setup.process && b.streamGeneration == g && b.configuration == setup.configuration
    && b.first.position == batches[0].first.position + |FramesOf(batches[..j])|
    && (b.discontinuity.Some? ==> j == 0 && b.discontinuity.value.kind == StreamRestart)
    && (j > 0 ==> TimelineRuns.LabelWithinTolerance(batches[0].first, setup.configuration.rate, b.first))
  }

  ghost predicate Contiguous(setup: Setup, g: Generation, batches: seq<CaptureBatch>) {
    forall j | 0 <= j < |batches| :: Follows(setup, g, batches, j)
  }

  /** The anchor of a stream is its first accepted batch. */
  function RunContext(setup: Setup, g: Generation, batches: seq<CaptureBatch>): Context
    requires batches != []
  {
    Context(batches[0].first, setup.configuration.rate, setup.process, g)
  }

  function WindowsIn(setup: Setup, g: Generation, batches: seq<CaptureBatch>): nat {
    if batches == [] then 0
    else WindowCount(RunContext(setup, g, batches), TickCount(|FramesOf(batches)|, setup.configuration.rate))
  }

  /** Window `w` is complete slot `k` of the accepted batches. */
  ghost predicate WindowFrom(setup: Setup, g: Generation, batches: seq<CaptureBatch>, k: nat, w: ReceiveWindow) {
    && k < WindowsIn(setup, g, batches)
    && w == WindowAt(RunContext(setup, g, batches), FramesOf(batches), k)
    && w.Valid() && w.streamGeneration == g
    && w.slotStartUtc == FirstSlot(RunContext(setup, g, batches)) + k * SLOT_MILLIS == w.mapping.utc
    && w.mapping.monotonic - w.mapping.utc == batches[0].first.monotonic - batches[0].first.utc
  }

  // ---------------------------------------------------------------------
  // The invariant
  // ---------------------------------------------------------------------

  /** Nothing of a stream is left. */
  predicate Idle(s: State) { !s.inputOpen && s.timeline.None? && s.clock.None? && s.worker == [] }

  ghost predicate ClockReady(setup: Setup, clock: Option<ReceiveClock.Monitor>) {
    && clock.Some? && clock.value.Valid() && clock.value.state.Healthy?
    && clock.value.generation == setup.process && clock.value.config == setup.clock
  }

  /** The timeline holds exactly the accepted batches of its stream. */
  ghost predicate TimelineInStep(setup: Setup, g: Generation, timeline: Timeline.State, batches: seq<CaptureBatch>) {
    && timeline.Valid()
    && timeline.processGeneration == setup.process && timeline.streamGeneration == g
    && timeline.configuration == setup.configuration
    && Abs(timeline.health.driftPpm) <= Timeline.MAX_DRIFT_PPM
    && if batches == [] then timeline.stage.Unanchored? && timeline.expected.None?
       else timeline.stage == Timeline.Anchored(batches[0].first, Feeding(FramesOf(batches)))
  }

  /** The newest entry is the last window that the accepted batches completed. */
  ghost predicate NewestEntry(setup: Setup, g: Generation, batches: seq<CaptureBatch>, entries: seq<Entry>) {
    var n := WindowsIn(setup, g, batches);
    if n == 0 then entries == [] || entries[|entries| - 1].stream < g
    else
      && entries != [] && entries[|entries| - 1].stream == g
      && WindowFrom(setup, g, batches, n - 1, entries[|entries| - 1].window)
  }

  ghost predicate Active(setup: Setup, s: State, g: Generation) {
    && s.inputOpen && ClockReady(setup, s.clock)
    && s.timeline.Some? && TimelineInStep(setup, g, s.timeline.value, s.log.Of(g).accepted)
    && |s.worker| < WORKER_BATCH_CAPACITY
    && s.log.Of(g).obtained == s.log.Of(g).accepted + s.worker
    && NewestEntry(setup, g, s.log.Of(g).accepted, s.log.entries)
  }

  ghost predicate StreamOk(setup: Setup, log: Log, g: Generation) {
    Contiguous(setup, g, log.Of(g).accepted) && log.Of(g).accepted <= log.Of(g).obtained
  }

  ghost predicate FromStream(setup: Setup, log: Log, e: Entry) {
    exists k: nat :: WindowFrom(setup, e.stream, log.Of(e.stream).accepted, k, e.window)
  }

  /** An entry is a window of its stream; its record, if any, describes that window. */
  ghost predicate EntryOk(setup: Setup, log: Log, last: u64, e: Entry) {
    && e.stream <= last
    && FromStream(setup, log, e)
    && (e.fate.Stored? ==> e.fate.record.context == ContextOf(setup, e.window))
  }

  /** A later stream, or the next slot of the same stream. */
  predicate Next(a: Entry, b: Entry) {
    || a.stream < b.stream
    || (a.stream == b.stream && b.window.slotStartUtc == a.window.slotStartUtc + SLOT_MILLIS)
  }

  predicate Increasing(attempts: seq<Generation>, last: u64) {
    && (forall i, j | 0 <= i < j < |attempts| :: attempts[i] < attempts[j])
    && (forall i | 0 <= i < |attempts| :: attempts[i] <= last)
  }

  ghost predicate LogOk(setup: Setup, log: Log, last: u64) {
    && Increasing(log.attempts, last)
    && (forall g | g in log.streams :: g <= last && StreamOk(setup, log, g))
    && (forall i | 0 <= i < |log.entries| :: EntryOk(setup, log, last, log.entries[i]))
    && (forall i, j | 0 <= i && j == i + 1 && j < |log.entries| :: Next(log.entries[i], log.entries[j]))
  }

  /** Between calls a coordinator is stopped, receiving or inhibited; it holds an open input, a timeline
      and a clock monitor exactly while receiving, and that monitor is healthy. */
  ghost predicate Invariant(setup: Setup, s: State) {
    && LogOk(setup, s.log, s.lastStream)
    && match s.lifecycle
       case Stopped(last) => last == s.lastStream && Idle(s)
       case Inhibited(g, _) => g == s.lastStream && Idle(s)
       case Receiving(g) => g == s.lastStream && Active(setup, s, g)
       case _ => false
  }

  // ---------------------------------------------------------------------
  // One accepted batch
  // ---------------------------------------------------------------------

  lemma FramesSnoc(batches: seq<CaptureBatch>, b: CaptureBatch)
    ensures FramesOf(batches + [b]) == FramesOf(batches) + b.samples
  {
    assert (batches + [b])[..|batches|] == batches;
  }

  lemma ContiguousSnoc(setup: Setup, g: Generation, batches: seq<CaptureBatch>, b: CaptureBatch)
    requires Contiguous(setup, g, batches) && Follows(setup, g, batches + [b], |batches|)
    ensures Contiguous(setup, g, batches + [b])
  {
    hide FramesOf, TimelineRuns.LabelWithinTolerance;
    forall j | 0 <= j < |batches + [b]|
      ensures Follows(setup, g, batches + [b], j)
    {
      if j < |batches| {
        assert Follows(setup, g, batches, j);
        assert (batches + [b])[..j] == batches[..j];
      }
    }
  }

  /** An accepted batch extends the live run by exactly its frames and reports what that adds. */
  lemma AcceptedRun(setup: Setup, g: Generation, s: Timeline.State, batches: seq<CaptureBatch>, b: CaptureBatch, now: u64)
    requires TimelineInStep(setup, g, s, batches) && Timeline.Push(s, b, now).1.Ok?
    ensures var all := batches + [b];
            && FramesOf(all) == FramesOf(batches) + b.samples
            && Timeline.Push(s, b, now).0.stage == Timeline.Anchored(all[0].first, Feeding(FramesOf(all)))
            && Timeline.Push(s, b, now).1.value
               == NewEvents(RunContext(setup, g, all), FramesOf(batches), FramesOf(all))
    ensures batches != [] ==>
              && b.first.position == batches[0].first.position + |FramesOf(batches)|
              && TimelineRuns.LabelWithinTolerance(batches[0].first, setup.configuration.rate, b.first)
  {
    hide Timeline.Push, TimelineRuns.LabelWithinTolerance, NewEvents, TickCount, FramesOf, Timeline.Discontinuous;
    TimelineRuns.PushOk(s, b, now);
    TimelineRuns.PushAlive(s, b, now);
    FramesSnoc(batches, b);
    if batches == [] { NoFrames(batches, b); }
  }

  lemma NoFrames(batches: seq<CaptureBatch>, b: CaptureBatch)
    requires batches == []
    ensures FramesOf(batches) == [] && FramesOf(batches) + b.samples == b.samples
  {
  }

  lemma AcceptedBatch(setup: Setup, g: Generation, s: Timeline.State, batches: seq<CaptureBatch>, b: CaptureBatch, now: u64)
    requires TimelineInStep(setup, g, s, batches) && Timeline.Push(s, b, now).1.Ok?
    ensures b.processGeneration == setup.process && b.streamGeneration == g && b.configuration == setup.configuration
    ensures b.discontinuity.Some? ==> batches == [] && b.discontinuity.value.kind == StreamRestart
  {
    hide Timeline.Push, FramesOf, AllMapped;
    TimelineRuns.PushOk(s, b, now);
  }

  lemma AcceptStep(setup: Setup, g: Generation, s: Timeline.State, batches: seq<CaptureBatch>, b: CaptureBatch, now: u64)
    requires TimelineInStep(setup, g, s, batches) && Timeline.Push(s, b, now).1.Ok?
    ensures TimelineInStep(setup, g, Timeline.Push(s, b, now).0, batches + [b])
    ensures Follows(setup, g, batches + [b], |batches|)
    ensures |Timeline.Push(s, b, now).1.value| <= 1
  {
    hide Timeline.Push, TimelineRuns.LabelWithinTolerance, NewEvents, TickCount, FramesOf, Timeline.Discontinuous,
         Timeline.State.Valid;
    AcceptedRun(setup, g, s, batches, b, now);
    AcceptedBatch(setup, g, s, batches, b, now);
    TimelineRuns.PushOk(s, b, now);
    TimelineRuns.PushKeepsIdentity(s, b, now);
    Timeline.PushValid(s, b, now);
    TimelineRuns.OneEventPerPush(s, b, now);
    assert (batches + [b])[..|batches|] == batches;
    if batches == [] { NoFrames(batches, b); }
  }

  /** The single new event of a longer run is its next window, or leaves the number of windows alone. */
  lemma NewEventIsNextWindow(c: Context, frames: seq<i16>, all: seq<i16>)
    requires frames <= all && |NewEvents(c, frames, all)| <= 1
    ensures var (n, m) := (WindowCount(c, TickCount(|frames|, c.rate)), WindowCount(c, TickCount(|all|, c.rate)));
            var events := NewEvents(c, frames, all);
            if events == [] || events[0].Incomplete? then m == n
            else m == n + 1 && events[0].window == WindowAt(c, all, n)
  {
    hide TickCount, WindowAt, Lead;
    var (n, m) := (TickCount(|frames|, c.rate), TickCount(|all|, c.rate));
    TickCountMonotone(|frames|, |all|, c.rate);
    var (before, after) := (EventsUpTo(c, frames, n), EventsUpTo(c, all, m));
    assert after == before + NewEvents(c, frames, all);
    assert |before| == |LeadIn(c, n)| + WindowCount(c, n) && |after| == |LeadIn(c, m)| + WindowCount(c, m);
    if |after| > |before| {
      EventShape(c, all, m, |before|);
      if before != [] {
        EventShape(c, all, m, 0);
        EventShape(c, frames, n, 0);
      }
    }
  }

  lemma WindowStable(c: Context, frames: seq<i16>, more: seq<i16>, k: nat)
    requires k < WindowCount(c, TickCount(|frames|, c.rate))
    ensures k < WindowCount(c, TickCount(|frames + more|, c.rate))
    ensures WindowAt(c, frames + more, k) == WindowAt(c, frames, k)
  {
    TickCountMonotone(|frames|, |frames + more|, c.rate);
    hide TickCount, TickSample, Lead, SlotMapping;
    TicksStable(frames, more, c.rate, WindowStart(c, k), WINDOW_SAMPLES);
  }

  lemma WindowFromStable(setup: Setup, g: Generation, batches: seq<CaptureBatch>, b: CaptureBatch, k: nat, w: ReceiveWindow)
    requires WindowFrom(setup, g, batches, k, w)
    ensures WindowFrom(setup, g, batches + [b], k, w)
  {
    hide TickCount, WindowAt, FirstSlot, WindowCount;
    FramesSnoc(batches, b);
    WindowStable(RunContext(setup, g, batches), FramesOf(batches), b.samples, k);
  }

  /** A reported window is the next one of its stream. */
  lemma ReportedWindow(setup: Setup, g: Generation, s: Timeline.State, batches: seq<CaptureBatch>, b: CaptureBatch, now: u64)
    requires TimelineInStep(setup, g, s, batches) && Timeline.Push(s, b, now).1.Ok?
    ensures var events := Timeline.Push(s, b, now).1.value;
            var n := WindowsIn(setup, g, batches);
            if events == [] || events[0].Incomplete? then WindowsIn(setup, g, batches + [b]) == n
            else
              && WindowsIn(setup, g, batches + [b]) == n + 1
              && WindowFrom(setup, g, batches + [b], n, events[0].window)
  {
    AcceptStep(setup, g, s, batches, b, now);
    AcceptedRun(setup, g, s, batches, b, now);
    hide Timeline.Push, TickCount, WindowAt, FirstSlot, Follows, NewEvents, SlotMapped;
    var all := batches + [b];
    var c := RunContext(setup, g, all);
    NewEventIsNextWindow(c, FramesOf(batches), FramesOf(all));
    if batches == [] {
      NoWindows(c);
    }
    var events := Timeline.Push(s, b, now).1.value;
    if events != [] && events[0].Window? {
      var t := Timeline.Push(s, b, now).0;
      assert t.ContextOf(all[0].first) == c;
      WindowIdentity(c, FramesOf(all), WindowsIn(setup, g, batches));
      WindowStream(c, FramesOf(all), WindowsIn(setup, g, batches));
    }
  }

  lemma WindowStream(c: Context, frames: seq<i16>, k: nat)
    ensures WindowAt(c, frames, k).streamGeneration == c.streamGeneration
    ensures WindowAt(c, frames, k).processGeneration == c.processGeneration
  {
  }

  lemma NoWindows(c: Context)
    ensures WindowCount(c, TickCount(0, c.rate)) == 0
  {
  }

  // ---------------------------------------------------------------------
  // Every call keeps the invariant
  // ---------------------------------------------------------------------

  lemma InhibitKeeps(setup: Setup, s: State, reason: Inhibition)
    requires LogOk(setup, s.log, s.lastStream) && s.lifecycle.Receiving? && s.lifecycle.stream == s.lastStream
    ensures Invariant(setup, Inhibit(s, reason)) && Inhibit(s, reason).log == s.log
    ensures Inhibit(s, reason).lifecycle.Inhibited?
  {
    hide LogOk;
  }

  /** The invariant says nothing about the spectrum. */
  lemma SpectrumFree(setup: Setup, s: State, spectrum: Option<Spectrum.LiveModel>)
    requires Invariant(setup, s)
    ensures Invariant(setup, s.(spectrum := spectrum))
  {
    hide LogOk, TimelineInStep, NewestEntry;
  }

  /** `after` is `before` with one entry for window `w`. */
  predicate Logged(setup: Setup, before: Log, after: Log, w: ReceiveWindow) {
    after.entries != [] &&
    var e := after.entries[|after.entries| - 1];
    && after == before.(entries := before.entries + [e])
    && e.stream == w.streamGeneration && e.window == w
    && (e.fate.Stored? ==> e.fate.record.context == ContextOf(setup, w))
  }

  /** The spectrum model after a poll that handled the given windows, before any inhibition. */
  function Shown(spectrum: Option<Spectrum.LiveModel>, windows: seq<Entry>): Option<Spectrum.LiveModel> {
    if windows == [] then spectrum
    else
      var shown := ShowWindow(spectrum, windows[0].window);
      if shown.1 then PublishWaterfall(shown.0).0 else shown.0
  }

  /** At most one entry is added.  Its window fails in the spectrum exactly as the model decides; if
      reception goes on, any other window was stored. */
  predicate Retained(s: State, t: State) {
    && s.log.entries <= t.log.entries && |t.log.entries| <= |s.log.entries| + 1
    && t.log.exchanged == s.log.exchanged
    && var added := t.log.entries[|s.log.entries|..];
       && t.spectrum == (if t.lifecycle.Receiving? then Shown(s.spectrum, added)
                         else ResetSpectrum(Shown(s.spectrum, added), Spectrum.TimelineBroken))
       && (added != [] ==>
             && (added[0].fate.SpectrumFailed? <==> !ShowWindow(s.spectrum, added[0].window).1)
             && (t.lifecycle.Receiving? ==> added[0].fate.Stored? || added[0].fate.SpectrumFailed?))
  }

  /** The single event of a batch is passed, logged or refused; a refusal leaves nothing behind. */
  lemma HandleOne(
    setup: Setup, s: State, e: TimelineEvent, audio: AudioHealth, replies: Replies, now: u64, recordedUtc: i64)
    requires s.lifecycle.Receiving? && s.timeline.Some? && s.clock.Some?
    ensures var t := HandleEvents(setup, s, [e], 0, audio, replies, now, recordedUtc, []).0;
            && (e.Incomplete? ==> t == s)
            && (e.Window? ==>
                  || (t == s.(log := t.log, spectrum := t.spectrum) && Logged(setup, s.log, t.log, e.window))
                  || (&& t.lifecycle.Inhibited?
                      && t == Inhibit(s.(log := t.log), t.lifecycle.reason).(spectrum := t.spectrum)
                      && (t.log == s.log || Logged(setup, s.log, t.log, e.window))))
            && Retained(s, t)
  {
    hide ShowWindow, PublishWaterfall, ReceiveClock.AlignWindow, RecordOf;
    if e.Window? {
      var g := ReceiveClock.Gate(s.clock.value, e, now);
      GateAge(s.clock.value, e, now);
      if g.1.WindowReady? {
        KeepOne(setup, s, e.window, g.1.alignment.mappingAge, audio, replies.services, recordedUtc);
        hide KeepWindow;
      }
    }
  }

  lemma GateAge(m: ReceiveClock.Monitor, e: TimelineEvent, now: u64)
    ensures ReceiveClock.Gate(m, e, now).1.WindowReady? ==>
              ReceiveClock.Gate(m, e, now).0 == m && ReceiveClock.Gate(m, e, now).1.alignment.mappingAge <= now
  {
  }

  lemma KeepOne(
    setup: Setup, s: State, w: ReceiveWindow, age: u64, audio: AudioHealth, services: Services, recordedUtc: i64)
    requires s.timeline.Some?
    ensures var (t, r) := KeepWindow(setup, s, w, age, audio, services, recordedUtc);
            var shown := ShowWindow(s.spectrum, w);
            && t == s.(log := t.log, spectrum := t.spectrum) && Logged(setup, s.log, t.log, w)
            && var fate := t.log.entries[|t.log.entries| - 1].fate;
               && (fate.SpectrumFailed? <==> !shown.1) && (r == Err(None) <==> !shown.1)
               && t.spectrum == (if shown.1 then PublishWaterfall(shown.0).0 else shown.0)
               && (r.Ok? ==> fate.Stored?)
  {
    hide Decodes.Sorted, ShowWindow, PublishWaterfall;
  }

  lemma AcceptKeepsLog(setup: Setup, s: State, g: Generation, b: CaptureBatch)
    requires LogOk(setup, s.log, s.lastStream) && g <= s.lastStream
    requires Follows(setup, g, s.log.Of(g).accepted + [b], |s.log.Of(g).accepted|)
    requires s.log.Of(g).accepted + [b] <= s.log.Of(g).obtained
    ensures LogOk(setup, LogAccepted(s, g, b).log, s.lastStream)
  {
    var log := LogAccepted(s, g, b).log;
    hide Follows, WindowFrom, Next;
    assert StreamOk(setup, s.log, g) by { hide EntryOk; }
    ContiguousSnoc(setup, g, s.log.Of(g).accepted, b);
    hide Contiguous;
    forall i | 0 <= i < |log.entries|
      ensures EntryOk(setup, log, s.lastStream, log.entries[i])
    {
      var e := log.entries[i];
      assert EntryOk(setup, s.log, s.lastStream, e);
      var k: nat :| WindowFrom(setup, e.stream, s.log.Of(e.stream).accepted, k, e.window);
      if e.stream == g {
        WindowFromStable(setup, g, s.log.Of(g).accepted, b, k, e.window);
      }
      assert WindowFrom(setup, e.stream, log.Of(e.stream).accepted, k, e.window);
    }
    forall h | h in log.streams
      ensures h <= s.lastStream && StreamOk(setup, log, h)
    {
      if h != g {
        assert StreamOk(setup, s.log, h);
      }
    }
  }

  /** Logging the next window of the newest stream keeps the history in order. */
  lemma LoggedKeepsLog(setup: Setup, before: Log, after: Log, last: u64, w: ReceiveWindow, k: nat)
    requires LogOk(setup, before, last) && Logged(setup, before, after, w) && w.streamGeneration <= last
    requires WindowFrom(setup, w.streamGeneration, before.Of(w.streamGeneration).accepted, k, w)
    requires before.entries != [] ==>
               Next(before.entries[|before.entries| - 1], Entry(w.streamGeneration, w, SpectrumFailed))
    ensures LogOk(setup, after, last)
  {
    hide WindowFrom, Contiguous;
    forall g | g in after.streams
      ensures g <= last && StreamOk(setup, after, g)
    {
      assert StreamOk(setup, before, g);
    }
    forall i | 0 <= i < |after.entries|
      ensures EntryOk(setup, after, last, after.entries[i])
    {
      var e := after.entries[i];
      if i < |before.entries| {
        assert EntryOk(setup, before, last, before.entries[i]);
        var j: nat :| WindowFrom(setup, e.stream, before.Of(e.stream).accepted, j, e.window);
        assert WindowFrom(setup, e.stream, after.Of(e.stream).accepted, j, e.window);
      } else {
        assert WindowFrom(setup, e.stream, after.Of(e.stream).accepted, k, e.window);
      }
    }
  }

  /** The next window of a stream follows the newest entry. */
  lemma NewestThenNext(setup: Setup, g: Generation, batches: seq<CaptureBatch>, b: CaptureBatch, entries: seq<Entry>, w: ReceiveWindow)
    requires NewestEntry(setup, g, batches, entries)
    requires WindowFrom(setup, g, batches + [b], WindowsIn(setup, g, batches), w)
    ensures entries != [] ==> Next(entries[|entries| - 1], Entry(g, w, SpectrumFailed))
  {
    hide TickCount, WindowAt, FirstSlot, WindowCount, FramesOf;
  }

  lemma NewestStable(setup: Setup, g: Generation, batches: seq<CaptureBatch>, b: CaptureBatch, entries: seq<Entry>)
    requires NewestEntry(setup, g, batches, entries)
    requires WindowsIn(setup, g, batches + [b]) == WindowsIn(setup, g, batches)
    ensures NewestEntry(setup, g, batches + [b], entries)
  {
    hide WindowFrom, WindowsIn;
    if WindowsIn(setup, g, batches) > 0 {
      WindowFromStable(setup, g, batches, b, WindowsIn(setup, g, batches) - 1, entries[|entries| - 1].window);
    }
  }

  /** One batch from a well-ordered, active state: everything before the event loop. */
  lemma PushKeeps(setup: Setup, s: State, g: Generation, b: CaptureBatch, now: u64)
    requires LogOk(setup, s.log, s.lastStream) && s.lifecycle == Receiving(g) && g == s.lastStream
    requires s.inputOpen && ClockReady(setup, s.clock) && s.timeline.Some? && |s.worker| < WORKER_BATCH_CAPACITY
    requires TimelineInStep(setup, g, s.timeline.value, s.log.Of(g).accepted)
    requires s.log.Of(g).obtained == s.log.Of(g).accepted + [b] + s.worker
    requires Timeline.Push(s.timeline.value, b, now).1.Ok?
    ensures var t := LogAccepted(s.(timeline := Some(Timeline.Push(s.timeline.value, b, now).0)), g, b);
            && LogOk(setup, t.log, t.lastStream)
            && t.log.Of(g).obtained == t.log.Of(g).accepted + t.worker
            && t.log.Of(g).accepted == s.log.Of(g).accepted + [b]
            && TimelineInStep(setup, g, t.timeline.value, t.log.Of(g).accepted)
  {
    hide LogOk, TimelineInStep, Follows;
    AcceptStep(setup, g, s.timeline.value, s.log.Of(g).accepted, b, now);
    AcceptKeepsLog(setup, s, g, b);
  }

  lemma ProcessKeeps(
    setup: Setup, s: State, g: Generation, b: CaptureBatch, audio: AudioHealth, replies: Replies, now: u64, recordedUtc: i64)
    requires LogOk(setup, s.log, s.lastStream) && s.lifecycle == Receiving(g) && g == s.lastStream
    requires s.inputOpen && ClockReady(setup, s.clock) && s.timeline.Some? && |s.worker| < WORKER_BATCH_CAPACITY
    requires TimelineInStep(setup, g, s.timeline.value, s.log.Of(g).accepted)
    requires s.log.Of(g).obtained == s.log.Of(g).accepted + [b] + s.worker
    requires NewestEntry(setup, g, s.log.Of(g).accepted, s.log.entries)
    ensures Invariant(setup, ProcessBatch(setup, s, b, audio, replies, now, recordedUtc).0)
  {
    var pushed := Timeline.Push(s.timeline.value, b, now);
    hide Timeline.Push, LogOk, TimelineInStep, HandleEvents, NewestEntry, WindowFrom, WindowsIn,
         ReceiveClock.Monitor.Valid;
    if pushed.1.Err? {
      InhibitKeeps(setup, s.(timeline := Some(pushed.0)), TimelineInhibition(pushed.1.error));
    } else {
      var before := s.log.Of(g).accepted;
      var t := LogAccepted(s.(timeline := Some(pushed.0)), g, b);
      PushKeeps(setup, s, g, b, now);
      AcceptStep(setup, g, s.timeline.value, before, b, now);
      ReportedWindow(setup, g, s.timeline.value, before, b, now);
      if pushed.1.value == [] {
        HandleNone(setup, t, audio, replies, now, recordedUtc);
        NewestStable(setup, g, before, b, s.log.entries);
      } else {
        var e := pushed.1.value[0];
        assert pushed.1.value == [e];
        EventKeeps(setup, t, g, b, before, e, audio, replies, now, recordedUtc);
      }
    }
  }

  lemma HandleNone(setup: Setup, s: State, audio: AudioHealth, replies: Replies, now: u64, recordedUtc: i64)
    requires s.lifecycle.Receiving? && s.timeline.Some? && s.clock.Some?
    ensures HandleEvents(setup, s, [], 0, audio, replies, now, recordedUtc, []).0 == s
  {
  }

  lemma EventKeeps(
    setup: Setup, s: State, g: Generation, b: CaptureBatch, before: seq<CaptureBatch>, e: TimelineEvent,
    audio: AudioHealth, replies: Replies, now: u64, recordedUtc: i64)
    requires LogOk(setup, s.log, s.lastStream) && s.lifecycle == Receiving(g) && g == s.lastStream
    requires s.inputOpen && ClockReady(setup, s.clock) && s.timeline.Some? && |s.worker| < WORKER_BATCH_CAPACITY
    requires s.log.Of(g).accepted == before + [b]
    requires TimelineInStep(setup, g, s.timeline.value, before + [b])
    requires s.log.Of(g).obtained == before + [b] + s.worker
    requires NewestEntry(setup, g, before, s.log.entries)
    requires var n := WindowsIn(setup, g, before);
             if e.Incomplete? then WindowsIn(setup, g, before + [b]) == n
             else WindowsIn(setup, g, before + [b]) == n + 1 && WindowFrom(setup, g, before + [b], n, e.window)
    ensures Invariant(setup, HandleEvents(setup, s, [e], 0, audio, replies, now, recordedUtc, []).0)
  {
    hide LogOk, TimelineInStep, HandleEvents, NewestEntry, WindowFrom, WindowsIn, Logged, ReceiveClock.Monitor.Valid;
    HandleOne(setup, s, e, audio, replies, now, recordedUtc);
    var t := HandleEvents(setup, s, [e], 0, audio, replies, now, recordedUtc, []).0;
    if e.Incomplete? {
      NewestStable(setup, g, before, b, s.log.entries);
    } else {
      var n := WindowsIn(setup, g, before);
      NewestThenNext(setup, g, before, b, s.log.entries, e.window);
      WindowFromStream(setup, g, before + [b], n, e.window);
      if Logged(setup, s.log, t.log, e.window) {
        LoggedKeepsLog(setup, s.log, t.log, s.lastStream, e.window, n);
        LoggedIsNewest(setup, g, before + [b], s.log, t.log, e.window);
      }
      if t.lifecycle.Inhibited? {
        InhibitKeeps(setup, s.(log := t.log), t.lifecycle.reason);
        SpectrumFree(setup, Inhibit(s.(log := t.log), t.lifecycle.reason), t.spectrum);
      }
    }
  }

  lemma WindowFromStream(setup: Setup, g: Generation, batches: seq<CaptureBatch>, k: nat, w: ReceiveWindow)
    requires WindowFrom(setup, g, batches, k, w)
    ensures w.streamGeneration == g
  {
  }

  lemma LoggedIsNewest(setup: Setup, g: Generation, batches: seq<CaptureBatch>, before: Log, after: Log, w: ReceiveWindow)
    requires Logged(setup, before, after, w) && w.streamGeneration == g
    requires WindowsIn(setup, g, batches) > 0 && WindowFrom(setup, g, batches, WindowsIn(setup, g, batches) - 1, w)
    ensures NewestEntry(setup, g, batches, after.entries) && after.streams == before.streams
  {
    hide WindowsIn, WindowFrom;
  }

  lemma ObtainedKeepsLog(setup: Setup, s: State, g: Generation, more: seq<CaptureBatch>)
    requires LogOk(setup, s.log, s.lastStream) && g <= s.lastStream
    ensures LogOk(setup, LogObtained(s, g, more).log, s.lastStream)
  {
    hide Contiguous, WindowFrom, Next;
    var log := LogObtained(s, g, more).log;
    forall h | h in log.streams
      ensures h <= s.lastStream && StreamOk(setup, log, h)
    {
      if h in s.log.streams {
        assert StreamOk(setup, s.log, h);
      } else {
        NothingContiguous(setup, h);
      }
    }
    forall i | 0 <= i < |log.entries|
      ensures EntryOk(setup, log, s.lastStream, log.entries[i])
    {
      SameAcceptedKeepsEntry(setup, s.log, log, s.lastStream, log.entries[i]);
    }
  }

  lemma NothingContiguous(setup: Setup, g: Generation)
    ensures Contiguous(setup, g, [])
  {
  }

  lemma SameAcceptedKeepsEntry(setup: Setup, before: Log, after: Log, last: u64, e: Entry)
    requires EntryOk(setup, before, last, e) && after.Of(e.stream).accepted == before.Of(e.stream).accepted
    ensures EntryOk(setup, after, last, e)
  {
    hide WindowFrom;
    var k: nat :| WindowFrom(setup, e.stream, before.Of(e.stream).accepted, k, e.window);
    assert WindowFrom(setup, e.stream, after.Of(e.stream).accepted, k, e.window);
  }

  lemma AdmitKeepsLog(setup: Setup, s: State, g: Generation, admitted: seq<CaptureBatch>)
    requires LogOk(setup, s.log, s.lastStream) && g <= s.lastStream && s.worker <= admitted
    requires s.log.Of(g).obtained == s.log.Of(g).accepted + s.worker
    ensures var t := LogObtained(s.(worker := admitted), g, admitted[|s.worker|..]);
            && LogOk(setup, t.log, s.lastStream)
            && t == s.(worker := admitted, log := t.log)
            && t.log.Of(g).accepted == s.log.Of(g).accepted && t.log.entries == s.log.entries
            && t.log.Of(g).obtained == t.log.Of(g).accepted + admitted
  {
    hide LogOk;
    ObtainedKeepsLog(setup, s, g, admitted[|s.worker|..]);
    assert admitted == s.worker + admitted[|s.worker|..];
  }

  lemma WorkKeeps(
    setup: Setup, s: State, g: Generation, audio: AudioHealth, replies: Replies, now: u64, recordedUtc: i64)
    requires LogOk(setup, s.log, s.lastStream) && s.lifecycle == Receiving(g) && g == s.lastStream && Active(setup, s, g)
    ensures Invariant(setup, Work(setup, s, audio, replies, now, recordedUtc).0)
  {
    hide LogOk, TimelineInStep, NewestEntry, ProcessBatch, ReceiveClock.Monitor.Valid, Admit, LogObtained, Log.Of;
    var admitted := Admit(s.worker, replies, 0);
    AdmitExtends(s.worker, replies, 0);
    AdmitKeepsLog(setup, s, g, admitted.0);
    var t := LogObtained(s.(worker := admitted.0), g, admitted.0[|s.worker|..]);
    if admitted.1.Some? {
      InhibitKeeps(setup, t, InputInhibition(ErrorKind(admitted.1.value)));
    } else if t.worker != [] {
      assert t.worker == [t.worker[0]] + t.worker[1..];
      ProcessKeeps(setup, t.(worker := t.worker[1..]), g, t.worker[0], audio, replies, now, recordedUtc);
    }
  }

  lemma PollKeeps(setup: Setup, s: State, replies: Replies, now: u64, recordedUtc: i64)
    requires Invariant(setup, s)
    ensures Invariant(setup, Poll(setup, s, replies, now, recordedUtc).0)
  {
    hide LogOk, TimelineInStep, NewestEntry, Work;
    if s.lifecycle.Receiving? {
      if replies.fault.Some? {
        InhibitKeeps(setup, s, InputInhibition(replies.fault.value));
      } else if replies.health.Err? {
        InhibitKeeps(setup, s, InputInhibition(ErrorKind(replies.health.error)));
      } else if replies.health.value.overflowCount > 0 {
        InhibitKeeps(setup, s, InputInhibition(Overflowed(0)));
      } else {
        var t := s.(clock := Some(ReceiveClock.Refresh(s.clock.value, now)));
        if t.clock.value.state.Unhealthy? {
          InhibitKeeps(setup, t, ClockInhibition(t.clock.value.state.fault));
        } else {
          WorkKeeps(setup, t, s.lifecycle.stream, replies.health.value, replies, now, recordedUtc);
        }
      }
    }
  }

  lemma ObserveKeeps(setup: Setup, s: State, o: ReceiveClock.Observation, at: u64)
    requires Invariant(setup, s)
    ensures Invariant(setup, ObserveClock(s, o, at).0)
  {
    hide LogOk, TimelineInStep, NewestEntry, ReceiveClock.Observe, ReceiveClock.Monitor.Valid;
    if s.lifecycle.Receiving? {
      ReceiveClock.HealthyTransition(s.clock.value, o, at);
      ReceiveClock.ObserveValid(s.clock.value, o, at);
      ObserveKeepsIdentity(s.clock.value, o, at);
      var (monitor, transition) := ReceiveClock.Observe(s.clock.value, o, at);
      if monitor.state.Unhealthy? {
        InhibitKeeps(setup, s.(clock := Some(monitor)), ClockInhibition(monitor.state.fault));
      }
    }
  }

  lemma ObserveKeepsIdentity(m: ReceiveClock.Monitor, o: ReceiveClock.Observation, at: u64)
    ensures ReceiveClock.Observe(m, o, at).0.generation == m.generation
    ensures ReceiveClock.Observe(m, o, at).0.config == m.config
  {
  }

  /** A fresh generation starts with an empty history that the older entries precede. */
  lemma StartKeepsLog(setup: Setup, log: Log, last: u64, g: Generation)
    requires LogOk(setup, log, last) && g == last + 1
    ensures LogOk(setup, log.(attempts := log.attempts + [g], streams := log.streams[g := Stream([], [])]), g)
    ensures NewestEntry(setup, g, [], log.entries)
  {
    hide Contiguous, WindowFrom, Next;
    var after := log.(attempts := log.attempts + [g], streams := log.streams[g := Stream([], [])]);
    forall h | h in after.streams
      ensures h <= g && StreamOk(setup, after, h)
    {
      if h == g {
        NothingContiguous(setup, h);
      } else {
        assert StreamOk(setup, log, h);
      }
    }
    forall i | 0 <= i < |after.entries|
      ensures EntryOk(setup, after, g, after.entries[i])
    {
      assert EntryOk(setup, log, last, log.entries[i]);
      SameAcceptedKeepsEntry(setup, log, after, last, log.entries[i]);
    }
  }

  lemma StartKeeps(setup: Setup, s: State, initial: ReceiveClock.Observation, reply: Option<InputError>)
    requires Invariant(setup, s) && setup.clock.Valid()
    ensures Invariant(setup, Start(setup, s, initial, reply).0)
  {
    hide LogOk, NewestEntry;
    if s.lifecycle.Stopped? && s.lastStream < U64_MAX {
      StartKeepsLog(setup, s.log, s.lastStream, s.lastStream + 1);
    }
  }

  lemma StopKeeps(setup: Setup, s: State, reason: StopReason)
    requires Invariant(setup, s)
    ensures Invariant(setup, Stop(s, reason).0)
  {
    hide LogOk, NewestEntry, TimelineInStep;
  }

  lemma EnableKeeps(setup: Setup, s: State, config: Spectrum.ValidConfig, planned: bool)
    requires Invariant(setup, s)
    ensures Invariant(setup, EnableSpectrum(s, config, planned))
  {
    hide Contiguous, WindowFrom, TimelineInStep, NewestEntry, Next;
    var log := EnableSpectrum(s, config, planned).log;
    forall h | h in log.streams
      ensures h <= s.lastStream && StreamOk(setup, log, h)
    {
      assert StreamOk(setup, s.log, h);
    }
    forall i | 0 <= i < |log.entries|
      ensures EntryOk(setup, log, s.lastStream, log.entries[i])
    {
      SameAcceptedKeepsEntry(setup, s.log, log, s.lastStream, log.entries[i]);
    }
  }

  lemma ApplyKeeps(setup: Setup, s: State, call: Call)
    requires Invariant(setup, s) && setup.clock.Valid()
    ensures Invariant(setup, Apply(setup, s, call))
  {
    hide Invariant, Start, Poll, ObserveClock, Stop, EnableSpectrum;
    match call {
      case StartCall(initial, reply) => StartKeeps(setup, s, initial, reply);
      case ObserveCall(o, at) => ObserveKeeps(setup, s, o, at);
      case PollCall(replies, now, recordedUtc) => PollKeeps(setup, s, replies, now, recordedUtc);
      case StopCall(reason) => StopKeeps(setup, s, reason);
      case EnableCall(config, planned) => EnableKeeps(setup, s, config, planned);
    }
  }

  /** After every public call of every run, given a valid clock configuration. */
  lemma {:induction false} InvariantAlways(setup: Setup, calls: seq<Call>)
    requires setup.clock.Valid()
    ensures Invariant(setup, RunCalls(setup, calls))
  {
    if calls != [] {
      InvariantAlways(setup, calls[..|calls| - 1]);
      hide Invariant, Apply;
      ApplyKeeps(setup, RunCalls(setup, calls[..|calls| - 1]), calls[|calls| - 1]);
    }
  }
}
