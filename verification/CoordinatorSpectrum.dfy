/**
 The spectrum model inside the coordinator: which windows of a stream are stored, and why.
 */
module CoordinatorSpectrum {
  import opened Numeric
  import opened Audio
  import opened Records
  import opened Resampling
  import opened Coordinator
  import opened CoordinatorRuns
  import opened CoordinatorTheorems
  import Timeline
  import ReceiveClock
  import Spectrum

  // ---------------------------------------------------------------------
  // The spectrum while a stream is received
  // ---------------------------------------------------------------------

  predicate HasNewest(entries: seq<Entry>, g: Generation) {
    entries != [] && entries[|entries| - 1].stream == g
  }

  /** Slot of the newest window of stream `g`, or the slot before the first. */
  function LastSlot(entries: seq<Entry>, g: Generation): int {
    if HasNewest(entries, g) then entries[|entries| - 1].window.slotStartUtc else -SLOT_MILLIS
  }

  predicate LastFailed(entries: seq<Entry>, g: Generation) {
    HasNewest(entries, g) && entries[|entries| - 1].fate.SpectrumFailed?
  }

  /** The newest window of the stream was stored or failed in the spectrum.  The model is in step, or it
      failed on that window and is broken for good; only exchanging it can mend it. */
  ghost predicate SpectrumOk(spectrum: Option<Spectrum.LiveModel>, g: Generation, log: Log) {
    var (last, failed) := (LastSlot(log.entries, g), LastFailed(log.entries, g));
    && (HasNewest(log.entries, g) ==> failed || log.entries[|log.entries| - 1].fate.Stored?)
    && (spectrum.Some? ==> Spectrum.Usable(spectrum.value, last) || (failed && Spectrum.Broken(spectrum.value, last)))
    && (failed && |log.entries| !in log.exchanged ==> spectrum.Some? && Spectrum.Broken(spectrum.value, last))
  }

  /** A window followed by another of its stream was stored or failed in the spectrum, and then so did the
      other, unless the model was exchanged between them. */
  predicate FateStep(exchanged: bool, a: Entry, b: Entry) {
    a.stream == b.stream ==>
      && (a.fate.Stored? || a.fate.SpectrumFailed?)
      && (a.fate.SpectrumFailed? ==> b.fate.SpectrumFailed? || exchanged)
  }

  ghost predicate FatesOk(log: Log) {
    forall i, j | 0 <= i && j == i + 1 && j < |log.entries| :: FateStep(j in log.exchanged, log.entries[i], log.entries[j])
  }

  ghost predicate SpectrumInvariant(s: State) {
    FatesOk(s.log) && (s.lifecycle.Receiving? ==> SpectrumOk(s.spectrum, s.lifecycle.stream, s.log))
  }

  /** What a window does to the model of its stream. */
  lemma ShowStep(spectrum: Option<Spectrum.LiveModel>, last: int, w: ReceiveWindow)
    requires w.Valid() && w.slotStartUtc >= last + SLOT_MILLIS
    requires spectrum.Some? ==> Spectrum.Usable(spectrum.value, last) || Spectrum.Broken(spectrum.value, last)
    ensures var shown := ShowWindow(spectrum, w);
            && (shown.1 && spectrum.Some? ==>
                  shown.0.Some? && Spectrum.Usable(PublishWaterfall(shown.0).0.value, w.slotStartUtc))
            && (!shown.1 ==> shown.0.Some? && Spectrum.Broken(shown.0.value, w.slotStartUtc))
            && (spectrum.Some? && Spectrum.Broken(spectrum.value, last) ==> !shown.1)
            && (spectrum.Some? <==> shown.0.Some?)
  {
    if spectrum.Some? {
      hide Spectrum.PushWindow, Spectrum.Holds, Spectrum.RowCount, Spectrum.RowsFit, Spectrum.Publish;
      if Spectrum.Broken(spectrum.value, last) {
        Spectrum.BrokenWindow(spectrum.value, last, SourceOf(w), w.samples);
      } else {
        Spectrum.UsableWindow(spectrum.value, last, SourceOf(w), w.samples);
        var shown := ShowWindow(spectrum, w);
        if shown.1 {
          Spectrum.PublishKeeps(shown.0.value);
          assert Spectrum.Holds(Spectrum.Publish(shown.0.value).0, Some(Spectrum.Segment(SourceOf(w), 0, w.samples)));
        }
      }
    }
  }

  /** The window a poll adds is valid and later than the newest of its stream. */
  lemma AddedWindow(setup: Setup, s: State, t: State, g: Generation)
    requires s.lifecycle == Receiving(g) && Invariant(setup, t) && Retained(s, t) && AddsTo(s, t, g)
    requires t.log.entries != s.log.entries
    ensures var n := |s.log.entries|;
            && |t.log.entries| == n + 1 && t.log.entries[..n] == s.log.entries && t.log.entries[n].stream == g
            && t.log.entries[n].window.Valid()
            && t.log.entries[n].window.slotStartUtc >= LastSlot(s.log.entries, g) + SLOT_MILLIS
  {
    hide TimelineInStep, NewestEntry, StreamOk, ShowWindow, Shown, Contiguous;
    var n := |s.log.entries|;
    var e := t.log.entries[n];
    assert EntryOk(setup, t.log, t.lastStream, e);
    hide WindowsIn, WindowAt, FirstSlot;
    var k: nat :| WindowFrom(setup, e.stream, t.log.Of(e.stream).accepted, k, e.window);
    if n > 0 {
      assert Next(t.log.entries[n - 1], t.log.entries[n]);
    }
  }

  lemma PollStep(setup: Setup, s: State, t: State, g: Generation)
    requires s.lifecycle == Receiving(g) && SpectrumInvariant(s)
    requires Invariant(setup, t) && Retained(s, t) && AddsTo(s, t, g)
    requires t.lifecycle.Receiving? ==> t.lifecycle.stream == g
    ensures SpectrumInvariant(t)
  {
    hide Invariant, AddsTo;
    if t.log.entries != s.log.entries {
      AddedWindow(setup, s, t, g);
      var n := |s.log.entries|;
      var e := t.log.entries[n];
      var added := t.log.entries[n..];
      assert added == [e];
      ShowStep(s.spectrum, LastSlot(s.log.entries, g), e.window);
      hide ShowWindow, PublishWaterfall, Spectrum.Broken, Spectrum.Usable;
      forall i, j | 0 <= i && j == i + 1 && j < |t.log.entries|
        ensures FateStep(j in t.log.exchanged, t.log.entries[i], t.log.entries[j])
      {
        assert t.log.entries[i] == s.log.entries[i];
        if j < n {
          assert t.log.entries[j] == s.log.entries[j];
          assert FateStep(j in s.log.exchanged, s.log.entries[i], s.log.entries[j]);
        }
      }
    } else {
      assert t.log.entries[|s.log.entries|..] == [];
    }
  }

  lemma StreamKept(setup: Setup, s: State, call: Call)
    requires Invariant(setup, s) && call.PollCall? && s.lifecycle.Receiving?
    requires setup.clock.Valid()
    ensures var t := Apply(setup, s, call); t.lifecycle.Receiving? ==> t.lifecycle.stream == s.lifecycle.stream
  {
    KeepsGenerations(setup, s, call);
    ApplyKeeps(setup, s, call);
    hide Apply, LogOk, TimelineInStep, NewestEntry;
  }

  lemma ObserveStep(s: State, o: ReceiveClock.Observation, at: u64)
    requires SpectrumInvariant(s)
    ensures SpectrumInvariant(ObserveClock(s, o, at).0)
  {
    hide SpectrumOk, FatesOk, ReceiveClock.Observe;
  }

  lemma StartStep(setup: Setup, s: State, initial: ReceiveClock.Observation, reply: Option<InputError>)
    requires Invariant(setup, s) && SpectrumInvariant(s)
    ensures SpectrumInvariant(Start(setup, s, initial, reply).0)
  {
    var t := Start(setup, s, initial, reply).0;
    if t.lifecycle.Receiving? && s.lifecycle.Stopped? {
      if s.log.entries != [] {
        assert EntryOk(setup, s.log, s.lastStream, s.log.entries[|s.log.entries| - 1]);
      }
      if s.spectrum.Some? {
        Spectrum.ResetUsable(s.spectrum.value, Spectrum.StreamChanged, -SLOT_MILLIS);
      }
    }
    hide StreamOk, FromStream, TimelineInStep, NewestEntry, Spectrum.Usable, Spectrum.Broken;
  }

  lemma EnableStep(s: State, config: Spectrum.ValidConfig, planned: bool)
    requires SpectrumInvariant(s)
    ensures SpectrumInvariant(EnableSpectrum(s, config, planned))
  {
    var t := EnableSpectrum(s, config, planned);
    forall i, j | 0 <= i && j == i + 1 && j < |t.log.entries|
      ensures FateStep(j in t.log.exchanged, t.log.entries[i], t.log.entries[j])
    {
      assert FateStep(j in s.log.exchanged, s.log.entries[i], s.log.entries[j]);
    }
    if s.lifecycle.Receiving? {
      Spectrum.NewUsable(config, LastSlot(s.log.entries, s.lifecycle.stream));
    }
    hide Spectrum.Usable, Spectrum.Broken;
  }

  lemma SpectrumStep(setup: Setup, s: State, call: Call)
    requires setup.clock.Valid() && Invariant(setup, s) && SpectrumInvariant(s)
    ensures SpectrumInvariant(Apply(setup, s, call))
  {
    match call {
      case StartCall(initial, reply) => StartStep(setup, s, initial, reply);
      case ObserveCall(o, at) => ObserveStep(s, o, at);
      case StopCall(reason) =>
      case EnableCall(config, planned) => EnableStep(s, config, planned);
      case PollCall(replies, now, recordedUtc) =>
        hide Invariant, SpectrumInvariant, Poll;
        if s.lifecycle.Receiving? {
          OneWindowPerCall(setup, s, call);
          ApplyKeeps(setup, s, call);
          StreamKept(setup, s, call);
          PollStep(setup, s, Apply(setup, s, call), s.lifecycle.stream);
        } else {
          IdlePoll(setup, s, replies, now, recordedUtc);
        }
    }
  }

  lemma {:induction false} SpectrumAlways(setup: Setup, calls: seq<Call>)
    requires setup.clock.Valid()
    ensures SpectrumInvariant(RunCalls(setup, calls))
  {
    if calls != [] {
      var before := calls[..|calls| - 1];
      SpectrumAlways(setup, before);
      InvariantAlways(setup, before);
      hide Invariant, Apply, SpectrumInvariant;
      SpectrumStep(setup, RunCalls(setup, before), calls[|calls| - 1]);
    }
  }

  // ---------------------------------------------------------------------
  // Stored slots are consecutive
  // ---------------------------------------------------------------------

  /** The model was not exchanged between the windows `i` and `j`. */
  predicate Unexchanged(log: Log, i: nat, j: nat) { forall n | n in log.exchanged :: !(i < n <= j) }

  lemma {:induction false} FailedStays(setup: Setup, log: Log, last: u64, i: nat, j: nat)
    requires LogOk(setup, log, last) && FatesOk(log) && i < j < |log.entries|
    requires log.entries[i].stream == log.entries[j].stream && Unexchanged(log, i, j)
    requires !log.entries[i].fate.Stored?
    ensures log.entries[j].fate.SpectrumFailed?
    decreases j
  {
    hide EntryOk, StreamOk;
    assert FateStep(j in log.exchanged, log.entries[j - 1], log.entries[j]);
    if i < j - 1 {
      EntriesAdvance(setup, log, last, i, j - 1);
      assert Next(log.entries[j - 1], log.entries[j]);
      FailedStays(setup, log, last, i, j - 1);
    }
  }

  /** The stored windows of a stream are its first windows, in consecutive slots, in every run: a stored
      window is preceded by nothing but stored windows, back to the last exchange of the spectrum model. */
  lemma StoredSlotsConsecutive(setup: Setup, calls: seq<Call>, i: nat, j: nat)
    requires setup.clock.Valid() && i < j < |RunCalls(setup, calls).log.entries|
    ensures var log := RunCalls(setup, calls).log;
            var (a, b) := (log.entries[i], log.entries[j]);
            a.stream == b.stream && Unexchanged(log, i, j) && b.fate.Stored? ==>
              && a.fate.Stored? && a.fate.record.context == ContextOf(setup, a.window)
              && b.window.slotStartUtc == a.window.slotStartUtc + (j - i) * SLOT_MILLIS
  {
    InvariantAlways(setup, calls);
    SpectrumAlways(setup, calls);
    WindowsInOrder(setup, calls, i, j);
    var s := RunCalls(setup, calls);
    hide RunCalls, FatesOk, StreamOk, FromStream;
    assert EntryOk(setup, s.log, s.lastStream, s.log.entries[i]);
    hide LogOk;
    var (a, b) := (s.log.entries[i], s.log.entries[j]);
    if a.stream == b.stream && Unexchanged(s.log, i, j) && !a.fate.Stored? {
      FailedStays(setup, s.log, s.lastStream, i, j);
    }
  }

  /** Across an exchange it does happen: with the row numbers used up a window fails in the spectrum and
      reception goes on; after the exchange the next window is stored. */
  lemma ExchangeStoresLaterWindow(
    setup: Setup, s: State, w: ReceiveWindow, v: ReceiveWindow, config: Spectrum.ValidConfig, age: u64,
    audio: AudioHealth, services: Services, recordedUtc: i64)
    requires s.timeline.Some? && s.spectrum.Some? && s.spectrum.value.board.nextSequence == U64_MAX
    requires w.Valid() && v.Valid() && v.slotStartUtc == w.slotStartUtc + SLOT_MILLIS
    requires (v.slotStartUtc + SLOT_MILLIS) * 1_000 <= I64_MAX
    requires services.decode(v.samples).Some?
    requires var record := RecordOf(setup, v, audio, s.timeline.value.health, age, services.decode(v.samples).value, recordedUtc);
             record.Ok? && services.store(record.value)
    ensures var failed := KeepWindow(setup, s, w, age, audio, services, recordedUtc);
            var exchanged := EnableSpectrum(failed.0, config, true);
            var later := KeepWindow(setup, exchanged, v, age, audio, services, recordedUtc);
            var (n, entries) := (|s.log.entries|, later.0.log.entries);
            && failed.1 == Err(None) && failed.0.lifecycle == s.lifecycle && later.1.Ok?
            && |entries| == n + 2 && entries[n].fate.SpectrumFailed? && entries[n + 1].fate.Stored?
  {
    hide Spectrum.PushWindow, RecordOf, Spectrum.NewModel;
    Spectrum.BrokenWindow(s.spectrum.value, w.slotStartUtc - SLOT_MILLIS, SourceOf(w), w.samples);
    Spectrum.ReplacementRestores(s.spectrum.value, config, w.slotStartUtc, SourceOf(v), v.samples);
  }

  // ---------------------------------------------------------------------
  // No window fails while time is representable
  // ---------------------------------------------------------------------

  /** A batch whose slot, and the next, have representable microseconds. */
  predicate EarlyUtc(b: CaptureBatch) { (b.first.utc + SLOT_MILLIS) * 1_000 <= I64_MAX }

  /** `d` milliseconds after the anchor lie well before the batch that completes the slot there. */
  lemma SlotElapsed(rate: Rate, frames: nat, all: nat, d: nat)
    requires frames <= all <= frames + MAX_BATCH_FRAMES && all > 0
    requires TICKS_PER_MILLI * d + WINDOW_SAMPLES <= TickCount(all, rate)
    ensures d + 70 <= Quotient(frames * 1_000, rate)
  {
    var k := TICKS_PER_MILLI * d + WINDOW_SAMPLES - 1;
    TickDue(all, rate, k);
    QuotientBound(frames * 1_000, rate, d + 70);
    hide TickCount, Quotient;
    assert k * rate <= OUTPUT_RATE_HZ * (frames + MAX_BATCH_FRAMES);
    assert k == TICKS_PER_MILLI * (d + 70) + 179_159;
    ScaledSum(TICKS_PER_MILLI * (d + 70), 179_159, rate);
    ScaledProduct(d + 70, rate);
    ProductMonotone(MIN_RATE_HZ, rate, 179_159);
  }

  lemma ScaledSum(a: nat, b: nat, c: nat)
    ensures (a + b) * c == a * c + b * c
  {
  }

  lemma ScaledProduct(a: nat, c: nat)
    ensures (TICKS_PER_MILLI * a) * c == TICKS_PER_MILLI * (a * c)
  {
  }

  /** Every window of a stream starts before the last accepted batch does. */
  lemma SlotBeforeLastBatch(setup: Setup, g: Generation, batches: seq<CaptureBatch>, k: nat, w: ReceiveWindow)
    requires Contiguous(setup, g, batches) && WindowFrom(setup, g, batches, k, w)
    ensures batches != [] && w.slotStartUtc <= batches[|batches| - 1].first.utc
  {
    var m := |batches| - 1;
    var (before, b, c) := (batches[..m], batches[m], RunContext(setup, g, batches));
    assert Follows(setup, g, batches, m);
    var (frames, all) := (|FramesOf(before)|, |FramesOf(batches)|);
    assert batches == before + [b];
    FramesSnoc(before, b);
    WindowSlotStart(c, k);
    FirstSlotIsNext(c);
    WindowEnd(c, TickCount(all, c.rate), k);
    hide TickCount, FramesOf, WindowAt, Lead, FirstSlot, WindowCount, Contiguous, Quotient;
    var d := w.slotStartUtc - c.anchor.utc;
    assert TICKS_PER_MILLI * d == WindowStart(c, k) by { SlotOffset(c, k, w.slotStartUtc); }
    SlotElapsed(c.rate, frames, all, d);
    if m == 0 {
      assert FramesOf(before) == [] by { NoFrames(before, b); }
      NothingElapsed(c.rate);
    }
  }

  lemma NothingElapsed(rate: Rate)
    ensures Quotient(0 * 1_000, rate) == 0
  {
  }

  lemma SlotOffset(c: Context, k: nat, slot: int)
    requires slot == FirstSlot(c) + k * SLOT_MILLIS
    ensures TICKS_PER_MILLI * (slot - c.anchor.utc) == WindowStart(c, k) && slot >= c.anchor.utc
  {
    FirstSlotIsNext(c);
    hide FirstSlot, Lead;
  }

  lemma WindowEnd(c: Context, n: nat, k: nat)
    requires k < WindowCount(c, n)
    ensures WindowStart(c, k) + WINDOW_SAMPLES <= n
  {
    hide Lead;
  }

  predicate EarlyCall(call: Call) {
    call.PollCall? ==>
      forall i | 0 <= i < |call.replies.batches| ::
        call.replies.batches[i].Ok? && call.replies.batches[i].value.Some? ==> EarlyUtc(call.replies.batches[i].value.value)
  }

  predicate EarlyBatches(batches: seq<CaptureBatch>) { forall i | 0 <= i < |batches| :: EarlyUtc(batches[i]) }

  ghost predicate EarlyLog(log: Log) { forall g :: EarlyBatches(log.Of(g).obtained) }

  lemma AdmitEarly(worker: seq<CaptureBatch>, call: Call, i: nat)
    requires call.PollCall? && EarlyCall(call)
    ensures worker <= Admit(worker, call.replies, i).0
    ensures EarlyBatches(Admit(worker, call.replies, i).0[|worker|..])
    decreases WORKER_BATCH_CAPACITY - |worker|
  {
    hide EarlyUtc;
    AdmitExtends(worker, call.replies, i);
    if |worker| < WORKER_BATCH_CAPACITY {
      var next := call.replies.NextBatch(i);
      if next.Ok? && next.value.Some? {
        var b := next.value.value;
        AdmitEarly(worker + [b], call, i + 1);
        var all := Admit(worker, call.replies, i).0;
        assert all == Admit(worker + [b], call.replies, i + 1).0;
        assert all[|worker|..] == [b] + all[|worker| + 1..];
      }
    }
  }

  /** A poll gets as far as its admission loop. */
  predicate Admitting(s: State, replies: Replies, now: u64) {
    && s.lifecycle.Receiving? && s.timeline.Some? && s.clock.Some?
    && replies.fault.None? && replies.health.Ok? && replies.health.value.overflowCount == 0
    && ReceiveClock.Refresh(s.clock.value, now).state.Healthy?
  }

  /** A poll obtains exactly what its admission loop took, for the stream being received. */
  lemma PollObtains(setup: Setup, s: State, replies: Replies, now: u64, recordedUtc: i64, h: Generation)
    requires s.lifecycle.Receiving?
    ensures s.worker <= Admit(s.worker, replies, 0).0
    ensures Poll(setup, s, replies, now, recordedUtc).0.log.Of(h).obtained
         == s.log.Of(h).obtained
            + if h == s.lifecycle.stream && Admitting(s, replies, now) then Admit(s.worker, replies, 0).0[|s.worker|..] else []
  {
    hide Work, Admit, ReceiveClock.Refresh, ResetSpectrum;
    AdmitExtends(s.worker, replies, 0);
    if Admitting(s, replies, now) {
      var t := s.(clock := Some(ReceiveClock.Refresh(s.clock.value, now)));
      WorkObtains(setup, t, replies.health.value, replies, now, recordedUtc, h);
    }
  }

  lemma WorkObtains(
    setup: Setup, s: State, audio: AudioHealth, replies: Replies, now: u64, recordedUtc: i64, h: Generation)
    requires s.lifecycle.Receiving? && s.timeline.Some? && s.clock.Some?
    ensures s.worker <= Admit(s.worker, replies, 0).0
    ensures Work(setup, s, audio, replies, now, recordedUtc).0.log.Of(h).obtained
         == s.log.Of(h).obtained + if h == s.lifecycle.stream then Admit(s.worker, replies, 0).0[|s.worker|..] else []
  {
    hide ProcessBatch, Admit, ResetSpectrum;
    AdmitExtends(s.worker, replies, 0);
    var admitted := Admit(s.worker, replies, 0).0;
    var t := LogObtained(s.(worker := admitted), s.lifecycle.stream, admitted[|s.worker|..]);
    if t.worker != [] {
      ProcessObtains(setup, t.(worker := t.worker[1..]), t.worker[0], audio, replies, now, recordedUtc, h);
    }
  }

  lemma ProcessObtains(
    setup: Setup, s: State, b: CaptureBatch, audio: AudioHealth, replies: Replies, now: u64, recordedUtc: i64, h: Generation)
    requires s.lifecycle.Receiving? && s.timeline.Some? && s.clock.Some?
    ensures ProcessBatch(setup, s, b, audio, replies, now, recordedUtc).0.log.Of(h).obtained == s.log.Of(h).obtained
  {
    hide Timeline.Push, HandleEvents, ResetSpectrum;
    var pushed := Timeline.Push(s.timeline.value, b, now);
    if pushed.1.Ok? {
      var t := LogAccepted(s.(timeline := Some(pushed.0)), s.lifecycle.stream, b);
      HandleKeepsGenerations(setup, t, pushed.1.value, 0, audio, replies, now, recordedUtc, []);
    }
  }

  lemma EarlyStep(setup: Setup, s: State, call: Call)
    requires EarlyLog(s.log) && EarlyCall(call)
    ensures EarlyLog(Apply(setup, s, call).log)
  {
    hide EarlyUtc, EarlyBatches, Poll, ReceiveClock.Observe, Admitting;
    NothingEarly();
    var t := Apply(setup, s, call);
    forall g
      ensures EarlyBatches(t.log.Of(g).obtained)
    {
      assert EarlyBatches(s.log.Of(g).obtained);
      if call.PollCall? {
        if s.lifecycle.Receiving? {
          PollObtains(setup, s, call.replies, call.now, call.recordedUtc, g);
          AdmitEarly(s.worker, call, 0);
          EarlyJoin(s.log.Of(g).obtained, Admit(s.worker, call.replies, 0).0[|s.worker|..]);
          EarlyJoin(s.log.Of(g).obtained, []);
        } else {
          IdlePoll(setup, s, call.replies, call.now, call.recordedUtc);
        }
      }
    }
  }

  lemma EarlyJoin(one: seq<CaptureBatch>, two: seq<CaptureBatch>)
    requires EarlyBatches(one) && EarlyBatches(two)
    ensures EarlyBatches(one + two)
  {
    hide EarlyUtc;
  }

  lemma NothingEarly()
    ensures EarlyBatches([])
  {
  }

  /** Nothing failed in the spectrum so far, and the row counter has counted at most what `n` calls
      allow. */
  ghost predicate Sound(s: State, n: nat) {
    && EarlyLog(s.log)
    && (forall i | 0 <= i < |s.log.entries| :: !s.log.entries[i].fate.SpectrumFailed?)
    && (s.spectrum.Some? ==> s.spectrum.value.board.nextSequence <= n * Spectrum.MAX_WINDOW_ROWS)
  }

  /** A window whose batches are early never fails, and numbers a bounded number of rows. */
  lemma EarlyShown(spectrum: Option<Spectrum.LiveModel>, last: int, w: ReceiveWindow, n: nat)
    requires w.Valid() && w.slotStartUtc >= last + SLOT_MILLIS && (w.slotStartUtc + SLOT_MILLIS) * 1_000 <= I64_MAX
    requires spectrum.Some? ==>
               && Spectrum.Usable(spectrum.value, last)
               && spectrum.value.board.nextSequence <= n * Spectrum.MAX_WINDOW_ROWS
    requires (n + 1) * Spectrum.MAX_WINDOW_ROWS <= U64_MAX
    ensures var shown := ShowWindow(spectrum, w);
            && shown.1 && (spectrum.Some? <==> shown.0.Some?)
            && (shown.0.Some? ==>
                  PublishWaterfall(shown.0).0.value.board.nextSequence <= (n + 1) * Spectrum.MAX_WINDOW_ROWS)
  {
    if spectrum.Some? {
      hide Spectrum.PushWindow, Spectrum.Holds, Spectrum.RowCount, Spectrum.RowsFit, Spectrum.Usable;
      Spectrum.UsableWindow(spectrum.value, last, SourceOf(w), w.samples);
      Spectrum.EarlyWindowFits(spectrum.value.config, SourceOf(w), w.samples, spectrum.value.board.nextSequence);
    }
  }

  /** The window a poll adds lies no later than an accepted, early batch. */
  lemma AddedEarly(setup: Setup, t: State, i: nat)
    requires Invariant(setup, t) && EarlyLog(t.log) && i < |t.log.entries|
    ensures (t.log.entries[i].window.slotStartUtc + SLOT_MILLIS) * 1_000 <= I64_MAX
  {
    hide TimelineInStep, NewestEntry, Contiguous, WindowFrom, EarlyLog, Active;
    var e := t.log.entries[i];
    var stream := t.log.Of(e.stream);
    assert EntryOk(setup, t.log, t.lastStream, e);
    var k: nat :| WindowFrom(setup, e.stream, stream.accepted, k, e.window);
    if e.stream in t.log.streams {
      assert StreamOk(setup, t.log, e.stream);
    } else {
      NothingContiguous(setup, e.stream);
    }
    hide LogOk;
    SlotBeforeLastBatch(setup, e.stream, stream.accepted, k, e.window);
    EarlyAt(t.log, e.stream, |stream.accepted| - 1);
    assert stream.accepted[|stream.accepted| - 1] == stream.obtained[|stream.accepted| - 1];
  }

  lemma EarlyAt(log: Log, g: Generation, i: nat)
    requires EarlyLog(log) && i < |log.Of(g).obtained|
    ensures EarlyUtc(log.Of(g).obtained[i])
  {
    hide EarlyUtc;
    assert EarlyBatches(log.Of(g).obtained);
  }

  lemma SoundPoll(setup: Setup, s: State, t: State, g: Generation, n: nat)
    requires s.lifecycle == Receiving(g) && SpectrumInvariant(s) && Sound(s, n)
    requires Invariant(setup, t) && Retained(s, t) && AddsTo(s, t, g) && EarlyLog(t.log)
    requires (n + 1) * Spectrum.MAX_WINDOW_ROWS <= U64_MAX
    ensures Sound(t, n + 1)
  {
    hide Invariant, AddsTo, EarlyLog, FatesOk;
    var m := |s.log.entries|;
    if t.log.entries != s.log.entries {
      AddedWindow(setup, s, t, g);
      AddedEarly(setup, t, m);
      var e := t.log.entries[m];
      assert t.log.entries[m..] == [e];
      EarlyShown(s.spectrum, LastSlot(s.log.entries, g), e.window, n);
      forall i | 0 <= i < |t.log.entries|
        ensures !t.log.entries[i].fate.SpectrumFailed?
      {
        if i < m { assert t.log.entries[i] == s.log.entries[i]; }
      }
      hide ShowWindow, PublishWaterfall, Spectrum.Usable, Spectrum.Broken;
    } else {
      assert t.log.entries[m..] == [];
    }
  }

  lemma SoundStep(setup: Setup, s: State, call: Call, n: nat)
    requires setup.clock.Valid() && Invariant(setup, s) && SpectrumInvariant(s) && Sound(s, n) && EarlyCall(call)
    requires (n + 1) * Spectrum.MAX_WINDOW_ROWS <= U64_MAX
    ensures Sound(Apply(setup, s, call), n + 1)
  {
    hide Apply, EarlyLog, EarlyCall, Invariant, SpectrumInvariant;
    EarlyStep(setup, s, call);
    if call.PollCall? && s.lifecycle.Receiving? {
      OneWindowPerCall(setup, s, call);
      ApplyKeeps(setup, s, call);
      hide Sound;
      SoundPoll(setup, s, Apply(setup, s, call), s.lifecycle.stream, n);
    } else {
      RowsNotCounted(setup, s, call);
    }
  }

  /** Apart from polls, a call adds no window and numbers no row. */
  lemma RowsNotCounted(setup: Setup, s: State, call: Call)
    requires !call.PollCall? || !s.lifecycle.Receiving?
    ensures var t := Apply(setup, s, call);
            && t.log.entries == s.log.entries
            && (t.spectrum.Some? ==>
                  t.spectrum.value.board.nextSequence == 0
                  || (s.spectrum.Some? && t.spectrum.value.board.nextSequence == s.spectrum.value.board.nextSequence))
  {
    hide Poll, ReceiveClock.Observe;
    if call.PollCall? {
      IdlePoll(setup, s, call.replies, call.now, call.recordedUtc);
    }
  }

  /** While the UTC of every batch leaves room for the microseconds of its slot, no window of any run of
      fewer than 2^52 calls fails in the spectrum. */
  lemma {:induction false} SoundAlways(setup: Setup, calls: seq<Call>)
    requires setup.clock.Valid() && (forall i | 0 <= i < |calls| :: EarlyCall(calls[i]))
    requires |calls| * Spectrum.MAX_WINDOW_ROWS <= U64_MAX
    ensures Sound(RunCalls(setup, calls), |calls|)
  {
    if calls != [] {
      var before := calls[..|calls| - 1];
      hide Sound, EarlyCall;
      SoundAlways(setup, before);
      InvariantAlways(setup, before);
      SpectrumAlways(setup, before);
      hide Invariant, Apply, SpectrumInvariant;
      SoundStep(setup, RunCalls(setup, before), calls[|calls| - 1], |before|);
    }
  }

  /** No window of such a run is lost to the spectrum, so every window but a stream's last is stored, and
      the stored slots of every stream advance by exactly 15,000 ms. */
  lemma EarlyWindowsStored(setup: Setup, calls: seq<Call>, i: nat)
    requires setup.clock.Valid() && (forall i | 0 <= i < |calls| :: EarlyCall(calls[i]))
    requires |calls| * Spectrum.MAX_WINDOW_ROWS <= U64_MAX && i < |RunCalls(setup, calls).log.entries|
    ensures var entries := RunCalls(setup, calls).log.entries;
            && !entries[i].fate.SpectrumFailed?
            && (i + 1 < |entries| && entries[i].stream == entries[i + 1].stream ==>
                  entries[i].fate.Stored? && entries[i + 1].window.slotStartUtc == entries[i].window.slotStartUtc + SLOT_MILLIS)
  {
    hide RunCalls, EarlyLog, EarlyCall, SpectrumOk;
    SoundAlways(setup, calls);
    SpectrumAlways(setup, calls);
    var log := RunCalls(setup, calls).log;
    if i + 1 < |log.entries| {
      WindowsInOrder(setup, calls, i, i + 1);
      assert FateStep(i + 1 in log.exchanged, log.entries[i], log.entries[i + 1]);
    }
  }
}
