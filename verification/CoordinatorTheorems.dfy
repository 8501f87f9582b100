/**
 What callers and readers of the stored history can rely on, over every run of the coordinator.
 */
module CoordinatorTheorems {
  import opened Numeric
  import opened Audio
  import opened Decodes
  import opened Records
  import opened Resampling
  import opened Coordinator
  import opened CoordinatorRuns
  import Timeline
  import ReceiveClock
  import Spectrum

  // ---------------------------------------------------------------------
  // Lifecycle
  // ---------------------------------------------------------------------

  /** After every call of every run, for a valid clock configuration. */
  lemma LifecycleAlways(setup: Setup, calls: seq<Call>)
    requires setup.clock.Valid()
    ensures var s := RunCalls(setup, calls);
            && (s.lifecycle.Stopped? || s.lifecycle.Receiving? || s.lifecycle.Inhibited?)
            && (s.inputOpen <==> s.lifecycle.Receiving?)
            && (s.timeline.Some? <==> s.lifecycle.Receiving?)
            && (s.clock.Some? <==> s.lifecycle.Receiving?)
            && (s.lifecycle.Receiving? ==> s.clock.value.state.Healthy?)
            && |s.worker| <= 3 && (s.worker != [] ==> s.lifecycle.Receiving?)
  {
    InvariantAlways(setup, calls);
    hide RunCalls, LogOk, TimelineInStep, NewestEntry;
  }

  /** Every attempt that leaves `Stopped` takes a generation larger than all before it, and no other call
      takes one. */
  lemma AttemptsIncrease(setup: Setup, calls: seq<Call>, call: Call)
    requires setup.clock.Valid()
    ensures var s := RunCalls(setup, calls);
            var t := Apply(setup, s, call);
            if call.StartCall? && s.lifecycle.Stopped? && !t.lifecycle.Stopped?
            then && t.log.attempts == s.log.attempts + [t.lifecycle.stream]
                 && (forall i | 0 <= i < |s.log.attempts| :: s.log.attempts[i] < t.lifecycle.stream)
            else t.log.attempts == s.log.attempts
  {
    InvariantAlways(setup, calls);
    var s := RunCalls(setup, calls);
    hide RunCalls;
    KeepsGenerations(setup, s, call);
    hide TimelineInStep, NewestEntry, Poll, ObserveClock;
  }

  predicate SameGenerations(s: State, t: State) {
    && t.log.attempts == s.log.attempts && t.lastStream == s.lastStream
    && (t.lifecycle.Receiving? ==> s.lifecycle.Receiving?)
  }

  lemma KeepsGenerations(setup: Setup, s: State, call: Call)
    ensures call.StartCall? || SameGenerations(s, Apply(setup, s, call))
  {
    hide Timeline.Push, ReceiveClock.Observe, ReceiveClock.Refresh, Admit, ReceiveClock.Gate, KeepWindow;
    if call.PollCall? && s.lifecycle.Receiving? && s.timeline.Some? && s.clock.Some? {
      PollKeepsGenerations(setup, s, call.replies, call.now, call.recordedUtc);
      hide Poll;
    }
  }

  lemma PollKeepsGenerations(setup: Setup, s: State, replies: Replies, now: u64, recordedUtc: i64)
    ensures SameGenerations(s, Poll(setup, s, replies, now, recordedUtc).0)
  {
    hide Timeline.Push, Admit, HandleEvents;
    forall t: State, events, audio | t.timeline.Some? && t.clock.Some?
      ensures SameGenerations(t, HandleEvents(setup, t, events, 0, audio, replies, now, recordedUtc, []).0)
    {
      HandleKeepsGenerations(setup, t, events, 0, audio, replies, now, recordedUtc, []);
    }
  }

  lemma HandleKeepsGenerations(
    setup: Setup, s: State, events: seq<TimelineEvent>, i: nat, audio: AudioHealth, replies: Replies,
    now: u64, recordedUtc: i64, results: seq<PollEvent>)
    requires i <= |events| && s.timeline.Some? && s.clock.Some?
    ensures SameGenerations(s, HandleEvents(setup, s, events, i, audio, replies, now, recordedUtc, results).0)
    ensures HandleEvents(setup, s, events, i, audio, replies, now, recordedUtc, results).0.log.streams == s.log.streams
    decreases |events| - i
  {
    hide RecordOf, ShowWindow, PublishWaterfall;
    if i < |events| {
      var gate := ReceiveClock.Gate(s.clock.value, events[i], now);
      var t := s.(clock := Some(gate.0));
      match gate.1 {
        case PassedIncomplete(slot) =>
          HandleKeepsGenerations(setup, t, events, i + 1, audio, replies, now, recordedUtc,
                              results + [IncompleteSlotSeen(slot.slotStartUtc, slot.accumulatedSamples)]);
        case WindowRejected(_, _) =>
        case WindowReady(w, alignment) =>
          var kept := KeepWindow(setup, t, w, alignment.mappingAge, audio, replies.services, recordedUtc);
          if kept.1.Ok? {
            HandleKeepsGenerations(setup, kept.0, events, i + 1, audio, replies, now, recordedUtc, results + kept.1.value);
          }
      }
    }
  }

  /** An invalid clock configuration is the only way to be left half-started, with the input open. */
  lemma HalfStartedIffInvalidConfig(
    setup: Setup, s: State, initial: ReceiveClock.Observation, reply: Option<InputError>)
    requires !s.lifecycle.Starting?
    ensures Start(setup, s, initial, reply).0.lifecycle.Starting? <==>
              && s.lifecycle.Stopped? && s.lastStream < U64_MAX
              && initial.generation == setup.process && reply.None? && !setup.clock.Valid()
    ensures Start(setup, s, initial, reply).0.lifecycle.Starting? ==> Start(setup, s, initial, reply).0.inputOpen
  {
  }

  /** From there no sequence of calls closes the input again; only the spectrum can still be exchanged. */
  lemma {:induction false} HalfStartedForever(setup: Setup, calls: seq<Call>, more: seq<Call>)
    requires RunCalls(setup, calls).lifecycle.Starting?
    ensures RunCalls(setup, calls + more) == RunCalls(setup, calls).(spectrum := RunCalls(setup, calls + more).spectrum)
  {
    if more == [] {
      assert calls + more == calls;
    } else {
      var all := calls + more;
      assert all[..|all| - 1] == calls + more[..|more| - 1];
      HalfStartedForever(setup, calls, more[..|more| - 1]);
      HalfStartedStuck(setup, RunCalls(setup, all[..|all| - 1]), all[|all| - 1]);
      hide Apply;
    }
  }

  lemma HalfStartedStuck(setup: Setup, s: State, call: Call)
    requires s.lifecycle.Starting?
    ensures Apply(setup, s, call) == s.(spectrum := Apply(setup, s, call).spectrum)
  {
  }

  // ---------------------------------------------------------------------
  // The history of windows
  // ---------------------------------------------------------------------

  lemma {:induction false} EntriesAdvance(setup: Setup, log: Log, last: u64, i: nat, j: nat)
    requires LogOk(setup, log, last) && i < j < |log.entries|
    ensures var (a, b) := (log.entries[i], log.entries[j]);
            || a.stream < b.stream
            || (a.stream == b.stream && b.window.slotStartUtc == a.window.slotStartUtc + (j - i) * SLOT_MILLIS)
    decreases j
  {
    hide EntryOk, StreamOk;
    assert Next(log.entries[j - 1], log.entries[j]);
    if i < j - 1 {
      EntriesAdvance(setup, log, last, i, j - 1);
    }
  }

  /** In every run, windows reach the decoder in order: a later window is of a later stream, or exactly
      as many slots later as there are windows between them.  So no window of a slot is handled twice. */
  lemma WindowsInOrder(setup: Setup, calls: seq<Call>, i: nat, j: nat)
    requires setup.clock.Valid() && i < j < |RunCalls(setup, calls).log.entries|
    ensures var (a, b) := (RunCalls(setup, calls).log.entries[i], RunCalls(setup, calls).log.entries[j]);
            && (a.stream < b.stream
                || (a.stream == b.stream && b.window.slotStartUtc == a.window.slotStartUtc + (j - i) * SLOT_MILLIS))
            && (a.stream, a.window.slotStartUtc) != (b.stream, b.window.slotStartUtc)
  {
    InvariantAlways(setup, calls);
    hide RunCalls, LogOk;
    EntriesAdvance(setup, RunCalls(setup, calls).log, RunCalls(setup, calls).lastStream, i, j);
  }

  predicate AddsTo(s: State, t: State, g: Generation) {
    t.log.entries == s.log.entries || (t.log.entries != [] && t.log.entries[|t.log.entries| - 1].stream == g)
  }

  /** One poll handles at most one window; no other call handles any. */
  lemma OneWindowPerCall(setup: Setup, s: State, call: Call)
    requires Invariant(setup, s)
    ensures var t := Apply(setup, s, call);
            if call.PollCall? && s.lifecycle.Receiving?
            then Retained(s, t) && AddsTo(s, t, s.lifecycle.stream)
            else t.log.entries == s.log.entries
  {
    hide LogOk, NewestEntry, Poll;
    if call.PollCall? && s.lifecycle.Receiving? {
      PollRetains(setup, s, s.lifecycle.stream, call.replies, call.now, call.recordedUtc);
    } else if call.PollCall? {
      IdlePoll(setup, s, call.replies, call.now, call.recordedUtc);
    }
    hide ReceiveClock.Observe, TimelineInStep;
  }

  lemma IdlePoll(setup: Setup, s: State, replies: Replies, now: u64, recordedUtc: i64)
    requires !s.lifecycle.Receiving?
    ensures Poll(setup, s, replies, now, recordedUtc) == (s, Err(InvalidLifecycle(s.lifecycle)))
  {
  }

  lemma PollRetains(setup: Setup, s: State, g: Generation, replies: Replies, now: u64, recordedUtc: i64)
    requires s.lifecycle == Receiving(g) && s.timeline.Some? && s.clock.Some?
    requires TimelineInStep(setup, g, s.timeline.value, s.log.Of(g).accepted)
    ensures Retained(s, Poll(setup, s, replies, now, recordedUtc).0)
    ensures AddsTo(s, Poll(setup, s, replies, now, recordedUtc).0, g)
  {
    hide Work, TimelineInStep, ReceiveClock.Refresh, Shown, ResetSpectrum;
    assert s.log.entries[|s.log.entries|..] == [];
    Unshown(s.spectrum, s.log.entries[|s.log.entries|..]);
    if replies.health.Ok? {
      var t := s.(clock := Some(ReceiveClock.Refresh(s.clock.value, now)));
      WorkRetains(setup, t, g, replies.health.value, replies, now, recordedUtc);
    }
  }

  lemma Unshown(spectrum: Option<Spectrum.LiveModel>, windows: seq<Entry>)
    requires windows == []
    ensures Shown(spectrum, windows) == spectrum
  {
  }

  lemma WorkRetains(
    setup: Setup, s: State, g: Generation, audio: AudioHealth, replies: Replies, now: u64, recordedUtc: i64)
    requires s.lifecycle == Receiving(g) && s.timeline.Some? && s.clock.Some?
    requires TimelineInStep(setup, g, s.timeline.value, s.log.Of(g).accepted)
    ensures Retained(s, Work(setup, s, audio, replies, now, recordedUtc).0)
    ensures AddsTo(s, Work(setup, s, audio, replies, now, recordedUtc).0, g)
  {
    hide ProcessBatch, TimelineInStep, Admit, Shown, ResetSpectrum, ShowWindow;
    AdmitExtends(s.worker, replies, 0);
    assert s.log.entries[|s.log.entries|..] == [];
    Unshown(s.spectrum, s.log.entries[|s.log.entries|..]);
    var admitted := Admit(s.worker, replies, 0).0;
    var t := LogObtained(s.(worker := admitted), g, admitted[|s.worker|..]);
    if t.worker != [] {
      ProcessRetains(setup, t.(worker := t.worker[1..]), g, t.worker[0], audio, replies, now, recordedUtc);
    }
  }

  lemma ProcessRetains(
    setup: Setup, s: State, g: Generation, b: CaptureBatch, audio: AudioHealth, replies: Replies, now: u64, recordedUtc: i64)
    requires s.lifecycle == Receiving(g) && s.timeline.Some? && s.clock.Some?
    requires TimelineInStep(setup, g, s.timeline.value, s.log.Of(g).accepted)
    ensures Retained(s, ProcessBatch(setup, s, b, audio, replies, now, recordedUtc).0)
    ensures AddsTo(s, ProcessBatch(setup, s, b, audio, replies, now, recordedUtc).0, g)
  {
    hide TimelineInStep, HandleEvents, Timeline.Push, WindowFrom, WindowsIn;
    var pushed := Timeline.Push(s.timeline.value, b, now);
    if pushed.1.Ok? {
      AcceptStep(setup, g, s.timeline.value, s.log.Of(g).accepted, b, now);
      var t := LogAccepted(s.(timeline := Some(pushed.0)), g, b);
      if pushed.1.value == [] {
        HandleNone(setup, t, audio, replies, now, recordedUtc);
      } else {
        assert pushed.1.value == [pushed.1.value[0]];
        ReportedWindow(setup, g, s.timeline.value, s.log.Of(g).accepted, b, now);
        if pushed.1.value[0].Window? {
          var before := s.log.Of(g).accepted;
          WindowFromStream(setup, g, before + [b], WindowsIn(setup, g, before), pushed.1.value[0].window);
        }
        HandleOne(setup, t, pushed.1.value[0], audio, replies, now, recordedUtc);
      }
    }
  }

  // ---------------------------------------------------------------------
  // The record constructor
  // ---------------------------------------------------------------------

  /** For a window of the timeline, whose clock is fresh and whose drift passed the timeline's checks,
      the record is refused exactly for its recording time or its decodes: the capture-mapping, drift
      and clock checks never fire. */
  lemma RecordRefusedOnlyForDecodes(
    setup: Setup, g: Generation, batches: seq<CaptureBatch>, k: nat, w: ReceiveWindow, timeline: Timeline.State,
    m: ReceiveClock.Monitor, audio: AudioHealth, decodes: seq<Decode>, now: u64, recordedUtc: i64)
    requires WindowFrom(setup, g, batches, k, w) && TimelineInStep(setup, g, timeline, batches)
    requires m.Valid() && ReceiveClock.Gate(m, Window(w), now).1.WindowReady?
    ensures var age := ReceiveClock.Gate(m, Window(w), now).1.alignment.mappingAge;
            && age <= U64_MAX
            && (RecordOf(setup, w, audio, timeline.health, age, decodes, recordedUtc).Err? <==>
                  || recordedUtc < 0
                  || |decodes| > MAX_STORED_DECODES
                  || exists d | d in decodes :: !StorableMetadata(d))
  {
    hide WindowAt, TickCount, FirstSlot, WindowsIn, FramesOf, Sorted, StorableMetadata, Timeline.State.Valid;
  }
}
