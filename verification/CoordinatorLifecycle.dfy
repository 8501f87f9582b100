/**
 What starting, stopping and observing the clock answer, and that the transitions the calls of a run report are
 exactly the changes of its lifecycle.
 */
module CoordinatorLifecycle {
  import opened Numeric
  import opened Audio
  import opened Records
  import opened Coordinator
  import opened CoordinatorRuns
  import opened CoordinatorPolls
  import Timeline
  import ReceiveClock
  import Spectrum

  // ---------------------------------------------------------------------
  // Single calls
  // ---------------------------------------------------------------------

  /** The clock settings that can be used. */
  predicate Usable(c: ReceiveClock.Config) {
    && 10 <= c.cadence <= 10_000 && c.maxDelay <= c.cadence
    && c.cadence <= c.freshness <= 60_000 && c.cadence <= c.maxGap <= 300_000
    && c.jumpTolerance <= 5_000 && 2 <= c.recoverySamples <= 10
  }

  /** A stream in which nothing has happened yet. */
  ghost predicate FreshStream(setup: Setup, t: State, g: Generation, initial: ReceiveClock.Observation) {
    && t.inputOpen && t.timeline.Some? && t.clock.Some? && t.worker == [] && t.log.Of(g) == Stream([], [])
    && var (timeline, clock) := (t.timeline.value, t.clock.value);
       && timeline.processGeneration == setup.process && timeline.streamGeneration == g
       && timeline.configuration == setup.configuration && timeline.stage.Unanchored?
       && timeline.expected.None? && timeline.lastPosition.None? && timeline.lastMonotonic.None?
       && timeline.health == Timeline.Health(0, 0, 0, 0)
       && clock.generation == setup.process && clock.config == setup.clock
       && clock.state.Healthy? && clock.lastAccepted == initial.sample
  }

  /** A start is refused unless stopped and while a generation is left; otherwise the next generation is taken and
      ends inhibited for a foreign clock or a refused input, half started with unusable clock settings, or
      receiving from nothing. */
  lemma StartVerdict(setup: Setup, s: State, initial: ReceiveClock.Observation, reply: Option<InputError>)
    ensures var (t, r) := Start(setup, s, initial, reply);
            if !s.lifecycle.Stopped? then t == s && r == Err(InvalidLifecycle(s.lifecycle))
            else if s.lastStream == 0xffff_ffff_ffff_ffff then t == s && r == Err(StreamGenerationOverflow)
            else
              var g := s.lastStream + 1;
              && t.lastStream == g && t.log.attempts == s.log.attempts + [g] && t.log.entries == s.log.entries
              && if initial.generation != setup.process then
                   && t.lifecycle == Inhibited(g, ClockInhibition(ReceiveClock.ProcessGenerationChanged))
                   && r.Ok? && t.inputOpen == s.inputOpen && t.spectrum == s.spectrum
                 else if reply.Some? then
                   && (exists kind :: Names(reply.value, kind) && t.lifecycle == Inhibited(g, InputInhibition(kind)))
                   && r.Ok? && t.inputOpen == s.inputOpen && t.spectrum == s.spectrum
                 else if !Usable(setup.clock) then
                   t.lifecycle == Starting(g) && t.inputOpen && r == Err(InvalidClockConfig)
                 else
                   && t.lifecycle == Receiving(g) && r.Ok? && FreshStream(setup, t, g, initial)
                   && Blank(s.spectrum, t.spectrum, Spectrum.StreamChanged)
  {
    if reply.Some? { assert Names(reply.value, ErrorKind(reply.value)); }
  }

  /** A stop succeeds exactly in reception or inhibition, and leaves nothing of the stream. */
  lemma StopVerdict(s: State, reason: StopReason)
    ensures var (t, r) := Stop(s, reason);
            if s.lifecycle.Receiving? || s.lifecycle.Inhibited?
            then
              && r.Ok? && t.lifecycle == Stopped(s.lastStream) && Idle(t) && t.lastStream == s.lastStream && t.log == s.log
              && Blank(s.spectrum, t.spectrum, Spectrum.StreamChanged)
            else t == s && r == Err(InvalidLifecycle(s.lifecycle))
  {
  }

  /** A sample is on time, of the running process, and consistent with the last accepted one. */
  predicate Continues(clock: ReceiveClock.Monitor, o: ReceiveClock.Observation, at: u64) {
    && o.generation == clock.generation
    && 0 <= at - o.sample.monotonic <= clock.config.maxDelay
    && ReceiveClock.Consistent(clock.config, clock.lastAccepted, o.sample)
  }

  /** During reception a sample that continues the clock is accepted and changes nothing else; any other ends
      the reception for the clock's fault. */
  lemma ObserveClockVerdict(setup: Setup, s: State, o: ReceiveClock.Observation, at: u64)
    requires Invariant(setup, s)
    ensures var (t, r) := ObserveClock(s, o, at);
            if !s.lifecycle.Receiving? then t == s && r == Err(InvalidLifecycle(s.lifecycle))
            else if Continues(s.clock.value, o, at) then
              r == Ok(None) && t == s.(clock := Some(s.clock.value.(lastAccepted := o.sample)))
            else
              && r.Ok? && r.value.Some? && t.lifecycle.Inhibited? && t.lifecycle.stream == s.lifecycle.stream
              && t.lifecycle.reason.ClockInhibition? && Idle(t) && t.log == s.log
              && Blank(s.spectrum, t.spectrum, Spectrum.TimelineBroken)
              && (o.generation != setup.process ==> t.lifecycle.reason.fault.ProcessGenerationChanged?)
              && (o.generation == setup.process && at < o.sample.monotonic ==> t.lifecycle.reason.fault.TimelineRegressed?)
              && (o.generation == setup.process && at > o.sample.monotonic + setup.clock.maxDelay ==>
                    t.lifecycle.reason.fault == ReceiveClock.SamplingDelayed(at - o.sample.monotonic))
              && (o.generation == setup.process && 0 <= at - o.sample.monotonic <= setup.clock.maxDelay ==>
                    ReceiveClock.Compare(setup.clock, s.clock.value.lastAccepted, o.sample) == Some(t.lifecycle.reason.fault))
  {
    hide LogOk, TimelineInStep, NewestEntry;
    if s.lifecycle.Receiving? {
      ReceiveClock.CompareVerdict(setup.clock, s.clock.value.lastAccepted, o.sample);
      hide ReceiveClock.Compare;
    }
  }

  /** A planned spectrum model replaces any earlier one and knows nothing; an unplanned one changes nothing. */
  lemma EnableVerdict(s: State, config: Spectrum.ValidConfig, planned: bool)
    ensures var t := EnableSpectrum(s, config, planned);
            && t == s.(spectrum := t.spectrum, log := s.log.(exchanged := t.log.exchanged))
            && t.log.exchanged == s.log.exchanged + (if planned && s.lifecycle.Receiving? then {|s.log.entries|} else {})
            && (!planned ==> t == s)
            && (planned ==>
                  && t.spectrum.Some? && t.spectrum.value.config == config && t.spectrum.value.pending == []
                  && t.spectrum.value.cursor.None? && t.spectrum.value.board.rows == []
                  && t.spectrum.value.board.nextSequence == 0 && t.spectrum.value.board.reason.None?
                  && !t.spectrum.value.board.publicationPending)
  {
  }

  // ---------------------------------------------------------------------
  // Transitions
  // ---------------------------------------------------------------------

  /** The changes a lifecycle can go through. */
  predicate Edge(a: Lifecycle, b: Lifecycle) {
    match a
    case Stopped(last) => b.Starting? && b.stream > last
    case Starting(g) => (b.Receiving? || b.Inhibited?) && b.stream == g
    case Receiving(g) => (b.Inhibited? || b.Stopping?) && b.stream == g
    case Inhibited(g, _) => b.Stopping? && b.stream == g
    case Stopping(g, _) => b == Stopped(g)
  }

  /** Transitions that join up from `a` to `b`. */
  predicate Leads(a: Lifecycle, transitions: seq<Transition>, b: Lifecycle)
    decreases transitions
  {
    if transitions == [] then a == b
    else transitions[0].previous == a && Edge(a, transitions[0].current) && Leads(transitions[0].current, transitions[1..], b)
  }

  function Changes(events: seq<PollEvent>): seq<Transition> {
    if events == [] then []
    else (if events[0].LifecycleChanged? then [events[0].transition] else []) + Changes(events[1..])
  }

  /** The transitions that a call reports. */
  function Reported(setup: Setup, s: State, call: Call): seq<Transition> {
    match call
    case StartCall(initial, reply) =>
      var r := Start(setup, s, initial, reply).1; if r.Ok? then r.value else []
    case ObserveCall(o, at) =>
      var r := ObserveClock(s, o, at).1; if r.Ok? && r.value.Some? then [r.value.value] else []
    case PollCall(replies, now, recordedUtc) =>
      var r := Poll(setup, s, replies, now, recordedUtc).1; if r.Ok? then Changes(r.value) else []
    case StopCall(reason) =>
      var r := Stop(s, reason).1; if r.Ok? then r.value else []
    case EnableCall(_, _) => []
  }

  function AllReported(setup: Setup, calls: seq<Call>): seq<Transition> {
    if calls == [] then []
    else
      var before := calls[..|calls| - 1];
      AllReported(setup, before) + Reported(setup, RunCalls(setup, before), calls[|calls| - 1])
  }

  lemma {:induction false} LeadsOn(a: Lifecycle, first: seq<Transition>, b: Lifecycle, second: seq<Transition>, c: Lifecycle)
    requires Leads(a, first, b) && Leads(b, second, c)
    ensures Leads(a, first + second, c)
    decreases first
  {
    if first == [] {
      assert first + second == second;
    } else {
      LeadsOn(first[0].current, first[1..], b, second, c);
      assert (first + second)[1..] == first[1..] + second;
    }
  }

  lemma OneLeads(a: Lifecycle, b: Lifecycle)
    requires Edge(a, b)
    ensures Leads(a, [Transition(a, b)], b)
  {
    assert [Transition(a, b)][1..] == [];
  }

  lemma TwoLead(a: Lifecycle, b: Lifecycle, c: Lifecycle)
    requires Edge(a, b) && Edge(b, c)
    ensures Leads(a, [Transition(a, b), Transition(b, c)], c)
  {
    assert [Transition(a, b), Transition(b, c)][1..] == [Transition(b, c)];
    OneLeads(b, c);
  }

  lemma Stays(a: Lifecycle)
    ensures Leads(a, [], a)
  {
  }

  /** A poll's answer tells whether it ended the reception. */
  ghost predicate Tells(a: Lifecycle, r: Result<seq<PollEvent>, CoordinatorError>, b: Lifecycle) {
    if a == b then r.Ok? ==> Changes(r.value) == []
    else Edge(a, b) && r == Ok([LifecycleChanged(Transition(a, b))])
  }

  lemma QuietEvents(
    id: string, n: nat, start: int, before: Option<Spectrum.LiveModel>, after: Option<Spectrum.LiveModel>, more: seq<PollEvent>)
    requires Shows(before, after, more)
    ensures Changes([IncompleteSlotSeen(start, n)]) == []
    ensures Changes([Persisted(id, n)] + more) == []
  {
    if more != [] { assert more[1..] == []; }
    assert Changes(more) == [];
    assert ([Persisted(id, n)] + more)[1..] == more;
    assert [IncompleteSlotSeen(start, n)][1..] == [];
  }

  lemma QuietAnswer(
    r: Result<seq<PollEvent>, CoordinatorError>, id: string, n: nat, before: Option<Spectrum.LiveModel>,
    after: Option<Spectrum.LiveModel>)
    requires Answers(r, id, n, before, after)
    ensures r.Ok? && Changes(r.value) == []
  {
    var more :| Shows(before, after, more) && r == Ok([Persisted(id, n)] + more);
    QuietEvents(id, n, 0, before, after, more);
  }

  lemma KeptTells(
    setup: Setup, s: State, t: State, r: Result<seq<PollEvent>, CoordinatorError>, w: ReceiveWindow, age: nat,
    audio: AudioHealth, services: Services, recordedUtc: i64)
    requires s.lifecycle.Receiving? && s.timeline.Some? && Kept(setup, s, t, r, w, age, audio, services, recordedUtc)
    ensures Tells(s.lifecycle, r, t.lifecycle)
  {
    hide ShowWindow, RecordFor, Storable, Changes, Answers, Blank, Idle;
    if r.Ok? && t.lifecycle == s.lifecycle {
      var shown := ShowWindow(s.spectrum, w).0;
      var id: string, n: nat :| Answers(r, id, n, shown, t.spectrum);
      QuietAnswer(r, id, n, shown, t.spectrum);
    }
  }

  lemma ProcessTells(
    setup: Setup, s: State, t: State, r: Result<seq<PollEvent>, CoordinatorError>, b: CaptureBatch,
    audio: AudioHealth, services: Services, now: u64, recordedUtc: i64)
    requires s.lifecycle.Receiving? && s.timeline.Some? && s.clock.Some?
    requires Processed(setup, s, t, r, b, audio, services, now, recordedUtc)
    ensures Tells(s.lifecycle, r, t.lifecycle)
  {
    var pushed := Timeline.Push(s.timeline.value, b, now);
    hide Timeline.Push, Handled, Blank, Idle;
    if pushed.1.Ok? {
      HandledTells(setup, Accepting(s, pushed.0, b), t, r, pushed.1.value, audio, services, now, recordedUtc);
    }
  }

  lemma HandledTells(
    setup: Setup, u: State, t: State, r: Result<seq<PollEvent>, CoordinatorError>, events: seq<TimelineEvent>,
    audio: AudioHealth, services: Services, now: u64, recordedUtc: i64)
    requires u.lifecycle.Receiving? && u.timeline.Some? && u.clock.Some?
    requires Handled(setup, u, t, r, events, audio, services, now, recordedUtc)
    ensures Tells(u.lifecycle, r, t.lifecycle)
  {
    var clock := u.clock.value;
    hide Kept, ReceiveClock.AgreesWith, Misfit, Blank, Idle;
    if events != [] {
      match events[0] {
        case Incomplete(slot) => QuietEvents("", slot.accumulatedSamples, slot.slotStartUtc, None, None, []);
        case Window(w) =>
          if ReceiveClock.AgreesWith(clock, w) {
            KeptTells(setup, u, t, r, w, Max(now - clock.lastAccepted.monotonic, 0), audio, services, recordedUtc);
          }
      }
    }
  }

  lemma PollTells(setup: Setup, s: State, replies: Replies, now: u64, recordedUtc: i64)
    requires Invariant(setup, s)
    ensures var (t, r) := Poll(setup, s, replies, now, recordedUtc); Tells(s.lifecycle, r, t.lifecycle)
  {
    var (t, r) := Poll(setup, s, replies, now, recordedUtc);
    PollVerdict(setup, s, replies, now, recordedUtc);
    hide LogOk, TimelineInStep, NewestEntry, Poll, ReceiveClock.Monitor.Valid, Admitted, Names, Processed;
    if s.lifecycle.Receiving? && replies.fault.None? && replies.health.Ok? && replies.health.value.overflowCount == 0
       && now - s.clock.value.lastAccepted.monotonic <= s.clock.value.config.freshness {
      var after, failed :|
        && Admitted(s.worker, replies, 0, after, failed) && s.worker <= after
        && Worked(setup, s, t, r, after, failed, replies.health.value, replies.services, now, recordedUtc);
      if failed.None? && after != [] {
        ProcessTells(setup, Obtaining(s, after).(worker := after[1..]), t, r, after[0], replies.health.value,
                     replies.services, now, recordedUtc);
      }
    }
  }

  lemma OneChange(change: Transition)
    ensures Changes([LifecycleChanged(change)]) == [change]
  {
    assert [LifecycleChanged(change)][1..] == [];
  }

  lemma CallLeads(setup: Setup, s: State, call: Call)
    requires Invariant(setup, s) && setup.clock.Valid()
    ensures Leads(s.lifecycle, Reported(setup, s, call), Apply(setup, s, call).lifecycle)
  {
    hide LogOk, TimelineInStep, NewestEntry, Poll, ReceiveClock.Observe, ResetSpectrum, Leads;
    var t := Apply(setup, s, call);
    match call {
      case StartCall(initial, reply) =>
        if s.lifecycle.Stopped? && s.lastStream < U64_MAX {
          TwoLead(s.lifecycle, Starting(s.lastStream + 1), t.lifecycle);
        } else {
          Stays(s.lifecycle);
        }
      case ObserveCall(o, at) =>
        if t.lifecycle != s.lifecycle {
          OneLeads(s.lifecycle, t.lifecycle);
        } else {
          Stays(s.lifecycle);
        }
      case PollCall(replies, now, recordedUtc) =>
        PollTells(setup, s, replies, now, recordedUtc);
        if t.lifecycle != s.lifecycle {
          OneChange(Transition(s.lifecycle, t.lifecycle));
          OneLeads(s.lifecycle, t.lifecycle);
        } else {
          Stays(s.lifecycle);
        }
      case StopCall(reason) =>
        if s.lifecycle.Stopped? {
          Stays(s.lifecycle);
        } else {
          TwoLead(s.lifecycle, Stopping(s.lifecycle.stream, reason), t.lifecycle);
        }
      case EnableCall(_, _) =>
        Stays(s.lifecycle);
    }
  }

  /** In every run the reported transitions, joined, lead along legal changes from the stopped coordinator to its
      present lifecycle. */
  lemma {:induction false} EveryChangeReported(setup: Setup, calls: seq<Call>)
    requires setup.clock.Valid()
    ensures Leads(Stopped(0), AllReported(setup, calls), RunCalls(setup, calls).lifecycle)
  {
    if calls != [] {
      var before := calls[..|calls| - 1];
      var s := RunCalls(setup, before);
      EveryChangeReported(setup, before);
      InvariantAlways(setup, before);
      CallLeads(setup, s, calls[|calls| - 1]);
      hide Invariant, Apply, Reported;
      LeadsOn(Stopped(0), AllReported(setup, before), s.lifecycle,
              Reported(setup, s, calls[|calls| - 1]), RunCalls(setup, calls).lifecycle);
    }
  }
}
