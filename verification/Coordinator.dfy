/**
 The receive lifecycle coordinator: it owns the input, the timeline, the clock monitor and the worker
 backlog of one stream generation at a time.

 Everything outside the coordinator answers through parameters: the input's replies, the decoder and
 the store.
 */
module Coordinator {
  import opened Numeric
  import opened Audio
  import opened Decodes
  import opened Records
  import Timeline
  import ReceiveClock
  import Resampling
  import Spectrum

  const WORKER_BATCH_CAPACITY: nat := 4

  datatype InputError =
    | InvalidQueueCapacity | UnsupportedConfiguration | PermissionRefused | DeviceGone | StreamStopped
    | BackendError

  datatype FaultKind =
    | PermissionDenied | DeviceLost | Overflowed(frames: u64) | Discontinued(kind: DiscontinuityKind)
    | Clipped(samples: u32) | Drifted(partsPerMillion: int) | CallbackDelayed(millis: u32) | BackendFailure

  datatype Inhibition =
    | InputInhibition(kind: FaultKind)
    | TimelineInhibition(error: Resampling.TimelineError)
    | ClockInhibition(fault: ReceiveClock.Fault)
    | DecoderFailure
    | StorageFailure

  datatype StopReason = Requested | Cancelled

  datatype Lifecycle =
    | Stopped(lastStream: u64)
    | Starting(stream: Generation)
    | Receiving(stream: Generation)
    | Inhibited(stream: Generation, reason: Inhibition)
    | Stopping(stream: Generation, stopReason: StopReason)

  /** Fixed for the life of a coordinator; `windowId` is the digest that names a window. */
  datatype Setup = Setup(
    service: string, process: Generation, device: Device, configuration: InputConfiguration,
    clock: ReceiveClock.Config, windowId: (Generation, int) -> string)

  datatype Transition = Transition(previous: Lifecycle, current: Lifecycle)

  datatype PollEvent =
    | IncompleteSlotSeen(slotStartUtc: int, accumulatedSamples: nat)
    | Persisted(id: string, decodeCount: nat)
    | Waterfall(snapshot: Spectrum.Snapshot)
    | LifecycleChanged(transition: Transition)

  datatype CoordinatorError =
    | InvalidLifecycle(state: Lifecycle) | StreamGenerationOverflow | InvalidClockConfig | SpectrumError

  /** What decoder and store answer: the decodes of a window's samples, or a failure, and whether a record was
      stored. */
  datatype Services = Services(decode: seq<i16> -> Option<seq<Decode>>, store: Record -> bool)

  /** What the environment answers during one poll; the input has no batch after `batches`. */
  datatype Replies = Replies(
    fault: Option<FaultKind>,
    health: Result<AudioHealth, InputError>,
    batches: seq<Result<Option<CaptureBatch>, InputError>>,
    services: Services)
  {
    function NextBatch(i: nat): Result<Option<CaptureBatch>, InputError> {
      if i < |batches| then batches[i] else Ok(None)
    }
  }

  /** History of one stream generation: the batches taken from the input, and those the timeline took. */
  datatype Stream = Stream(obtained: seq<CaptureBatch>, accepted: seq<CaptureBatch>)

  datatype Fate = Stored(record: Record) | SpectrumFailed | DecodeFailed | StoreFailed

  /** A window that passed the gate, and what became of it. */
  datatype Entry = Entry(stream: Generation, window: ReceiveWindow, fate: Fate)

  /** Specification-only history of a coordinator; `exchanged` holds the number of entries there were each
      time the spectrum model was exchanged during reception. */
  datatype Log = Log(
    attempts: seq<Generation>, streams: map<Generation, Stream>, entries: seq<Entry>, exchanged: set<nat>)
  {
    function Of(g: Generation): Stream { if g in streams then streams[g] else Stream([], []) }
  }

  datatype State = State(
    lifecycle: Lifecycle,
    lastStream: u64,
    inputOpen: bool,
    timeline: Option<Timeline.State>,
    clock: Option<ReceiveClock.Monitor>,
    worker: seq<CaptureBatch>,
    spectrum: Option<Spectrum.LiveModel>,
    log: Log)

  function Initial(): State {
    State(Stopped(0), 0, false, None, None, [], None, Log([], map[], [], {}))
  }

  // ---------------------------------------------------------------------
  // Lifecycle
  // ---------------------------------------------------------------------

  function ErrorKind(error: InputError): FaultKind {
    match error
    case PermissionRefused => PermissionDenied
    case DeviceGone => DeviceLost
    case _ => BackendFailure
  }

  function ResetSpectrum(spectrum: Option<Spectrum.LiveModel>, reason: Spectrum.Reason): Option<Spectrum.LiveModel> {
    if spectrum.None? then None else Some(Spectrum.Reset(spectrum.value, reason))
  }

  /** Installs a new spectrum model, if its transform can be planned. */
  function EnableSpectrum(s: State, config: Spectrum.ValidConfig, planned: bool): State {
    if !planned then s
    else
      s.(spectrum := Some(Spectrum.NewModel(config)),
         log := s.log.(exchanged := s.log.exchanged + if s.lifecycle.Receiving? then {|s.log.entries|} else {}))
  }

  /** Stops the input and keeps nothing of the stream; only a stopped coordinator is left alone. */
  function Inhibit(s: State, reason: Inhibition): State {
    if s.lifecycle.Stopped? then s
    else s.(lifecycle := Inhibited(s.lifecycle.stream, reason), inputOpen := false, timeline := None,
            clock := None, worker := [], spectrum := ResetSpectrum(s.spectrum, Spectrum.TimelineBroken))
  }

  /** An inhibition as the single result of a poll. */
  function InhibitAlone(s: State, reason: Inhibition): (State, Result<seq<PollEvent>, CoordinatorError>) {
    (Inhibit(s, reason), Ok([LifecycleChanged(Transition(s.lifecycle, Inhibit(s, reason).lifecycle))]))
  }

  /** Reserves a generation for an attempt. */
  function Reserve(s: State, g: Generation): State {
    s.(lifecycle := Starting(g), lastStream := g,
       log := s.log.(attempts := s.log.attempts + [g], streams := s.log.streams[g := Stream([], [])]))
  }

  /** The rest of an attempt; the input opens before the clock configuration is checked. */
  function Open(setup: Setup, s: State, g: Generation, initial: ReceiveClock.Observation, reply: Option<InputError>)
    : (State, Option<CoordinatorError>)
  {
    if initial.generation != setup.process then
      (s.(lifecycle := Inhibited(g, ClockInhibition(ReceiveClock.ProcessGenerationChanged))), None)
    else if reply.Some? then (s.(lifecycle := Inhibited(g, InputInhibition(ErrorKind(reply.value)))), None)
    else if !setup.clock.Valid() then (s.(inputOpen := true), Some(InvalidClockConfig))
    else (Begin(setup, s.(inputOpen := true), g, initial), None)
  }

  /** Sets up timeline, clock and spectrum for a stream whose input is open. */
  function Begin(setup: Setup, s: State, g: Generation, initial: ReceiveClock.Observation): State
    requires setup.clock.Valid()
  {
    s.(lifecycle := Receiving(g), timeline := Some(Timeline.Initial(setup.process, g, setup.configuration)),
       clock := Some(ReceiveClock.StartMonitor(initial, setup.clock)), worker := [],
       spectrum := ResetSpectrum(s.spectrum, Spectrum.StreamChanged))
  }

  /** Every attempt reserves the next generation. */
  function Start(setup: Setup, s: State, initial: ReceiveClock.Observation, reply: Option<InputError>)
    : (State, Result<seq<Transition>, CoordinatorError>)
  {
    if !s.lifecycle.Stopped? then (s, Err(InvalidLifecycle(s.lifecycle)))
    else if s.lastStream == U64_MAX then (s, Err(StreamGenerationOverflow))
    else
      var g: Generation := s.lastStream + 1;
      var outcome := Open(setup, Reserve(s, g), g, initial, reply);
      (outcome.0,
       if outcome.1.Some? then Err(outcome.1.value)
       else Ok([Transition(s.lifecycle, Starting(g)), Transition(Starting(g), outcome.0.lifecycle)]))
  }

  function Stop(s: State, reason: StopReason): (State, Result<seq<Transition>, CoordinatorError>) {
    if !s.lifecycle.Receiving? && !s.lifecycle.Inhibited? then (s, Err(InvalidLifecycle(s.lifecycle)))
    else
      var stopping := Stopping(s.lifecycle.stream, reason);
      (s.(lifecycle := Stopped(s.lastStream), inputOpen := false, timeline := None, clock := None, worker := [],
          spectrum := ResetSpectrum(s.spectrum, Spectrum.StreamChanged)),
       Ok([Transition(s.lifecycle, stopping), Transition(stopping, Stopped(s.lastStream))]))
  }

  function ObserveClock(s: State, o: ReceiveClock.Observation, at: u64)
    : (State, Result<Option<Transition>, CoordinatorError>)
  {
    if !s.lifecycle.Receiving? || s.clock.None? then (s, Err(InvalidLifecycle(s.lifecycle)))
    else
      var (monitor, transition) := ReceiveClock.Observe(s.clock.value, o, at);
      var s := s.(clock := Some(monitor));
      if transition.snapshot.state.Unhealthy? then
        var t := Inhibit(s, ClockInhibition(transition.snapshot.state.fault));
        (t, Ok(Some(Transition(s.lifecycle, t.lifecycle))))
      else (s, Ok(None))
  }

  // ---------------------------------------------------------------------
  // Polling
  // ---------------------------------------------------------------------

  /** Takes batches until the backlog is full, the input has none, or it fails. */
  function Admit(worker: seq<CaptureBatch>, replies: Replies, i: nat): (seq<CaptureBatch>, Option<InputError>)
    decreases WORKER_BATCH_CAPACITY - |worker|
  {
    if |worker| >= WORKER_BATCH_CAPACITY then (worker, None)
    else
      match replies.NextBatch(i)
      case Err(error) => (worker, Some(error))
      case Ok(None) => (worker, None)
      case Ok(Some(b)) => Admit(worker + [b], replies, i + 1)
  }

  function ContextOf(setup: Setup, w: ReceiveWindow): WindowContext
  {
    WindowContext(setup.windowId(w.streamGeneration, w.slotStartUtc), setup.service, w.processGeneration,
                  w.streamGeneration, w.slotStartUtc, setup.device, setup.configuration, w.mapping)
  }

  function RecordOf(
    setup: Setup, w: ReceiveWindow, audio: AudioHealth, health: Timeline.Health, age: u64,
    decodes: seq<Decode>, recordedUtc: i64): Result<Record, RecordError>
  {
    NewRecord(ContextOf(setup, w), Diagnostics(audio, health, HealthyClock(age)), decodes, recordedUtc)
  }

  function LogWindow(s: State, w: ReceiveWindow, fate: Fate): State {
    s.(log := s.log.(entries := s.log.entries + [Entry(w.streamGeneration, w, fate)]))
  }

  function SourceOf(w: ReceiveWindow): Spectrum.Source
    requires w.Valid()
  {
    Spectrum.Source(w.processGeneration, w.streamGeneration, w.slotStartUtc)
  }

  /** Passes a window to the spectrum model, if there is one, in chunks until one fails.  A window is
      valid by construction. */
  function ShowWindow(spectrum: Option<Spectrum.LiveModel>, w: ReceiveWindow): (Option<Spectrum.LiveModel>, bool) {
    if spectrum.None? then (None, true)
    else if !w.Valid() then (spectrum, false)
    else
      var shown := Spectrum.PushWindow(spectrum.value, SourceOf(w), w.samples, 0);
      (Some(shown.0), shown.1)
  }

  function PublishWaterfall(spectrum: Option<Spectrum.LiveModel>): (Option<Spectrum.LiveModel>, seq<PollEvent>) {
    if spectrum.None? then (None, [])
    else
      var published := Spectrum.Publish(spectrum.value);
      (Some(published.0), if published.1.Some? then [Waterfall(published.1.value)] else [])
  }

  /** A window that passed the gate: spectrum, decode, record, store. */
  function KeepWindow(
    setup: Setup, s: State, w: ReceiveWindow, age: u64, audio: AudioHealth, services: Services, recordedUtc: i64)
    : (State, Result<seq<PollEvent>, Option<Inhibition>>)
    requires s.timeline.Some?
  {
    var shown := ShowWindow(s.spectrum, w);
    if !shown.1 then (LogWindow(s.(spectrum := shown.0), w, SpectrumFailed), Err(None))
    else
      var published := PublishWaterfall(shown.0);
      var s := s.(spectrum := published.0);
      var decodes := services.decode(w.samples);
      if decodes.None? then (LogWindow(s, w, DecodeFailed), Err(Some(DecoderFailure)))
      else
        var record := RecordOf(setup, w, audio, s.timeline.value.health, age, decodes.value, recordedUtc);
        if record.Err? || !services.store(record.value) then (LogWindow(s, w, StoreFailed), Err(Some(StorageFailure)))
        else (LogWindow(s, w, Stored(record.value)),
              Ok([Persisted(record.value.context.id, |record.value.decodes|)] + published.1))
  }

  /** The events of one batch, from number `i` on; an inhibition ends the loop. */
  function HandleEvents(
    setup: Setup, s: State, events: seq<TimelineEvent>, i: nat, audio: AudioHealth, replies: Replies,
    now: u64, recordedUtc: i64, results: seq<PollEvent>)
    : (State, Result<seq<PollEvent>, CoordinatorError>)
    requires i <= |events| && s.timeline.Some? && s.clock.Some?
    decreases |events| - i
  {
    if i == |events| then (s, Ok(results))
    else
      var (monitor, gated) := ReceiveClock.Gate(s.clock.value, events[i], now);
      var s := s.(clock := Some(monitor));
      match gated
      case PassedIncomplete(slot) =>
        HandleEvents(setup, s, events, i + 1, audio, replies, now, recordedUtc,
                     results + [IncompleteSlotSeen(slot.slotStartUtc, slot.accumulatedSamples)])
      case WindowRejected(_, fault) => InhibitAfter(s, results, ClockInhibition(fault))
      case WindowReady(w, alignment) =>
        var (t, kept) := KeepWindow(setup, s, events[i].window, alignment.mappingAge, audio, replies.services, recordedUtc);
        match kept
        case Ok(kept) =>
          HandleEvents(setup, t, events, i + 1, audio, replies, now, recordedUtc, results + kept)
        case Err(None) => (t, Err(SpectrumError))
        case Err(Some(reason)) => InhibitAfter(t, results, reason)
  }

  function InhibitAfter(s: State, results: seq<PollEvent>, reason: Inhibition)
    : (State, Result<seq<PollEvent>, CoordinatorError>)
  {
    (Inhibit(s, reason),
     Ok(results + [LifecycleChanged(Transition(s.lifecycle, Inhibit(s, reason).lifecycle))]))
  }

  /** Logs a batch that the timeline accepted. */
  function LogAccepted(s: State, g: Generation, b: CaptureBatch): State {
    s.(log := s.log.(streams := s.log.streams[g := s.log.Of(g).(accepted := s.log.Of(g).accepted + [b])]))
  }

  function LogObtained(s: State, g: Generation, more: seq<CaptureBatch>): State {
    s.(log := s.log.(streams := s.log.streams[g := s.log.Of(g).(obtained := s.log.Of(g).obtained + more)]))
  }

  /** The oldest admitted batch: timeline, then the gate and the window pipeline for each event. */
  function ProcessBatch(
    setup: Setup, s: State, b: CaptureBatch, audio: AudioHealth, replies: Replies, now: u64, recordedUtc: i64)
    : (State, Result<seq<PollEvent>, CoordinatorError>)
    requires s.lifecycle.Receiving? && s.timeline.Some? && s.clock.Some?
  {
    var pushed := Timeline.Push(s.timeline.value, b, now);
    var s := s.(timeline := Some(pushed.0));
    if pushed.1.Err? then InhibitAlone(s, TimelineInhibition(pushed.1.error))
    else HandleEvents(setup, LogAccepted(s, s.lifecycle.stream, b), pushed.1.value, 0, audio, replies, now,
                      recordedUtc, [])
  }

  /** The part of a poll after the input's and the clock's health checks. */
  function Work(setup: Setup, s: State, audio: AudioHealth, replies: Replies, now: u64, recordedUtc: i64)
    : (State, Result<seq<PollEvent>, CoordinatorError>)
    requires s.lifecycle.Receiving? && s.timeline.Some? && s.clock.Some?
  {
    var admitted := Admit(s.worker, replies, 0);
    AdmitExtends(s.worker, replies, 0);
    var s := LogObtained(s.(worker := admitted.0), s.lifecycle.stream, admitted.0[|s.worker|..]);
    if admitted.1.Some? then InhibitAlone(s, InputInhibition(ErrorKind(admitted.1.value)))
    else if s.worker == [] then (s, Ok([]))
    else ProcessBatch(setup, s.(worker := s.worker[1..]), s.worker[0], audio, replies, now, recordedUtc)
  }

  /** One bounded worker poll. */
  function Poll(setup: Setup, s: State, replies: Replies, now: u64, recordedUtc: i64)
    : (State, Result<seq<PollEvent>, CoordinatorError>)
  {
    if !s.lifecycle.Receiving? || s.clock.None? || s.timeline.None? then (s, Err(InvalidLifecycle(s.lifecycle)))
    else if replies.fault.Some? then InhibitAlone(s, InputInhibition(replies.fault.value))
    else if replies.health.Err? then InhibitAlone(s, InputInhibition(ErrorKind(replies.health.error)))
    else if replies.health.value.overflowCount > 0 then InhibitAlone(s, InputInhibition(Overflowed(0)))
    else
      var s := s.(clock := Some(ReceiveClock.Refresh(s.clock.value, now)));
      if s.clock.value.state.Unhealthy? then InhibitAlone(s, ClockInhibition(s.clock.value.state.fault))
      else Work(setup, s, replies.health.value, replies, now, recordedUtc)
  }

  lemma AdmitExtends(worker: seq<CaptureBatch>, replies: Replies, i: nat)
    ensures worker <= Admit(worker, replies, i).0
    ensures |Admit(worker, replies, i).0| <= Max(|worker|, WORKER_BATCH_CAPACITY)
    decreases WORKER_BATCH_CAPACITY - |worker|
  {
  }

  // ---------------------------------------------------------------------
  // Runs
  // ---------------------------------------------------------------------

  datatype Call =
    | StartCall(initial: ReceiveClock.Observation, reply: Option<InputError>)
    | ObserveCall(observation: ReceiveClock.Observation, at: u64)
    | PollCall(replies: Replies, now: u64, recordedUtc: i64)
    | StopCall(reason: StopReason)
    | EnableCall(config: Spectrum.ValidConfig, planned: bool)

  function Apply(setup: Setup, s: State, call: Call): State {
    match call
    case StartCall(initial, reply) => Start(setup, s, initial, reply).0
    case ObserveCall(o, at) => ObserveClock(s, o, at).0
    case PollCall(replies, now, recordedUtc) => Poll(setup, s, replies, now, recordedUtc).0
    case StopCall(reason) => Stop(s, reason).0
    case EnableCall(config, planned) => EnableSpectrum(s, config, planned)
  }

  function RunCalls(setup: Setup, calls: seq<Call>): State {
    if calls == [] then Initial() else Apply(setup, RunCalls(setup, calls[..|calls| - 1]), calls[|calls| - 1])
  }
}
