/**
 The coordinator object, which updates its fields in place, proved against the functions of
 `Coordinator`.
 */
module LiveCoordinator {
  import opened Numeric
  import opened Audio
  import opened Records
  import opened Coordinator
  import opened Timeline
  import opened ReceiveClock
  import TimelineRuns
  import Spectrum
  import opened SpectrumObject

  class LiveReceiveCoordinator {
    const setup: Setup
    var lifecycle: Lifecycle
    var lastStream: u64
    var inputOpen: bool
    var timeline: Ft8ReceiveTimeline?
    var clock: ReceiveClockMonitor?
    var worker: seq<CaptureBatch>
    var spectrum: SpectrumModel?
    ghost var log: Log

    ghost function Resampler(): object?
      reads this, timeline
    {
      if timeline == null then null else timeline.resampler
    }

    ghost function Abs(): Coordinator.State
      reads this, timeline, Resampler(), clock, spectrum
    {
      Coordinator.State(lifecycle, lastStream, inputOpen,
                        if timeline == null then None else Some(timeline.Abs()),
                        if clock == null then None else Some(clock.Abs()), worker,
                        if spectrum == null || !spectrum.config.Valid() then None else Some(spectrum.Abs()), log)
    }

    ghost predicate Valid()
      reads this, timeline, Resampler(), clock, spectrum
    {
      && (timeline != null ==> timeline.Valid())
      && (clock != null ==> clock.Abs().Valid())
      && (spectrum != null ==> spectrum.config.Valid())
      && (lifecycle.Receiving? ==> timeline != null && clock != null)
    }

    constructor (setup: Setup)
      ensures Valid() && Abs() == Coordinator.Initial() && this.setup == setup
    {
      this.setup := setup;
      lifecycle, lastStream, inputOpen := Stopped(0), 0, false;
      timeline, clock, worker, spectrum := null, null, [], null;
      log := Log([], map[], [], {});
    }

    method MoveTo(next: Lifecycle) returns (t: Coordinator.Transition)
      modifies this`lifecycle
      ensures lifecycle == next && t == Transition(old(lifecycle), next)
    {
      t := Transition(lifecycle, next);
      lifecycle := next;
    }

    /** Installs a new spectrum model; `planned` says whether its transform could be planned. */
    method EnableSpectrum(config: Spectrum.ValidConfig, planned: bool)
      requires Valid()
      modifies this`spectrum, this`log
      ensures Valid() && Abs() == Coordinator.EnableSpectrum(old(Abs()), config, planned)
    {
      if planned {
        log := Coordinator.EnableSpectrum(Abs(), config, planned).log;
        spectrum := new SpectrumModel(config);
      }
    }

    method ResetWaterfall(reason: Spectrum.Reason)
      requires spectrum != null ==> spectrum.config.Valid()
      modifies spectrum
      ensures Abs() == old(Abs()).(spectrum := ResetSpectrum(old(Abs()).spectrum, reason))
    {
      if spectrum != null {
        spectrum.ResetModel(reason);
      }
    }

    method InhibitNow(reason: Inhibition) returns (t: Coordinator.Transition)
      requires Valid() && lifecycle.Receiving?
      modifies this, spectrum
      ensures Abs() == Inhibit(old(Abs()), reason) && Valid()
      ensures t == Transition(old(lifecycle), lifecycle)
    {
      inputOpen := false;
      worker := [];
      timeline, clock := null, null;
      ResetWaterfall(Spectrum.TimelineBroken);
      t := MoveTo(Inhibited(lifecycle.stream, reason));
    }

    method StartReceive(initial: Observation, reply: Option<InputError>)
      returns (r: Result<seq<Coordinator.Transition>, CoordinatorError>)
      requires Valid()
      modifies this, spectrum
      ensures Valid() && (Abs(), r) == Start(setup, old(Abs()), initial, reply)
    {
      hide Open, Timeline.State.Valid, Monitor.Valid;
      if !lifecycle.Stopped? {
        return Err(InvalidLifecycle(lifecycle));
      }
      if lastStream == U64_MAX {
        return Err(StreamGenerationOverflow);
      }
      var g: Generation := lastStream + 1;
      lastStream := g;
      log := log.(attempts := log.attempts + [g], streams := log.streams[g := Stream([], [])]);
      var first := MoveTo(Starting(g));
      assert Abs() == Reserve(old(Abs()), g);
      var failed, second := OpenStream(g, initial, reply);
      r := if failed.Some? then Err(failed.value) else Ok([first, second]);
    }

    /** The rest of a start, once its generation is reserved. */
    method OpenStream(g: Generation, initial: Observation, reply: Option<InputError>)
      returns (failed: Option<CoordinatorError>, second: Coordinator.Transition)
      requires Valid() && lifecycle == Starting(g)
      modifies this, spectrum
      ensures Valid() && (Abs(), failed) == Open(setup, old(Abs()), g, initial, reply)
      ensures second == Transition(Starting(g), lifecycle)
    {
      hide Begin, Timeline.State.Valid, Monitor.Valid, ResetSpectrum;
      failed, second := None, Transition(lifecycle, lifecycle);
      if initial.generation != setup.process {
        second := MoveTo(Inhibited(g, ClockInhibition(ReceiveClock.ProcessGenerationChanged)));
        return;
      }
      if reply.Some? {
        second := MoveTo(Inhibited(g, InputInhibition(ErrorKind(reply.value))));
        return;
      }
      inputOpen := true;
      if !setup.clock.Valid() {
        failed := Some(InvalidClockConfig);
        return;
      }
      BeginStream(g, initial);
      second := Transition(Starting(g), lifecycle);
    }

    method BeginStream(g: Generation, initial: Observation)
      requires Valid() && setup.clock.Valid()
      modifies this, spectrum
      ensures Valid() && Abs() == Begin(setup, old(Abs()), g, initial)
    {
      hide Timeline.State.Valid, Monitor.Valid, ResetSpectrum;
      ResetWaterfall(Spectrum.StreamChanged);
      timeline := new Ft8ReceiveTimeline(setup.process, g, setup.configuration);
      clock := new ReceiveClockMonitor(initial, setup.clock);
      worker := [];
      lifecycle := Receiving(g);
    }

    method StopReceive(reason: StopReason) returns (r: Result<seq<Coordinator.Transition>, CoordinatorError>)
      requires Valid()
      modifies this, spectrum
      ensures Valid() && (Abs(), r) == Stop(old(Abs()), reason)
    {
      hide Timeline.State.Valid, Monitor.Valid, ResetSpectrum;
      if !lifecycle.Receiving? && !lifecycle.Inhibited? {
        return Err(InvalidLifecycle(lifecycle));
      }
      var first := MoveTo(Stopping(lifecycle.stream, reason));
      inputOpen := false;
      timeline, clock, worker := null, null, [];
      ResetWaterfall(Spectrum.StreamChanged);
      var second := MoveTo(Stopped(lastStream));
      r := Ok([first, second]);
    }

    method ObserveClockSample(o: Observation, at: u64)
      returns (r: Result<Option<Coordinator.Transition>, CoordinatorError>)
      requires Valid()
      modifies this, clock, spectrum
      ensures Valid() && (Abs(), r) == ObserveClock(old(Abs()), o, at)
    {
      if !lifecycle.Receiving? {
        return Err(InvalidLifecycle(lifecycle));
      }
      hide Observe, Timeline.State.Valid;
      HealthyTransition(clock.Abs(), o, at);
      var transition := clock.ObserveSample(o, at);
      if transition.snapshot.state.Unhealthy? {
        var t := InhibitNow(ClockInhibition(transition.snapshot.state.fault));
        return Ok(Some(t));
      }
      r := Ok(None);
    }

    /** The admission loop. */
    method AdmitBatches(replies: Replies) returns (failed: Option<InputError>)
      requires Valid() && lifecycle.Receiving?
      modifies this`worker, this`log
      ensures Valid()
      ensures (worker, failed) == Admit(old(worker), replies, 0)
      ensures old(worker) <= worker
      ensures Abs() == LogObtained(old(Abs()).(worker := worker), lifecycle.stream, worker[|old(worker)|..])
    {
      var i := 0;
      AdmitExtends(worker, replies, 0);
      failed := None;
      while |worker| < WORKER_BATCH_CAPACITY
        invariant Admit(worker, replies, i) == Admit(old(worker), replies, 0)
        invariant old(worker) <= worker && failed.None?
        invariant Abs() == old(Abs()).(worker := worker)
        invariant Valid()
        decreases WORKER_BATCH_CAPACITY - |worker|
      {
        match replies.NextBatch(i) {
          case Ok(Some(b)) =>
            worker := worker + [b];
          case Ok(None) =>
            break;
          case Err(error) =>
            failed := Some(error);
            break;
        }
        i := i + 1;
      }
      log := LogObtained(Abs(), lifecycle.stream, worker[|old(worker)|..]).log;
    }

    /** Passes the window to the spectrum model in chunks, until one fails. */
    method ShowNow(w: ReceiveWindow) returns (ok: bool)
      requires Valid() && w.Valid()
      modifies spectrum
      ensures Valid()
      ensures (Abs(), ok) == (old(Abs()).(spectrum := ShowWindow(old(Abs()).spectrum, w).0),
                              ShowWindow(old(Abs()).spectrum, w).1)
    {
      hide Timeline.State.Valid, Monitor.Valid, Spectrum.PushWindow;
      ok := true;
      if spectrum != null {
        ok := PushChunks(spectrum, SourceOf(w), w.samples);
      }
    }

    method PublishNow() returns (events: seq<PollEvent>)
      requires Valid()
      modifies spectrum
      ensures Valid()
      ensures (Abs(), events) == (old(Abs()).(spectrum := PublishWaterfall(old(Abs()).spectrum).0),
                                  PublishWaterfall(old(Abs()).spectrum).1)
    {
      events := [];
      if spectrum != null {
        hide Timeline.State.Valid, Monitor.Valid;
        var snapshot := spectrum.TakeSnapshot();
        if snapshot.Some? {
          events := [Waterfall(snapshot.value)];
        }
      }
    }

    /** A window that passed the gate; `Err(None)` reports a spectrum failure. */
    method KeepOne(w: ReceiveWindow, age: u64, audio: AudioHealth, services: Services, recordedUtc: i64)
      returns (r: Result<seq<PollEvent>, Option<Inhibition>>)
      requires Valid() && timeline != null && w.Valid()
      modifies this`log, spectrum
      ensures Valid()
      ensures (Abs(), r) == KeepWindow(setup, old(Abs()), w, age, audio, services, recordedUtc)
    {
      hide Timeline.State.Valid, NewRecord, Monitor.Valid, ShowWindow, PublishWaterfall;
      var shown := ShowNow(w);
      if !shown {
        log := LogWindow(Abs(), w, SpectrumFailed).log;
        return Err(None);
      }
      var waterfall := PublishNow();
      var decodes := services.decode(w.samples);
      if decodes.None? {
        log := LogWindow(Abs(), w, DecodeFailed).log;
        return Err(Some(DecoderFailure));
      }
      var record := RecordOf(setup, w, audio, timeline.health, age, decodes.value, recordedUtc);
      if record.Err? || !services.store(record.value) {
        log := LogWindow(Abs(), w, StoreFailed).log;
        return Err(Some(StorageFailure));
      }
      log := LogWindow(Abs(), w, Stored(record.value)).log;
      r := Ok([Persisted(record.value.context.id, |record.value.decodes|)] + waterfall);
    }

    /** The event loop. */
    method HandleAll(events: seq<TimelineEvent>, audio: AudioHealth, replies: Replies, now: u64, recordedUtc: i64)
      returns (r: Result<seq<PollEvent>, CoordinatorError>)
      requires Valid() && lifecycle.Receiving?
      requires forall e | e in events && e.Window? :: e.window.Valid()
      modifies this, clock, spectrum
      ensures Valid()
      ensures (Abs(), r) == HandleEvents(setup, old(Abs()), events, 0, audio, replies, now, recordedUtc, [])
    {
      hide Timeline.State.Valid, KeepWindow, Gate, Monitor.Valid, ResetSpectrum;
      var results: seq<PollEvent> := [];
      var i := 0;
      while i < |events|
        invariant i <= |events| && Valid() && lifecycle.Receiving?
        invariant clock == old(clock) && timeline == old(timeline) && spectrum == old(spectrum)
        invariant HandleEvents(setup, Abs(), events, i, audio, replies, now, recordedUtc, results)
               == HandleEvents(setup, old(Abs()), events, 0, audio, replies, now, recordedUtc, [])
      {
        GateValid(clock.Abs(), events[i], now);
        var gated := clock.GateEvent(events[i], now);
        match gated {
          case PassedIncomplete(slot) =>
            results := results + [IncompleteSlotSeen(slot.slotStartUtc, slot.accumulatedSamples)];
          case WindowRejected(_, fault) =>
            var t := InhibitNow(ClockInhibition(fault));
            return Ok(results + [LifecycleChanged(t)]);
          case WindowReady(w, alignment) =>
            var kept := KeepOne(w, alignment.mappingAge, audio, replies.services, recordedUtc);
            match kept {
              case Ok(kept) =>
                results := results + kept;
              case Err(None) =>
                return Err(SpectrumError);
              case Err(Some(reason)) =>
                var t := InhibitNow(reason);
                return Ok(results + [LifecycleChanged(t)]);
            }
        }
        i := i + 1;
      }
      r := Ok(results);
    }

    method ProcessOne(b: CaptureBatch, audio: AudioHealth, replies: Replies, now: u64, recordedUtc: i64)
      returns (r: Result<seq<PollEvent>, CoordinatorError>)
      requires Valid() && lifecycle.Receiving?
      modifies this, timeline, Resampler(), clock, spectrum
      ensures Valid()
      ensures (Abs(), r) == ProcessBatch(setup, old(Abs()), b, audio, replies, now, recordedUtc)
    {
      hide Timeline.State.Valid, Push, HandleEvents, Monitor.Valid;
      TimelineRuns.ReportedWindowsValid(timeline.Abs(), b, now);
      var pushed := timeline.PushBatch(b, now);
      if pushed.Err? {
        var t := InhibitNow(TimelineInhibition(pushed.error));
        return Ok([LifecycleChanged(t)]);
      }
      log := LogAccepted(Abs(), lifecycle.stream, b).log;
      r := HandleAll(pushed.value, audio, replies, now, recordedUtc);
    }

    /** One bounded worker poll. */
    method PollOnce(replies: Replies, now: u64, recordedUtc: i64) returns (r: Result<seq<PollEvent>, CoordinatorError>)
      requires Valid()
      modifies this, timeline, Resampler(), clock, spectrum
      ensures Valid()
      ensures (Abs(), r) == Poll(setup, old(Abs()), replies, now, recordedUtc)
    {
      if !lifecycle.Receiving? {
        return Err(InvalidLifecycle(lifecycle));
      }
      hide Timeline.State.Valid, Work, Monitor.Valid, ResetSpectrum;
      if replies.fault.Some? {
        var t := InhibitNow(InputInhibition(replies.fault.value));
        return Ok([LifecycleChanged(t)]);
      }
      if replies.health.Err? {
        var t := InhibitNow(InputInhibition(ErrorKind(replies.health.error)));
        return Ok([LifecycleChanged(t)]);
      }
      if replies.health.value.overflowCount > 0 {
        var t := InhibitNow(InputInhibition(Overflowed(0)));
        return Ok([LifecycleChanged(t)]);
      }
      var snapshot := clock.TakeSnapshot(now);
      if snapshot.state.Unhealthy? {
        var t := InhibitNow(ClockInhibition(snapshot.state.fault));
        return Ok([LifecycleChanged(t)]);
      }
      r := WorkOnce(replies.health.value, replies, now, recordedUtc);
    }

    method WorkOnce(audio: AudioHealth, replies: Replies, now: u64, recordedUtc: i64)
      returns (r: Result<seq<PollEvent>, CoordinatorError>)
      requires Valid() && lifecycle.Receiving?
      modifies this, timeline, Resampler(), clock, spectrum
      ensures Valid()
      ensures (Abs(), r) == Work(setup, old(Abs()), audio, replies, now, recordedUtc)
    {
      hide Timeline.State.Valid, ProcessBatch, Admit, Monitor.Valid, ResetSpectrum;
      var failed := AdmitBatches(replies);
      if failed.Some? {
        var t := InhibitNow(InputInhibition(ErrorKind(failed.value)));
        return Ok([LifecycleChanged(t)]);
      }
      if worker == [] {
        return Ok([]);
      }
      var b := worker[0];
      worker := worker[1..];
      r := ProcessOne(b, audio, replies, now, recordedUtc);
    }
  }

  /** The chunk loop over one window. */
  method PushChunks(model: SpectrumModel, source: Spectrum.Source, samples: seq<i16>) returns (ok: bool)
    requires model.config.Valid() && |samples| == WINDOW_SAMPLES
    modifies model
    ensures (model.Abs(), ok) == Spectrum.PushWindow(old(model.Abs()), source, samples, 0)
  {
    hide Spectrum.Push;
    ghost var i := 0;
    var offset := 0;
    while offset < |samples|
      invariant i <= 44 && offset == Spectrum.CutEnd(i)
      invariant Spectrum.PushWindow(model.Abs(), source, samples, i) == Spectrum.PushWindow(old(model.Abs()), source, samples, 0)
      decreases 44 - i
    {
      var count := Min(|samples| - offset, Spectrum.MAX_CHUNK);
      var chunk := Spectrum.Chunk(source, offset, None, samples[offset..offset + count]);
      assert chunk == Spectrum.WindowChunk(source, samples, i);
      var pushed := model.PushChunk(chunk);
      if pushed.Err? {
        return false;
      }
      offset := offset + count;
      i := i + 1;
    }
    ok := true;
  }

  lemma GateValid(m: Monitor, e: TimelineEvent, at: u64)
    requires m.Valid()
    ensures Gate(m, e, at).0.Valid()
    ensures Gate(m, e, at).1.WindowReady? ==>
              e.Window? && Gate(m, e, at).1.window == e.window && Gate(m, e, at).1.alignment.mappingAge <= at
  {
  }
}
