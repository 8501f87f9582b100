/**
 The durable record of one receive window and the checks of its constructor.
 */
module Records {
  import opened Numeric
  import opened Audio
  import opened Decodes
  import Timeline
  import ReceiveClock

  const MAX_STORED_DECODES: nat := 128
  const MAX_MAPPING_AGE_MILLIS: nat := 86_400_000
  const MAX_STORED_DRIFT_PPM: nat := 100_000
  const MAX_LATENCY_MILLIS: nat := 60_000

  datatype Platform = MacOsCoreAudio | WindowsWasapi | LinuxAlsa | LinuxJack

  datatype Device = Device(platform: Platform, opaqueId: string)

  /** Identity and capture mapping of one window; identifiers are carried by their text. */
  datatype WindowContext = WindowContext(
    id: string, service: string, process: Generation, stream: Generation, slotStartUtc: int,
    device: Device, configuration: InputConfiguration, mapping: TimeEvidence)

  datatype InputStatus = InputStatus(
    latencyMillis: u32, driftPpm: int, overflowCount: u64, clippedSamples: u64, maxDelayMillis: u32)
  {
    predicate Valid() {
      latencyMillis <= MAX_LATENCY_MILLIS && Abs(driftPpm) <= MAX_STORED_DRIFT_PPM
      && maxDelayMillis <= MAX_CALLBACK_DELAY_MILLIS
    }
  }

  type AudioHealth = a: InputStatus | a.Valid() witness InputStatus(0, 0, 0, 0, 0)

  datatype ClockHealth =
    | HealthyClock(age: u64)
    | UnhealthyClock(fault: ReceiveClock.Fault, progress: nat, required: nat, age: u64)
  {
    predicate Valid() {
      && age <= MAX_MAPPING_AGE_MILLIS
      && (UnhealthyClock? ==> 2 <= required <= 10 && progress < required)
    }
  }

  datatype Diagnostics = Diagnostics(audio: AudioHealth, timeline: Timeline.Health, clock: ClockHealth)

  datatype Record = Record(
    context: WindowContext, diagnostics: Diagnostics, decodes: seq<Decode>, recordedUtc: i64)

  datatype RecordError =
    | MappingOffSlot | NegativeTime | TooManyDecodes | DriftOutOfRange | InvalidClock | InvalidMetadata
    | UnhealthyDecodes

  predicate StorableMetadata(d: Decode) {
    Abs(d.offsetMillis) <= 60_000 && d.frequencyHz <= 6_000 && Abs(d.snrDb) <= 100
  }

  /** The checked constructor; it also puts the decodes in their deterministic order. */
  function NewRecord(context: WindowContext, diagnostics: Diagnostics, decodes: seq<Decode>, recordedUtc: i64)
    : Result<Record, RecordError>
  {
    if context.mapping.utc != context.slotStartUtc then Err(MappingOffSlot)
    else if recordedUtc < 0 then Err(NegativeTime)
    else if |decodes| > MAX_STORED_DECODES then Err(TooManyDecodes)
    else if Abs(diagnostics.timeline.driftPpm) > MAX_STORED_DRIFT_PPM then Err(DriftOutOfRange)
    else if !diagnostics.clock.Valid() then Err(InvalidClock)
    else if exists d | d in decodes :: !StorableMetadata(d) then Err(InvalidMetadata)
    else if diagnostics.clock.UnhealthyClock? && decodes != [] then Err(UnhealthyDecodes)
    else Ok(Record(context, diagnostics, Sorted(decodes), recordedUtc))
  }

  /** What every constructed record satisfies, and all that its reconstruction needs. */
  predicate WellFormed(r: Record) {
    Ordered(r.decodes) && NewRecord(r.context, r.diagnostics, r.decodes, r.recordedUtc) == Ok(r)
  }

  lemma ConstructedWellFormed(context: WindowContext, diagnostics: Diagnostics, decodes: seq<Decode>, recordedUtc: i64)
    requires NewRecord(context, diagnostics, decodes, recordedUtc).Ok?
    ensures WellFormed(NewRecord(context, diagnostics, decodes, recordedUtc).value)
    ensures multiset(NewRecord(context, diagnostics, decodes, recordedUtc).value.decodes) == multiset(decodes)
  {
    SortedIsStableSort(decodes);
    SortedIdempotent(Sorted(decodes));
    hide Sorted, TiesWith, Ordered, StorableMetadata;
    var sorted := Sorted(decodes);
    assert |multiset(sorted)| == |sorted| && |multiset(decodes)| == |decodes|;
    forall d | d in sorted
      ensures StorableMetadata(d)
    {
      assert d in multiset(decodes);
    }
  }
}
