/**
 The column codecs of the receive tables: how a record is written as rows and read back.
 */
module ReceiveColumns {
  import opened Numeric
  import opened Audio
  import opened Decodes
  import opened Records
  import Timeline
  import ReceiveClock

  // ---------------------------------------------------------------------
  // Enumerations as text
  // ---------------------------------------------------------------------

  function PlatformText(p: Platform): string {
    match p
    case MacOsCoreAudio => "macos_core_audio"
    case WindowsWasapi => "windows_wasapi"
    case LinuxAlsa => "linux_alsa"
    case LinuxJack => "linux_jack"
  }

  function ParsePlatform(s: string): Option<Platform> {
    if s == "macos_core_audio" then Some(MacOsCoreAudio)
    else if s == "windows_wasapi" then Some(WindowsWasapi)
    else if s == "linux_alsa" then Some(LinuxAlsa)
    else if s == "linux_jack" then Some(LinuxJack)
    else None
  }

  lemma PlatformRoundTrip(p: Platform)
    ensures ParsePlatform(PlatformText(p)) == Some(p)
  {
  }

  function FormatText(f: SampleFormat): string {
    match f
    case Signed8 => "signed_8"
    case Signed16 => "signed_16"
    case Signed24 => "signed_24"
    case Signed32 => "signed_32"
    case Signed64 => "signed_64"
    case Unsigned8 => "unsigned_8"
    case Unsigned16 => "unsigned_16"
    case Unsigned24 => "unsigned_24"
    case Unsigned32 => "unsigned_32"
    case Unsigned64 => "unsigned_64"
    case Float32 => "float_32"
    case Float64 => "float_64"
  }

  function ParseFormat(s: string): Option<SampleFormat> {
    if s == "signed_8" then Some(Signed8)
    else if s == "signed_16" then Some(Signed16)
    else if s == "signed_24" then Some(Signed24)
    else if s == "signed_32" then Some(Signed32)
    else if s == "signed_64" then Some(Signed64)
    else if s == "unsigned_8" then Some(Unsigned8)
    else if s == "unsigned_16" then Some(Unsigned16)
    else if s == "unsigned_24" then Some(Unsigned24)
    else if s == "unsigned_32" then Some(Unsigned32)
    else if s == "unsigned_64" then Some(Unsigned64)
    else if s == "float_32" then Some(Float32)
    else if s == "float_64" then Some(Float64)
    else None
  }

  lemma FormatRoundTrip(f: SampleFormat)
    ensures ParseFormat(FormatText(f)) == Some(f)
  {
  }

  function ClassText(c: MessageClass): string {
    match c
    case GeneralCall => "general_call"
    case DirectedGrid => "directed_grid"
    case SignalReport => "signal_report"
    case RogerSignalReport => "roger_signal_report"
    case Roger => "roger"
    case Ending73 => "ending_73"
    case EndingRr73 => "ending_rr73"
  }

  function ParseClass(s: string): Option<MessageClass> {
    if s == "general_call" then Some(GeneralCall)
    else if s == "directed_grid" then Some(DirectedGrid)
    else if s == "signal_report" then Some(SignalReport)
    else if s == "roger_signal_report" then Some(RogerSignalReport)
    else if s == "roger" then Some(Roger)
    else if s == "ending_73" then Some(Ending73)
    else if s == "ending_rr73" then Some(EndingRr73)
    else None
  }

  lemma ClassRoundTrip(c: MessageClass)
    ensures ParseClass(ClassText(c)) == Some(c)
  {
  }

  // ---------------------------------------------------------------------
  // Clock columns
  // ---------------------------------------------------------------------

  datatype ClockColumns = ClockColumns(
    state: string, faultKind: Option<string>, faultValue: Option<i64>, progress: int, required: int, age: i64)

  /** Kind and value of a fault; `None` when its value does not fit a column. */
  function FaultColumns(f: ReceiveClock.Fault): Option<(string, Option<i64>)> {
    match f
    case ProcessGenerationChanged => Some(("process_generation_changed", None))
    case TimelineRegressed => Some(("timeline_regressed", None))
    case UtcJump(d) => if FitsI64(d) then Some(("utc_jump", Some(d))) else None
    case StaleMapping(a) => if FitsI64(a) then Some(("stale_mapping", Some(a))) else None
    case SamplingDelayed(d) => if FitsI64(d) then Some(("sampling_delayed", Some(d))) else None
    case SampleGap(g) => if FitsI64(g) then Some(("sample_gap", Some(g))) else None
    case WindowMisaligned(o) => if FitsI64(o) then Some(("window_misaligned", Some(o))) else None
    case ClockOverflow => Some(("arithmetic_overflow", None))
  }

  function ParseFault(kind: string, value: Option<i64>): Option<ReceiveClock.Fault> {
    if kind == "process_generation_changed" && value.None? then Some(ReceiveClock.ProcessGenerationChanged)
    else if kind == "timeline_regressed" && value.None? then Some(ReceiveClock.TimelineRegressed)
    else if kind == "arithmetic_overflow" && value.None? then Some(ReceiveClock.ClockOverflow)
    else if value.None? then None
    else if kind == "utc_jump" then Some(ReceiveClock.UtcJump(value.value))
    else if kind == "window_misaligned" then Some(ReceiveClock.WindowMisaligned(value.value))
    else if value.value < 0 then None
    else if kind == "stale_mapping" then Some(ReceiveClock.StaleMapping(value.value))
    else if kind == "sampling_delayed" then Some(ReceiveClock.SamplingDelayed(value.value))
    else if kind == "sample_gap" then Some(ReceiveClock.SampleGap(value.value))
    else None
  }

  lemma FaultRoundTrip(f: ReceiveClock.Fault)
    requires FaultColumns(f).Some?
    ensures ParseFault(FaultColumns(f).value.0, FaultColumns(f).value.1) == Some(f)
  {
  }

  function WriteClock(c: ClockHealth): Option<ClockColumns> {
    if !c.Valid() then None
    else
      match c
      case HealthyClock(age) => Some(ClockColumns("healthy", None, None, 0, 0, age))
      case UnhealthyClock(fault, progress, required, age) =>
        var columns := FaultColumns(fault);
        if columns.None? then None
        else Some(ClockColumns("unhealthy", Some(columns.value.0), columns.value.1, progress, required, age))
  }

  function ReadClock(c: ClockColumns): Option<ClockHealth> {
    if c.age < 0 then None
    else if c.state == "healthy" then
      if c.faultKind.None? && c.faultValue.None? && c.progress == 0 && c.required == 0 && HealthyClock(c.age).Valid()
      then Some(HealthyClock(c.age)) else None
    else if c.state == "unhealthy" && c.faultKind.Some? && c.progress >= 0 && c.required >= 0 then
      var fault := ParseFault(c.faultKind.value, c.faultValue);
      if fault.Some? && UnhealthyClock(fault.value, c.progress, c.required, c.age).Valid()
      then Some(UnhealthyClock(fault.value, c.progress, c.required, c.age)) else None
    else None
  }

  lemma ClockRoundTrip(c: ClockHealth)
    requires WriteClock(c).Some?
    ensures ReadClock(WriteClock(c).value) == Some(c)
  {
    hide ParseFault, FaultColumns;
    if c.UnhealthyClock? {
      FaultRoundTrip(c.fault);
    }
  }

  // ---------------------------------------------------------------------
  // Decode columns
  // ---------------------------------------------------------------------

  datatype MessageColumns = MessageColumns(
    outcome: string, text: string, detail: Option<string>, messageClass: Option<string>,
    sender: Option<string>, recipient: Option<string>)

  datatype DecodeRow = DecodeRow(index: int, offset: int, frequency: int, snr: int, message: MessageColumns)

  function WriteMessage(m: Message): MessageColumns {
    match m
    case Resolved(text, sender, recipient, c) =>
      MessageColumns("resolved", text, None, Some(ClassText(c)), Some(sender), recipient)
    case UnresolvedHash(text, detail) => MessageColumns("unresolved_hash", text, Some(detail), None, None, None)
    case Unsupported(text, detail) => MessageColumns("unsupported", text, Some(detail), None, None, None)
    case Ambiguous(text, detail) => MessageColumns("ambiguous", text, Some(detail), None, None, None)
    case FreeText(text) => MessageColumns("free_text", text, None, None, None, None)
  }

  function Checked(m: Message): Option<Message> { if m.Valid() then Some(m) else None }

  function ReadMessage(c: MessageColumns): Option<Message> {
    if c.outcome == "resolved" then
      if c.sender.None? || c.messageClass.None? || ParseClass(c.messageClass.value).None? then None
      else Checked(Resolved(c.text, c.sender.value, c.recipient, ParseClass(c.messageClass.value).value))
    else if c.outcome == "free_text" then Checked(FreeText(c.text))
    else if c.detail.None? then None
    else if c.outcome == "unresolved_hash" then Checked(UnresolvedHash(c.text, c.detail.value))
    else if c.outcome == "unsupported" then Checked(Unsupported(c.text, c.detail.value))
    else if c.outcome == "ambiguous" then Checked(Ambiguous(c.text, c.detail.value))
    else None
  }

  lemma MessageRoundTrip(m: Message)
    requires m.Valid()
    ensures ReadMessage(WriteMessage(m)) == Some(m)
  {
    hide ParseClass, ClassText, Message.Valid;
    if m.Resolved? {
      ClassRoundTrip(m.messageClass);
    }
  }

  function WriteDecode(d: Decode, index: nat): DecodeRow {
    DecodeRow(index, d.offsetMillis, d.frequencyHz, d.snrDb, WriteMessage(d.message))
  }

  function WriteDecodes(s: seq<Decode>): seq<DecodeRow> {
    seq(|s|, i requires 0 <= i < |s| => WriteDecode(s[i], i))
  }

  /** Reads rows in index order; a gap in the indices or an unreadable message fails. */
  function ReadRows(rows: seq<DecodeRow>): Option<seq<Decode>> {
    if rows == [] then Some([])
    else
      var n := |rows| - 1;
      var before := ReadRows(rows[..n]);
      var message := ReadMessage(rows[n].message);
      if before.None? || rows[n].index != n || message.None? || rows[n].frequency < 0 then None
      else Some(before.value + [Decode(rows[n].offset, rows[n].frequency, rows[n].snr, message.value)])
  }

  /** Rows that are not in the deterministic order are refused. */
  function ReadDecodes(rows: seq<DecodeRow>): Option<seq<Decode>> {
    var decodes := ReadRows(rows);
    if decodes.Some? && Sorted(decodes.value) == decodes.value then decodes else None
  }

  lemma {:induction false} RowsRoundTrip(s: seq<Decode>)
    requires forall i | 0 <= i < |s| :: s[i].message.Valid()
    ensures ReadRows(WriteDecodes(s)) == Some(s)
  {
    hide Message.Valid, ReadMessage, WriteMessage;
    if s != [] {
      var n := |s| - 1;
      RowsRoundTrip(s[..n]);
      assert WriteDecodes(s)[..n] == WriteDecodes(s[..n]);
      MessageRoundTrip(s[n].message);
      assert s == s[..n] + [s[n]];
    }
  }

  // ---------------------------------------------------------------------
  // Whole records
  // ---------------------------------------------------------------------

  /** The columns under the natural unique key. */
  datatype Key = Key(
    service: string, process: i64, stream: i64, slotStartUtc: i64, platform: string, opaqueId: string,
    rate: int, channels: int, format: string, selectedChannel: int)

  datatype CaptureColumns = CaptureColumns(position: i64, utc: i64, monotonic: i64, recordedUtc: i64)

  datatype AudioColumns = AudioColumns(latency: int, drift: int, overflow: i64, clipped: i64, maxDelay: int)

  datatype TimelineColumns = TimelineColumns(maxJitter: int, drift: int, incomplete: i64, late: i64)

  datatype Row = Row(
    id: string, key: Key, capture: CaptureColumns, audio: AudioColumns, timeline: TimelineColumns,
    clock: ClockColumns, decodes: seq<DecodeRow>)

  /** What the field types of a record guarantee beyond its constructor's checks. */
  predicate Typed(r: Record) {
    && 0 <= r.context.slotStartUtc <= I64_MAX && r.context.slotStartUtc % SLOT_MILLIS == 0
    && (forall i | 0 <= i < |r.decodes| :: r.decodes[i].message.Valid())
  }

  function WriteKey(c: WindowContext): Option<Key> {
    if c.process > I64_MAX || c.stream > I64_MAX || !FitsI64(c.slotStartUtc) then None
    else
      Some(Key(c.service, c.process, c.stream, c.slotStartUtc, PlatformText(c.device.platform), c.device.opaqueId,
               c.configuration.rate, c.configuration.channels, FormatText(c.configuration.format),
               c.configuration.selectedChannel))
  }

  function WriteCapture(m: TimeEvidence, recordedUtc: i64): Option<CaptureColumns> {
    if m.position > I64_MAX || m.monotonic > I64_MAX then None
    else Some(CaptureColumns(m.position, m.utc, m.monotonic, recordedUtc))
  }

  function WriteAudio(a: AudioHealth): Option<AudioColumns> {
    if a.overflowCount > I64_MAX || a.clippedSamples > I64_MAX then None
    else Some(AudioColumns(a.latencyMillis, a.driftPpm, a.overflowCount, a.clippedSamples, a.maxDelayMillis))
  }

  function WriteTimeline(h: Timeline.Health): Option<TimelineColumns> {
    if h.incompleteSlots > I64_MAX || h.lateBatches > I64_MAX then None
    else Some(TimelineColumns(h.maxJitterMillis, h.driftPpm, h.incompleteSlots, h.lateBatches))
  }

  /** The rows of a record; `None` when a counter does not fit a column. */
  function Write(r: Record): Option<Row> {
    var key := WriteKey(r.context);
    var capture := WriteCapture(r.context.mapping, r.recordedUtc);
    var audio := WriteAudio(r.diagnostics.audio);
    var timeline := WriteTimeline(r.diagnostics.timeline);
    var clock := WriteClock(r.diagnostics.clock);
    if key.None? || capture.None? || audio.None? || timeline.None? || clock.None? then None
    else Some(Row(r.context.id, key.value, capture.value, audio.value, timeline.value, clock.value, WriteDecodes(r.decodes)))
  }

  function ReadConfiguration(k: Key): Option<InputConfiguration> {
    var format := ParseFormat(k.format);
    if format.None? || !(MIN_RATE_HZ <= k.rate <= MAX_RATE_HZ) || k.channels < 0 || k.selectedChannel < 0 then None
    else
      var c := Configuration(k.rate, k.channels, format.value, k.selectedChannel);
      if c.Valid() then Some(c) else None
  }

  function ReadContext(id: string, k: Key, c: CaptureColumns): Option<WindowContext> {
    var platform := ParsePlatform(k.platform);
    var configuration := ReadConfiguration(k);
    if platform.None? || configuration.None? || k.process <= 0 || k.stream <= 0 || c.position < 0 || c.monotonic < 0
       || c.utc < 0 || k.slotStartUtc < 0 || k.slotStartUtc % SLOT_MILLIS != 0 then None
    else
      Some(WindowContext(id, k.service, k.process, k.stream, k.slotStartUtc, Device(platform.value, k.opaqueId),
                         configuration.value, Evidence(c.position, c.utc, c.monotonic)))
  }

  function ReadAudio(a: AudioColumns): Option<AudioHealth> {
    if !(0 <= a.latency <= U32_MAX) || !(0 <= a.maxDelay <= U32_MAX) || a.overflow < 0 || a.clipped < 0 then None
    else
      var status := InputStatus(a.latency, a.drift, a.overflow, a.clipped, a.maxDelay);
      if status.Valid() then Some(status) else None
  }

  function ReadTimeline(t: TimelineColumns): Option<Timeline.Health> {
    if !(0 <= t.maxJitter <= U32_MAX) || t.incomplete < 0 || t.late < 0 then None
    else Some(Timeline.Health(t.maxJitter, t.drift, t.incomplete, t.late))
  }

  function Read(row: Row): Option<Record> {
    var context := ReadContext(row.id, row.key, row.capture);
    var audio := ReadAudio(row.audio);
    var timeline := ReadTimeline(row.timeline);
    var clock := ReadClock(row.clock);
    var decodes := ReadDecodes(row.decodes);
    if context.None? || audio.None? || timeline.None? || clock.None? || decodes.None? then None
    else
      var r := NewRecord(context.value, Diagnostics(audio.value, timeline.value, clock.value), decodes.value,
                         row.capture.recordedUtc);
      if r.Ok? then Some(r.value) else None
  }

  lemma ContextRoundTrip(c: WindowContext, recordedUtc: i64)
    requires 0 <= c.slotStartUtc && c.slotStartUtc % SLOT_MILLIS == 0
    requires WriteKey(c).Some? && WriteCapture(c.mapping, recordedUtc).Some?
    ensures ReadContext(c.id, WriteKey(c).value, WriteCapture(c.mapping, recordedUtc).value) == Some(c)
  {
    PlatformRoundTrip(c.device.platform);
    FormatRoundTrip(c.configuration.format);
    hide PlatformText, ParsePlatform, FormatText, ParseFormat;
  }

  /** Reading back any storable record gives that record. */
  lemma RecordRoundTrip(r: Record)
    requires WellFormed(r) && Typed(r) && Write(r).Some?
    ensures Read(Write(r).value) == Some(r)
  {
    hide WriteKey, WriteCapture, ReadContext, WriteClock, ReadClock, WriteDecodes, ReadRows, NewRecord, Sorted, Ordered;
    ContextRoundTrip(r.context, r.recordedUtc);
    ClockRoundTrip(r.diagnostics.clock);
    RowsRoundTrip(r.decodes);
    SortedIdempotent(r.decodes);
    assert WriteCapture(r.context.mapping, r.recordedUtc).value.recordedUtc == r.recordedUtc by {
      CaptureKeepsTime(r.context.mapping, r.recordedUtc);
    }
  }

  lemma CaptureKeepsTime(m: TimeEvidence, recordedUtc: i64)
    requires WriteCapture(m, recordedUtc).Some?
    ensures WriteCapture(m, recordedUtc).value.recordedUtc == recordedUtc
  {
  }
}
