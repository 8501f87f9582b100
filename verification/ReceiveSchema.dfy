/**
 The constraints that the receive tables declare, and how the column codecs meet them.

 Lengths and alphabets of identifiers and callsigns are not part of this model.
 */
module ReceiveSchema {
  import opened Numeric
  import opened Audio
  import opened Decodes
  import opened Records
  import opened ReceiveColumns
  import Timeline
  import ReceiveClock

  // ---------------------------------------------------------------------
  // The declared constraints
  // ---------------------------------------------------------------------

  predicate KeyChecks(k: Key) {
    && k.process > 0 && k.stream > 0 && k.slotStartUtc >= 0 && k.slotStartUtc % 15_000 == 0
    && k.platform in ["macos_core_audio", "windows_wasapi", "linux_alsa", "linux_jack"]
    && 8_000 <= k.rate <= 384_000 && 1 <= k.channels <= 32 && 0 <= k.selectedChannel < k.channels
    && (|| k.format in ["signed_8", "signed_16", "signed_24", "signed_32", "signed_64"]
        || k.format in ["unsigned_8", "unsigned_16", "unsigned_24", "unsigned_32", "unsigned_64"]
        || k.format in ["float_32", "float_64"])
  }

  predicate CaptureChecks(c: CaptureColumns) {
    c.position >= 0 && c.utc >= 0 && c.monotonic >= 0 && c.recordedUtc >= 0
  }

  predicate AudioChecks(a: AudioColumns) {
    && 0 <= a.latency <= 60_000 && -100_000 <= a.drift <= 100_000 && a.overflow >= 0 && a.clipped >= 0
    && 0 <= a.maxDelay <= 60_000
  }

  predicate TimelineChecks(t: TimelineColumns) {
    0 <= t.maxJitter <= 4_294_967_295 && -100_000 <= t.drift <= 100_000 && t.incomplete >= 0 && t.late >= 0
  }

  predicate Valued(kind: string) {
    kind in ["utc_jump", "stale_mapping", "sampling_delayed", "sample_gap", "window_misaligned"]
  }

  predicate Unvalued(kind: string) {
    kind in ["process_generation_changed", "timeline_regressed", "arithmetic_overflow"]
  }

  predicate ClockChecks(c: ClockColumns) {
    && 0 <= c.age <= 86_400_000
    && (|| (c.state == "healthy" && c.faultKind.None? && c.faultValue.None? && c.progress == 0 && c.required == 0)
        || (c.state == "unhealthy" && c.faultKind.Some? && 2 <= c.required <= 10 && 0 <= c.progress < c.required))
    && (if c.faultKind.Some? && Valued(c.faultKind.value) then c.faultValue.Some?
        else c.faultValue.None? && (c.faultKind.Some? ==> Unvalued(c.faultKind.value)))
  }

  predicate MessageChecks(m: MessageColumns) {
    && 1 <= |m.text| <= 64 && (m.detail.Some? ==> 1 <= |m.detail.value| <= 128)
    && (|| (m.outcome == "resolved" && m.detail.None? && m.messageClass.Some? && m.sender.Some?)
        || (m.outcome in ["unresolved_hash", "unsupported", "ambiguous"] && m.detail.Some? && m.messageClass.None?
            && m.sender.None? && m.recipient.None?)
        || (m.outcome == "free_text" && m.detail.None? && m.messageClass.None? && m.sender.None? && m.recipient.None?))
    && (m.messageClass.Some? ==>
          && (m.messageClass.value == "general_call" <==> m.recipient.None?)
          && m.messageClass.value in ["general_call", "directed_grid", "signal_report", "roger_signal_report", "roger",
                                      "ending_73", "ending_rr73"])
  }

  predicate DecodeChecks(d: DecodeRow) {
    && 0 <= d.index <= 127 && -60_000 <= d.offset <= 60_000 && 0 <= d.frequency <= 6_000 && -100 <= d.snr <= 100
    && MessageChecks(d.message)
  }

  /** Every declared constraint of the three tables for one window. */
  predicate RowChecks(row: Row) {
    && KeyChecks(row.key) && CaptureChecks(row.capture) && AudioChecks(row.audio) && TimelineChecks(row.timeline)
    && ClockChecks(row.clock)
    && (forall i | 0 <= i < |row.decodes| :: DecodeChecks(row.decodes[i]))
    && (forall i, j | 0 <= i < j < |row.decodes| :: row.decodes[i].index != row.decodes[j].index)
  }

  // ---------------------------------------------------------------------
  // Writing
  // ---------------------------------------------------------------------

  /** No counter or fault value of the record is beyond a signed 64-bit column. */
  predicate Fits(r: Record) {
    var (c, a, t) := (r.context, r.diagnostics.audio, r.diagnostics.timeline);
    var top := 0x7fff_ffff_ffff_ffff;
    && c.process <= top && c.stream <= top && c.mapping.position <= top && c.mapping.monotonic <= top
    && a.overflowCount <= top && a.clippedSamples <= top && t.incompleteSlots <= top && t.lateBatches <= top
    && (r.diagnostics.clock.UnhealthyClock? ==>
          match r.diagnostics.clock.fault
          case UtcJump(x) => -top - 1 <= x <= top
          case WindowMisaligned(x) => -top - 1 <= x <= top
          case StaleMapping(x) => x <= top
          case SamplingDelayed(x) => x <= top
          case SampleGap(x) => x <= top
          case _ => true)
  }

  /** The numeric columns are the record's fields. */
  predicate Columns(r: Record, row: Row) {
    var (c, a, t) := (r.context, r.diagnostics.audio, r.diagnostics.timeline);
    && row.id == c.id && row.key.service == c.service && row.key.process == c.process && row.key.stream == c.stream
    && row.key.slotStartUtc == c.slotStartUtc && row.key.opaqueId == c.device.opaqueId
    && row.key.rate == c.configuration.rate && row.key.channels == c.configuration.channels
    && row.key.selectedChannel == c.configuration.selectedChannel
    && row.capture.position == c.mapping.position && row.capture.utc == c.mapping.utc
    && row.capture.monotonic == c.mapping.monotonic && row.capture.recordedUtc == r.recordedUtc
    && row.audio.latency == a.latencyMillis && row.audio.drift == a.driftPpm && row.audio.overflow == a.overflowCount
    && row.audio.clipped == a.clippedSamples && row.audio.maxDelay == a.maxDelayMillis
    && row.timeline.maxJitter == t.maxJitterMillis && row.timeline.drift == t.driftPpm
    && row.timeline.incomplete == t.incompleteSlots && row.timeline.late == t.lateBatches
    && row.clock.age == r.diagnostics.clock.age
    && (row.clock.state == "healthy" <==> r.diagnostics.clock.HealthyClock?)
    && |row.decodes| == |r.decodes|
    && forall i | 0 <= i < |r.decodes| ::
         var (d, w) := (r.decodes[i], row.decodes[i]);
         && w.index == i && w.offset == d.offsetMillis && w.frequency == d.frequencyHz && w.snr == d.snrDb
         && w.message.text == d.message.text && (w.message.outcome == "resolved" <==> d.message.Resolved?)
         && (w.message.outcome == "free_text" <==> d.message.FreeText?)
  }

  lemma ClockWritten(c: ClockHealth)
    requires c.Valid()
    ensures WriteClock(c).Some? <==> (c.UnhealthyClock? ==> FaultColumns(c.fault).Some?)
    ensures WriteClock(c).Some? ==>
              ClockChecks(WriteClock(c).value) && WriteClock(c).value.age == c.age
              && (WriteClock(c).value.state == "healthy" <==> c.HealthyClock?)
  {
    assert "healthy" != "unhealthy" by { assert "healthy"[0] != "unhealthy"[0]; }
  }

  lemma MessageWritten(m: Message)
    requires m.Valid()
    ensures MessageChecks(WriteMessage(m)) && WriteMessage(m).text == m.text
    ensures (WriteMessage(m).outcome == "resolved" <==> m.Resolved?) && (WriteMessage(m).outcome == "free_text" <==> m.FreeText?)
  {
    assert "resolved"[0] == 'r' && "unresolved_hash"[0] == 'u' && "unsupported"[0] == 'u' && "ambiguous"[0] == 'a';
    assert "free_text"[0] == 'f';
    if m.Resolved? { ClassWritten(m.messageClass); }
    hide ClassText, ValidText;
  }

  lemma ClassWritten(c: MessageClass)
    ensures ClassText(c) in ["general_call", "directed_grid", "signal_report", "roger_signal_report", "roger", "ending_73", "ending_rr73"]
    ensures ClassText(c) == "general_call" <==> c == GeneralCall
  {
    assert "general_call"[0] == 'g' && "directed_grid"[0] == 'd' && "signal_report"[0] == 's' && "roger"[0] == 'r';
    assert "roger_signal_report"[0] == 'r' && "ending_73"[0] == 'e' && "ending_rr73"[0] == 'e';
  }

  lemma DecodesWritten(r: Record)
    requires WellFormed(r) && Typed(r)
    ensures var rows := WriteDecodes(r.decodes);
            && |rows| == |r.decodes|
            && forall i | 0 <= i < |rows| ::
                 && DecodeChecks(rows[i]) && rows[i].index == i && rows[i].message.text == r.decodes[i].message.text
                 && rows[i].offset == r.decodes[i].offsetMillis && rows[i].frequency == r.decodes[i].frequencyHz
                 && rows[i].snr == r.decodes[i].snrDb
                 && (rows[i].message.outcome == "resolved" <==> r.decodes[i].message.Resolved?)
                 && (rows[i].message.outcome == "free_text" <==> r.decodes[i].message.FreeText?)
  {
    forall i | 0 <= i < |r.decodes|
      ensures MessageChecks(WriteMessage(r.decodes[i].message)) && StorableMetadata(r.decodes[i])
      ensures WriteMessage(r.decodes[i].message).text == r.decodes[i].message.text
      ensures WriteMessage(r.decodes[i].message).outcome == "resolved" <==> r.decodes[i].message.Resolved?
      ensures WriteMessage(r.decodes[i].message).outcome == "free_text" <==> r.decodes[i].message.FreeText?
    {
      assert r.decodes[i] in r.decodes;
      MessageWritten(r.decodes[i].message);
      hide MessageChecks, WriteMessage;
    }
    hide MessageChecks, WriteMessage, Sorted;
  }

  lemma KeyWritten(c: WindowContext)
    requires WriteKey(c).Some? && c.slotStartUtc >= 0 && c.slotStartUtc % SLOT_MILLIS == 0
    ensures KeyChecks(WriteKey(c).value)
  {
  }

  /** A storable record is written exactly when it fits; its columns are its fields and pass every constraint. */
  lemma WriteVerdict(r: Record)
    requires WellFormed(r) && Typed(r)
    ensures Write(r).Some? <==> Fits(r)
    ensures Write(r).Some? ==> Columns(r, Write(r).value) && RowChecks(Write(r).value)
  {
    hide WellFormed, Typed, RowChecks, Columns, Fits;
    WrittenIffFits(r);
    if Write(r).Some? {
      ColumnsWritten(r);
      ChecksWritten(r);
    }
  }

  lemma WrittenIffFits(r: Record)
    requires WellFormed(r) && Typed(r)
    ensures Write(r).Some? <==> Fits(r)
  {
    ClockWritten(r.diagnostics.clock);
    hide ClockChecks, WriteClock, Sorted, PlatformText, FormatText, WriteDecodes;
  }

  lemma ColumnsWritten(r: Record)
    requires WellFormed(r) && Typed(r) && Write(r).Some?
    ensures Columns(r, Write(r).value)
  {
    ClockWritten(r.diagnostics.clock);
    DecodesWritten(r);
    hide ClockChecks, WriteClock, NewRecord, PlatformText, FormatText, WriteDecodes, DecodeChecks, FaultColumns;
  }

  lemma ChecksWritten(r: Record)
    requires WellFormed(r) && Typed(r) && Write(r).Some?
    ensures RowChecks(Write(r).value)
  {
    ClockWritten(r.diagnostics.clock);
    DecodesWritten(r);
    KeyWritten(r.context);
    hide ClockChecks, WriteClock, Sorted, WriteKey, WriteDecodes, DecodeChecks, KeyChecks, FaultColumns;
  }

  /** The names that the columns use. */
  lemma DeviceNames()
    ensures PlatformText(MacOsCoreAudio) == "macos_core_audio" && PlatformText(WindowsWasapi) == "windows_wasapi"
    ensures PlatformText(LinuxAlsa) == "linux_alsa" && PlatformText(LinuxJack) == "linux_jack"
    ensures FormatText(Signed8) == "signed_8" && FormatText(Signed16) == "signed_16" && FormatText(Signed24) == "signed_24"
    ensures FormatText(Signed32) == "signed_32" && FormatText(Signed64) == "signed_64" && FormatText(Float32) == "float_32"
    ensures FormatText(Unsigned8) == "unsigned_8" && FormatText(Unsigned16) == "unsigned_16"
    ensures FormatText(Unsigned24) == "unsigned_24" && FormatText(Unsigned32) == "unsigned_32"
    ensures FormatText(Unsigned64) == "unsigned_64" && FormatText(Float64) == "float_64"
  {
  }

  lemma MessageNames(text: string, detail: string)
    ensures ClassText(GeneralCall) == "general_call" && ClassText(DirectedGrid) == "directed_grid"
    ensures ClassText(SignalReport) == "signal_report" && ClassText(RogerSignalReport) == "roger_signal_report"
    ensures ClassText(Roger) == "roger" && ClassText(Ending73) == "ending_73" && ClassText(EndingRr73) == "ending_rr73"
    ensures WriteMessage(UnresolvedHash(text, detail)).outcome == "unresolved_hash"
    ensures WriteMessage(Unsupported(text, detail)).outcome == "unsupported"
    ensures WriteMessage(Ambiguous(text, detail)).outcome == "ambiguous"
  {
  }

  lemma FaultNames(x: i64, n: i64)
    requires n >= 0
    ensures FaultColumns(ReceiveClock.ProcessGenerationChanged) == Some(("process_generation_changed", None))
    ensures FaultColumns(ReceiveClock.TimelineRegressed) == Some(("timeline_regressed", None))
    ensures FaultColumns(ReceiveClock.ClockOverflow) == Some(("arithmetic_overflow", None))
    ensures FaultColumns(ReceiveClock.UtcJump(x)) == Some(("utc_jump", Some(x)))
    ensures FaultColumns(ReceiveClock.WindowMisaligned(x)) == Some(("window_misaligned", Some(x)))
    ensures FaultColumns(ReceiveClock.StaleMapping(n)) == Some(("stale_mapping", Some(n)))
    ensures FaultColumns(ReceiveClock.SamplingDelayed(n)) == Some(("sampling_delayed", Some(n)))
    ensures FaultColumns(ReceiveClock.SampleGap(n)) == Some(("sample_gap", Some(n)))
  {
  }

  // ---------------------------------------------------------------------
  // Reading
  // ---------------------------------------------------------------------

  lemma PlatformRead(s: string)
    ensures ParsePlatform(s).Some? ==> PlatformText(ParsePlatform(s).value) == s
    ensures s in ["macos_core_audio", "windows_wasapi", "linux_alsa", "linux_jack"] ==> ParsePlatform(s).Some?
  {
  }

  lemma FormatRead(s: string)
    ensures ParseFormat(s).Some? ==> FormatText(ParseFormat(s).value) == s
    ensures s in ["signed_8", "signed_16", "signed_24", "signed_32", "signed_64"] ==> ParseFormat(s).Some?
    ensures s in ["unsigned_8", "unsigned_16", "unsigned_24", "unsigned_32", "unsigned_64"] ==> ParseFormat(s).Some?
    ensures s in ["float_32", "float_64"] ==> ParseFormat(s).Some?
  {
  }

  lemma ClassRead(s: string)
    ensures ParseClass(s).Some? ==> ClassText(ParseClass(s).value) == s
    ensures s in ["general_call", "directed_grid", "signal_report", "roger_signal_report", "roger", "ending_73", "ending_rr73"] ==>
              ParseClass(s).Some?
  {
  }

  lemma FaultRead(kind: string, value: Option<i64>)
    ensures ParseFault(kind, value).Some? <==>
              || (Unvalued(kind) && value.None?)
              || (Valued(kind) && value.Some?
                  && (kind in ["stale_mapping", "sampling_delayed", "sample_gap"] ==> value.value >= 0))
    ensures ParseFault(kind, value).Some? ==> FaultColumns(ParseFault(kind, value).value) == Some((kind, value))
  {
  }

  /** A fault value that must not be negative. */
  predicate Counts(c: ClockColumns) {
    c.faultKind.Some? && c.faultKind.value in ["stale_mapping", "sampling_delayed", "sample_gap"] ==>
      c.faultValue.Some? && c.faultValue.value >= 0
  }

  lemma ClockRead(c: ClockColumns)
    requires ClockChecks(c)
    ensures ReadClock(c).Some? <==> Counts(c)
    ensures ReadClock(c).Some? ==> WriteClock(ReadClock(c).value) == Some(c)
    ensures ReadClock(c).Some? ==> (ReadClock(c).value.HealthyClock? <==> c.state == "healthy")
  {
    assert "healthy" != "unhealthy" by { assert "healthy"[0] != "unhealthy"[0]; }
    if c.faultKind.Some? { FaultRead(c.faultKind.value, c.faultValue); }
    hide ParseFault, FaultColumns, Valued, Unvalued;
  }

  /** Printable characters only. */
  predicate Printable(s: string) { forall c | c in s :: 0x20 <= c as int <= 0x7e }

  predicate PrintableMessage(m: MessageColumns) {
    Printable(m.text) && (m.detail.Some? ==> Printable(m.detail.value))
  }

  lemma MessageRead(m: MessageColumns)
    requires MessageChecks(m)
    ensures ReadMessage(m).Some? <==> PrintableMessage(m)
    ensures ReadMessage(m).Some? ==> ReadMessage(m).value.Valid() && WriteMessage(ReadMessage(m).value) == m
  {
    assert "resolved"[0] == 'r' && "unresolved_hash"[0] == 'u' && "unsupported"[0] == 'u' && "ambiguous"[0] == 'a';
    assert "free_text"[0] == 'f' && |"unresolved_hash"| != |"unsupported"|;
    if m.messageClass.Some? {
      ClassRead(m.messageClass.value);
      ClassWritten(ParseClass(m.messageClass.value).value);
    }
    hide ParseClass, ClassText;
  }

  /** Rows that read are contiguous and printable, and are what their decodes are written as. */
  lemma {:induction false} RowsRead(rows: seq<DecodeRow>)
    requires forall i | 0 <= i < |rows| :: DecodeChecks(rows[i])
    ensures ReadRows(rows).Some? <==> forall i | 0 <= i < |rows| :: rows[i].index == i && PrintableMessage(rows[i].message)
    ensures ReadRows(rows).Some? ==>
              var s := ReadRows(rows).value;
              && |s| == |rows| && WriteDecodes(s) == rows
              && (forall i | 0 <= i < |s| :: s[i].message.Valid() && StorableMetadata(s[i]))
  {
    if rows != [] {
      var n := |rows| - 1;
      RowsRead(rows[..n]);
      MessageRead(rows[n].message);
      hide ReadMessage, WriteMessage, MessageChecks, PrintableMessage, Message.Valid;
      if ReadRows(rows).Some? {
        var before := ReadRows(rows[..n]).value;
        var last := Decode(rows[n].offset, rows[n].frequency, rows[n].snr, ReadMessage(rows[n].message).value);
        assert ReadRows(rows).value == before + [last];
        hide ReadRows;
        WriteSnoc(before, last);
        assert rows == rows[..n] + [rows[n]];
      }
    }
  }

  lemma WriteSnoc(s: seq<Decode>, d: Decode)
    ensures WriteDecodes(s + [d]) == WriteDecodes(s) + [WriteDecode(d, |s|)]
  {
    hide WriteDecode;
  }

  /** A row that passes the constraints reads exactly when its mapping lies on the slot, its decodes are contiguous,
      printable and in order, its fault counts are not negative and an unhealthy clock comes without decodes. */
  predicate Readable(row: Row) {
    && row.capture.utc == row.key.slotStartUtc && Counts(row.clock)
    && (forall i | 0 <= i < |row.decodes| :: row.decodes[i].index == i && PrintableMessage(row.decodes[i].message))
    && ReadRows(row.decodes).Some? && Sorted(ReadRows(row.decodes).value) == ReadRows(row.decodes).value
    && (row.clock.state == "unhealthy" ==> row.decodes == [])
  }

  lemma ContextRead(row: Row)
    requires KeyChecks(row.key) && CaptureChecks(row.capture)
    ensures var c := ReadContext(row.id, row.key, row.capture);
            && c.Some? && c.value.id == row.id && WriteKey(c.value) == Some(row.key)
            && WriteCapture(c.value.mapping, row.capture.recordedUtc) == Some(row.capture)
            && c.value.slotStartUtc == row.key.slotStartUtc && c.value.mapping.utc == row.capture.utc
  {
    PlatformRead(row.key.platform);
    FormatRead(row.key.format);
    hide ParsePlatform, PlatformText, ParseFormat, FormatText;
  }

  lemma HealthRead(row: Row)
    requires AudioChecks(row.audio) && TimelineChecks(row.timeline)
    ensures ReadAudio(row.audio).Some? && WriteAudio(ReadAudio(row.audio).value) == Some(row.audio)
    ensures ReadTimeline(row.timeline).Some? && WriteTimeline(ReadTimeline(row.timeline).value) == Some(row.timeline)
    ensures Abs(ReadTimeline(row.timeline).value.driftPpm) <= 100_000
  {
  }

  /** Contiguous indices bound the number of decodes. */
  lemma FewRows(rows: seq<DecodeRow>)
    requires forall i | 0 <= i < |rows| :: DecodeChecks(rows[i]) && rows[i].index == i
    ensures |rows| <= 128
  {
    hide MessageChecks;
    if rows != [] {
      assert DecodeChecks(rows[|rows| - 1]);
    }
  }

  /** The constructor's last word on what was read. */
  lemma Rebuilt(context: WindowContext, diagnostics: Diagnostics, decodes: seq<Decode>, recordedUtc: i64)
    requires recordedUtc >= 0 && |decodes| <= 128 && Abs(diagnostics.timeline.driftPpm) <= 100_000 && diagnostics.clock.Valid()
    requires (forall d | d in decodes :: StorableMetadata(d)) && Sorted(decodes) == decodes
    ensures var r := NewRecord(context, diagnostics, decodes, recordedUtc);
            && (r.Ok? <==> context.mapping.utc == context.slotStartUtc && (diagnostics.clock.UnhealthyClock? ==> decodes == []))
            && (r.Ok? ==> r.value == Record(context, diagnostics, decodes, recordedUtc) && WellFormed(r.value))
  {
    if NewRecord(context, diagnostics, decodes, recordedUtc).Ok? {
      ConstructedWellFormed(context, diagnostics, decodes, recordedUtc);
    }
    hide Sorted, StorableMetadata, ClockHealth.Valid;
  }

  lemma ReadVerdict(row: Row)
    requires RowChecks(row)
    ensures Read(row).Some? <==> Readable(row)
    ensures Read(row).Some? ==>
              var r := Read(row).value;
              && WellFormed(r) && Typed(r) && Write(r) == Some(row)
  {
    hide Read, Write, RowChecks, Readable, WellFormed, Typed;
    ReadParts(row);
    if Read(row).Some? {
      WriteParts(row);
    }
  }

  lemma WriteParts(row: Row)
    requires RowChecks(row) && Read(row).Some?
    requires var r := Read(row).value;
             && Some(r.context) == ReadContext(row.id, row.key, row.capture) && r.recordedUtc == row.capture.recordedUtc
             && Some(r.diagnostics.audio) == ReadAudio(row.audio) && Some(r.diagnostics.timeline) == ReadTimeline(row.timeline)
             && Some(r.diagnostics.clock) == ReadClock(row.clock) && Some(r.decodes) == ReadRows(row.decodes)
    ensures Typed(Read(row).value) && Write(Read(row).value) == Some(row)
  {
    ContextRead(row);
    HealthRead(row);
    ClockRead(row.clock);
    RowsRead(row.decodes);
    hide Read, AudioChecks, TimelineChecks, DecodeChecks, ReadContext, ReadAudio, ReadTimeline, ReadClock, WriteClock,
         WriteKey, WriteCapture, WriteAudio, WriteTimeline, ReadRows, WriteDecodes, Sorted, Counts, PrintableMessage,
         Message.Valid, WellFormed, StorableMetadata;
  }

  lemma ReadParts(row: Row)
    requires RowChecks(row)
    ensures Read(row).Some? <==> Readable(row)
    ensures Read(row).Some? ==>
              var r := Read(row).value;
              && WellFormed(r)
              && Some(r.context) == ReadContext(row.id, row.key, row.capture) && r.recordedUtc == row.capture.recordedUtc
              && Some(r.diagnostics.audio) == ReadAudio(row.audio) && Some(r.diagnostics.timeline) == ReadTimeline(row.timeline)
              && Some(r.diagnostics.clock) == ReadClock(row.clock) && Some(r.decodes) == ReadRows(row.decodes)
  {
    ContextRead(row);
    HealthRead(row);
    ClockRead(row.clock);
    RowsRead(row.decodes);
    hide KeyChecks, AudioChecks, TimelineChecks, DecodeChecks, ReadContext, ReadAudio, ReadTimeline, ReadClock, WriteClock,
         WriteKey, WriteCapture, WriteAudio, WriteTimeline, ReadRows, WriteDecodes, Sorted, Counts, PrintableMessage,
         Message.Valid, NewRecord, WellFormed, StorableMetadata;
    if ReadRows(row.decodes).Some? && ReadClock(row.clock).Some? {
      var decodes := ReadRows(row.decodes).value;
      var clock := ReadClock(row.clock).value;
      FewRows(row.decodes);
      if Sorted(decodes) == decodes {
        assert clock.Valid() by { ReadClockValid(row.clock); }
        Rebuilt(ReadContext(row.id, row.key, row.capture).value,
                Diagnostics(ReadAudio(row.audio).value, ReadTimeline(row.timeline).value, clock), decodes, row.capture.recordedUtc);
      }
    }
  }

  lemma ReadClockValid(c: ClockColumns)
    requires ReadClock(c).Some?
    ensures ReadClock(c).value.Valid()
  {
    hide ParseFault;
  }
}
