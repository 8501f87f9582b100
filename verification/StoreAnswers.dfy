/**
 What recording answers, in terms of the records that are stored.
 */
module StoreAnswers {
  import opened Numeric
  import opened Audio
  import opened Decodes
  import opened Records
  import opened ReceiveColumns
  import opened ReceiveSchema
  import opened ReceiveStore
  import Timeline

  // ---------------------------------------------------------------------
  // The record constructor
  // ---------------------------------------------------------------------

  /** The constructor's checks in their order. */
  lemma ConstructorVerdict(context: WindowContext, diagnostics: Diagnostics, decodes: seq<Decode>, recordedUtc: i64)
    ensures var (r, clock) := (NewRecord(context, diagnostics, decodes, recordedUtc), diagnostics.clock);
            if context.mapping.utc != context.slotStartUtc then r == Err(MappingOffSlot)
            else if recordedUtc < 0 then r == Err(NegativeTime)
            else if |decodes| > 128 then r == Err(TooManyDecodes)
            else if diagnostics.timeline.driftPpm < -100_000 || diagnostics.timeline.driftPpm > 100_000 then r == Err(DriftOutOfRange)
            else if clock.age > 86_400_000
                    || (clock.UnhealthyClock? && (clock.required < 2 || clock.required > 10 || clock.progress >= clock.required))
            then r == Err(InvalidClock)
            else if exists d :: d in decodes && (Abs(d.offsetMillis) > 60_000 || d.frequencyHz > 6_000 || Abs(d.snrDb) > 100)
            then r == Err(InvalidMetadata)
            else if clock.UnhealthyClock? && decodes != [] then r == Err(UnhealthyDecodes)
            else
              && r.Ok? && r.value.context == context && r.value.diagnostics == diagnostics && r.value.recordedUtc == recordedUtc
              && multiset(r.value.decodes) == multiset(decodes) && InOrder(r.value.decodes)
  {
    SortVerdict(decodes);
    hide Sorted, InOrder;
  }

  // ---------------------------------------------------------------------
  // Recording
  // ---------------------------------------------------------------------

  /** The same slot of the same stream of the same process, heard with the same device and settings. */
  predicate SameKey(a: WindowContext, b: WindowContext) {
    && a.service == b.service && a.process == b.process && a.stream == b.stream && a.slotStartUtc == b.slotStartUtc
    && a.device == b.device && a.configuration == b.configuration
  }

  /** The two records share an identity. */
  predicate SameIdentity(a: Record, b: Record) { a.context.id == b.context.id || SameKey(a.context, b.context) }

  lemma KeyVerdict(a: WindowContext, b: WindowContext)
    requires WriteKey(a).Some? && WriteKey(b).Some?
    ensures WriteKey(a) == WriteKey(b) <==> SameKey(a, b)
  {
    PlatformRoundTrip(a.device.platform);
    PlatformRoundTrip(b.device.platform);
    FormatRoundTrip(a.configuration.format);
    FormatRoundTrip(b.configuration.format);
    hide PlatformText, ParsePlatform, FormatText, ParseFormat;
  }

  /** A stored row matches a record exactly when its record shares an identity. */
  lemma MatchVerdict(db: Database, r: Record, q: Record, s: nat)
    requires Valid(db) && Stored(db, q, s) && WriteKey(r.context).Some?
    ensures Matches(db.windows[s], r) <==> SameIdentity(q, r)
  {
    WrittenMatches(db.windows[s], q);
    KeyVerdict(q.context, r.context);
    hide Read, WriteKey, Written, SameKey;
  }

  lemma ClashVerdict(db: Database, r: Record)
    requires Valid(db) && WriteKey(r.context).Some?
    ensures Clashes(db, r) <==> exists s, q :: Stored(db, q, s) && SameIdentity(q, r)
  {
    if Clashes(db, r) {
      var s :| s in db.windows && Matches(db.windows[s], r);
      assert Written(db.windows[s]) by { hide Read, Write, Storable; }
      var q := Read(db.windows[s]).value;
      assert Stored(db, q, s);
      MatchVerdict(db, r, q, s);
    }
    if s, q :| Stored(db, q, s) && SameIdentity(q, r) {
      MatchVerdict(db, r, q, s);
    }
    hide Read, Write, WriteKey, Matches, Written;
  }

  /** Every answer of recording: the stored record's own number, a collision with another one, a refusal of numbers
      beyond the columns or the table, or a new row beside all others. */
  lemma RecordedVerdict(db: Database, r: Record)
    requires Valid(db) && ReceiveStore.Storable(r)
    ensures var (after, out) := Recorded(db, r);
            if r.context.process > 0x7fff_ffff_ffff_ffff || r.context.stream > 0x7fff_ffff_ffff_ffff then
              after == db && out == Err(InvalidSequence)
            else if exists s :: Stored(db, r, s) then
              after == db && out.Ok? && out.value.Existing? && Stored(db, r, out.value.sequence)
            else if exists s, q :: Stored(db, q, s) && SameIdentity(q, r) then after == db && out == Err(IdentityCollision)
            else if !Fits(r) then after == db && out == Err(InvalidSequence)
            else if db.nextWindow >= 0x8000_0000_0000_0000 then after == db && out == Err(DatabaseFull)
            else
              && out == Ok(Inserted(db.nextWindow)) && after.nextWindow == db.nextWindow + 1 && after.events == db.events
              && (forall s, q :: Stored(after, q, s) <==> Stored(db, q, s) || (s == db.nextWindow && q == r))
  {
    hide Valid, Storable, Fits, Columns, RowChecks, Read, Write, WriteKey, Stored, Clashes, SameIdentity;
    KeyFits(r);
    WrittenWhole(r);
    if WriteKey(r.context).Some? {
      ClashVerdict(db, r);
      NoMatchDecides(db, r);
      if Write(r).Some? && !Clashes(db, r) {
        InsertedAlone(db, r);
      }
    }
  }

  lemma KeyFits(r: Record)
    requires ReceiveStore.Storable(r)
    ensures WriteKey(r.context).None? <==> r.context.process > 0x7fff_ffff_ffff_ffff || r.context.stream > 0x7fff_ffff_ffff_ffff
  {
    hide WellFormed, PlatformText, FormatText;
  }

  lemma WrittenWhole(r: Record)
    requires ReceiveStore.Storable(r)
    ensures Write(r).Some? <==> Fits(r)
  {
    WriteVerdict(r);
    hide Write, Fits, Columns, RowChecks;
  }

  lemma InsertedAlone(db: Database, r: Record)
    requires Valid(db) && ReceiveStore.Storable(r) && Write(r).Some? && !Clashes(db, r)
    ensures var after := Inserting(db, Write(r).value);
            forall s, q :: Stored(after, q, s) <==> Stored(db, q, s) || (s == db.nextWindow && q == r)
  {
    WrittenRow(r);
    var after := Inserting(db, Write(r).value);
    assert db.nextWindow !in db.windows;
    hide Read, Write, Storable, Written, Matches, WindowsValid, EventsValid, Clashes;
    forall s, q
      ensures Stored(after, q, s) <==> Stored(db, q, s) || (s == db.nextWindow && q == r)
    {
    }
  }

  /** Every answer of a commit: whatever refuses record or event leaves everything as it was. */
  lemma CommittedVerdict(db: Database, r: Record, e: EventRequest)
    requires Valid(db) && ReceiveStore.Storable(r)
    ensures var ((after, c), (recorded, out)) := (Committed(db, r, e), Recorded(db, r));
            if out.Err? then after == db && c == Err(out.error)
            else if e.build(out.value.sequence).None? then after == db && c == Err(EventBuildFailed)
            else
              var row := EventRow(e.eventId, r.context.service, e.build(out.value.sequence).value, e.occurredUtc);
              if exists s :: s in db.events && db.events[s].eventId == e.eventId then
                if exists s :: s in db.events && db.events[s] == row
                then after == recorded && c.Ok? && c.value.receive == out.value
                     && c.value.eventSequence in db.events && db.events[c.value.eventSequence] == row
                else after == db && c == Err(IdentityCollision)
              else if e.occurredUtc < 0 then after == db && c == Err(InvalidTime)
              else if db.nextEvent >= 0x8000_0000_0000_0000 then after == db && c == Err(DatabaseFull)
              else
                && c == Ok(Commit(out.value, db.nextEvent)) && after.windows == recorded.windows
                && after.events == db.events[db.nextEvent := row] && db.nextEvent !in db.events
                && after.nextEvent == db.nextEvent + 1
  {
    RecordedKeepsEvents(db, r);
    assert EventsValid(db.events, db.nextEvent);
    hide Recorded, WindowsValid, Storable;
    if s :| s in db.events && db.events[s].eventId == e.eventId {
      assert EventAt(db, e.eventId, s);
      OneEvent(db, e.eventId, s);
    } else {
      assert forall s :: !EventAt(db, e.eventId, s);
    }
  }

  /** Pruning removes exactly the older windows; events and numbering stay. */
  lemma PrunedVerdict(db: Database, first: nat)
    ensures var after := db.(windows := Pruned(db.windows, first));
            && (forall s: nat, q :: Stored(after, q, s) <==> Stored(db, q, s) && s >= first)
            && |db.windows.Keys - after.windows.Keys| == |db.windows| - |after.windows|
  {
    var kept := Pruned(db.windows, first);
    hide Read, Pruned;
    assert kept.Keys <= db.windows.Keys;
    assert db.windows.Keys == kept.Keys + (db.windows.Keys - kept.Keys);
  }
}
