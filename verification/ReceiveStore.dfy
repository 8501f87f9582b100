/**
 The receive store: idempotent recording by two unique identities, and records coupled with events.

 A table is a map from sequence numbers, which are assigned once and never reused; a transaction either
 applies all of its changes or none.
 */
module ReceiveStore {
  import opened Numeric
  import opened Audio
  import opened Records
  import opened ReceiveColumns

  datatype EventRow = EventRow(eventId: string, service: string, json: string, occurredUtc: i64)

  datatype Database = Database(
    windows: map<nat, Row>, nextWindow: nat, events: map<nat, EventRow>, nextEvent: nat)

  datatype StoreError =
    | InvalidSequence | InvalidPersistedValue | IdentityCollision | InvalidTime | DatabaseFull | EventBuildFailed

  datatype Insert = Inserted(sequence: nat) | Existing(sequence: nat)

  datatype Commit = Commit(receive: Insert, eventSequence: nat)

  /** A record that its constructor and its field types allow. */
  predicate Storable(r: Record) { WellFormed(r) && Typed(r) }

  /** A row written from a storable record. */
  predicate Written(row: Row) {
    var r := Read(row);
    r.Some? && Storable(r.value) && Write(r.value) == Some(row)
  }

  predicate UniqueKeys(windows: map<nat, Row>) {
    forall a, b | a in windows && b in windows && (windows[a].id == windows[b].id || windows[a].key == windows[b].key) ::
      a == b
  }

  predicate UniqueEvents(events: map<nat, EventRow>) {
    forall a, b | a in events && b in events && events[a].eventId == events[b].eventId :: a == b
  }

  predicate WindowsValid(windows: map<nat, Row>, next: nat) {
    (forall s | s in windows :: s < next && Written(windows[s])) && UniqueKeys(windows)
  }

  predicate EventsValid(events: map<nat, EventRow>, next: nat) {
    (forall s | s in events :: s < next) && UniqueEvents(events)
  }

  predicate Valid(db: Database) {
    WindowsValid(db.windows, db.nextWindow) && EventsValid(db.events, db.nextEvent)
  }

  /** The row shares the record's identifier or its natural key. */
  predicate Matches(row: Row, r: Record) {
    row.id == r.context.id || Some(row.key) == WriteKey(r.context)
  }

  predicate Stored(db: Database, r: Record, s: nat) { s in db.windows && Read(db.windows[s]) == Some(r) }

  ghost predicate Clashes(db: Database, r: Record) { exists s | s in db.windows :: Matches(db.windows[s], r) }

  /** What recording means, without naming the row that a lookup happens to return. */
  ghost function Recorded(db: Database, r: Record): (Database, Result<Insert, StoreError>) {
    if WriteKey(r.context).None? then (db, Err(InvalidSequence))
    else if exists s :: Stored(db, r, s) then
      var s :| Stored(db, r, s);
      (db, Ok(Existing(s)))
    else if Clashes(db, r) then (db, Err(IdentityCollision))
    else if Write(r).None? then (db, Err(InvalidSequence))
    else if db.nextWindow > I64_MAX then (db, Err(DatabaseFull))
    else (db.(windows := db.windows[db.nextWindow := Write(r).value], nextWindow := db.nextWindow + 1),
          Ok(Inserted(db.nextWindow)))
  }

  /** A stored record is the only row that can match it. */
  lemma StoredMatch(db: Database, r: Record, s: nat, pick: nat)
    requires Valid(db) && WriteKey(r.context).Some? && Stored(db, r, s)
    requires pick in db.windows && Matches(db.windows[pick], r)
    ensures pick == s
  {
    hide Read;
    WrittenMatches(db.windows[s], r);
  }

  lemma WrittenMatches(row: Row, r: Record)
    requires Written(row) && Read(row) == Some(r)
    ensures row.id == r.context.id && Some(row.key) == WriteKey(r.context)
  {
    hide Read;
  }

  lemma StoredClashes(db: Database, r: Record, s: nat)
    requires Valid(db) && Stored(db, r, s)
    ensures Matches(db.windows[s], r) && Clashes(db, r)
  {
    hide Read;
    WrittenMatches(db.windows[s], r);
  }

  /** Whichever matching row the lookup returns, comparing it with the record decides correctly. */
  lemma AnyMatchDecides(db: Database, r: Record, pick: nat)
    requires Valid(db) && WriteKey(r.context).Some?
    requires pick in db.windows && Matches(db.windows[pick], r)
    ensures Recorded(db, r)
         == (db, if Read(db.windows[pick]) == Some(r) then Ok(Existing(pick)) else Err(IdentityCollision))
    ensures Read(db.windows[pick]).Some?
  {
    hide Read, Write, Storable;
    if exists s :: Stored(db, r, s) {
      var s :| Stored(db, r, s);
      forall s | Stored(db, r, s)
        ensures s == pick
      {
        StoredMatch(db, r, s, pick);
      }
    } else {
      assert !Stored(db, r, pick);
    }
  }

  function Inserting(db: Database, row: Row): Database {
    db.(windows := db.windows[db.nextWindow := row], nextWindow := db.nextWindow + 1)
  }

  /** The three ways recording ends. */
  lemma RecordedCases(db: Database, r: Record)
    ensures var (after, out) := Recorded(db, r);
            && (out.Err? ==> after == db)
            && (out.Ok? && out.value.Existing? ==> after == db && Stored(db, r, out.value.sequence))
            && (out.Ok? && out.value.Inserted? ==>
                  && out.value.sequence == db.nextWindow && Write(r).Some? && !Clashes(db, r)
                  && after == Inserting(db, Write(r).value))
  {
    hide Read, Write, WriteKey, Matches;
  }

  lemma WrittenRow(r: Record)
    requires Storable(r) && Write(r).Some?
    ensures Written(Write(r).value) && Read(Write(r).value) == Some(r)
    ensures forall row :: Matches(row, r) <==> row.id == Write(r).value.id || row.key == Write(r).value.key
  {
    RecordRoundTrip(r);
    RowKeys(r);
    hide Read, Write, WriteKey, Storable;
  }

  lemma InsertingValid(db: Database, r: Record)
    requires Valid(db) && Storable(r) && Write(r).Some? && !Clashes(db, r)
    ensures Valid(Inserting(db, Write(r).value)) && Stored(Inserting(db, Write(r).value), r, db.nextWindow)
  {
    WrittenRow(r);
    hide Read, Write, WriteKey, Storable, Written, EventsValid;
    NewKeys(db, Write(r).value, r);
    hide UniqueKeys, Matches;
  }

  lemma NewKeys(db: Database, row: Row, r: Record)
    requires WindowsValid(db.windows, db.nextWindow) && !Clashes(db, r)
    requires forall other :: Matches(other, r) <==> other.id == row.id || other.key == row.key
    ensures UniqueKeys(db.windows[db.nextWindow := row])
  {
    hide Matches, Written;
    var after := db.windows[db.nextWindow := row];
    forall a, b | a in after && b in after && (after[a].id == after[b].id || after[a].key == after[b].key)
      ensures a == b
    {
      assert b in db.windows ==> !Matches(db.windows[b], r);
      assert a in db.windows ==> !Matches(db.windows[a], r);
    }
  }

  /** A successful recording stores the record, and recording keeps both identities unique. */
  lemma RecordedValid(db: Database, r: Record)
    requires Valid(db) && Storable(r)
    ensures Valid(Recorded(db, r).0)
    ensures Recorded(db, r).1.Ok? ==> Stored(Recorded(db, r).0, r, Recorded(db, r).1.value.sequence)
  {
    RecordedCases(db, r);
    if Recorded(db, r).1.Ok? && Recorded(db, r).1.value.Inserted? {
      InsertingValid(db, r);
    }
    hide Recorded, Stored, Valid, Write, Inserting;
  }

  lemma RowKeys(r: Record)
    requires Write(r).Some?
    ensures Write(r).value.id == r.context.id && Some(Write(r).value.key) == WriteKey(r.context)
  {
    hide WriteKey;
  }

  /** Later databases keep the rows that have not been pruned. */
  predicate Keeps(db: Database, later: Database, s: nat) {
    s in db.windows && s in later.windows && later.windows[s] == db.windows[s]
  }

  /** Recording a storable record and recording it again, at any later time at which its row is still
      there, returns the original sequence and changes nothing. */
  lemma RetryReturnsOriginal(db: Database, r: Record, later: Database)
    requires Valid(db) && Storable(r) && Recorded(db, r).1.Ok?
    requires Valid(later) && Keeps(Recorded(db, r).0, later, Recorded(db, r).1.value.sequence)
    ensures Recorded(later, r) == (later, Ok(Existing(Recorded(db, r).1.value.sequence)))
  {
    hide Read, Write, Storable, Matches, Written, Recorded;
    RecordedValid(db, r);
    var s := Recorded(db, r).1.value.sequence;
    assert Stored(later, r, s);
    StoredDecides(later, r, s);
  }

  lemma StoredDecides(db: Database, r: Record, s: nat)
    requires Valid(db) && Stored(db, r, s)
    ensures Recorded(db, r) == (db, Ok(Existing(s)))
  {
    WrittenMatches(db.windows[s], r);
    AnyMatchDecides(db, r, s);
    hide Read, Write, Storable, Written, Recorded, Valid;
  }

  /** A record that is not stored but shares either identity with a stored one is refused. */
  lemma OtherRecordCollides(db: Database, r: Record, other: Record, s: nat)
    requires Valid(db) && Stored(db, r, s) && other != r && WriteKey(other.context).Some?
    requires other.context.id == r.context.id || WriteKey(other.context) == WriteKey(r.context)
    ensures Recorded(db, other) == (db, Err(IdentityCollision))
  {
    hide Read, Write, Storable, WriteKey;
    WrittenMatches(db.windows[s], r);
    AnyMatchDecides(db, other, s);
  }

  // ---------------------------------------------------------------------
  // Records with events
  // ---------------------------------------------------------------------

  datatype EventRequest = EventRequest(eventId: string, occurredUtc: i64, build: nat -> Option<string>)

  /** One transaction for the record and its event. */
  ghost function Committed(db: Database, r: Record, e: EventRequest): (Database, Result<Commit, StoreError>) {
    var (after, out) := Recorded(db, r);
    if out.Err? then (db, Err(out.error))
    else
      var json := e.build(out.value.sequence);
      if json.None? then (db, Err(EventBuildFailed))
      else
        var row := EventRow(e.eventId, r.context.service, json.value, e.occurredUtc);
        if exists s :: EventAt(db, e.eventId, s) then
          var s :| EventAt(db, e.eventId, s);
          if db.events[s] == row then (after, Ok(Commit(out.value, s))) else (db, Err(IdentityCollision))
        else if e.occurredUtc < 0 then (db, Err(InvalidTime))
        else if db.nextEvent > I64_MAX then (db, Err(DatabaseFull))
        else (after.(events := after.events[db.nextEvent := row], nextEvent := db.nextEvent + 1),
              Ok(Commit(out.value, db.nextEvent)))
  }

  predicate EventAt(db: Database, eventId: string, s: nat) { s in db.events && db.events[s].eventId == eventId }

  /** The record and its event are committed together or not at all. */
  lemma CommitAtomic(db: Database, r: Record, e: EventRequest)
    requires Valid(db) && Storable(r)
    ensures var (after, c) := Committed(db, r, e);
            && Valid(after)
            && (c.Err? ==> after == db)
            && (c.Ok? ==>
                  && Stored(after, r, c.value.receive.sequence)
                  && EventAt(after, e.eventId, c.value.eventSequence)
                  && Some(after.events[c.value.eventSequence].json) == e.build(c.value.receive.sequence))
  {
    hide Recorded, Storable, Read, Write, WindowsValid;
    RecordedValid(db, r);
    RecordedKeepsEvents(db, r);
    if !exists s :: EventAt(db, e.eventId, s) {
      NewEvent(db, e.eventId);
    }
  }

  lemma NewEvent(db: Database, eventId: string)
    requires EventsValid(db.events, db.nextEvent) && !exists s :: EventAt(db, eventId, s)
    ensures forall row: EventRow | row.eventId == eventId ::
              EventsValid(db.events[db.nextEvent := row], db.nextEvent + 1)
  {
    forall row: EventRow | row.eventId == eventId
      ensures EventsValid(db.events[db.nextEvent := row], db.nextEvent + 1)
    {
      var after := db.events[db.nextEvent := row];
      forall a, b | a in after && b in after && after[a].eventId == after[b].eventId
        ensures a == b
      {
        assert !EventAt(db, eventId, a) && !EventAt(db, eventId, b);
      }
    }
  }

  lemma RecordedKeepsEvents(db: Database, r: Record)
    ensures Recorded(db, r).0.events == db.events && Recorded(db, r).0.nextEvent == db.nextEvent
  {
    hide Read, Write, WriteKey, Matches;
  }

  /** The stored event of a commit is exactly the one asked for. */
  lemma CommittedEvent(db: Database, r: Record, e: EventRequest)
    requires Valid(db) && Storable(r) && Committed(db, r, e).1.Ok?
    ensures var (after, c) := Committed(db, r, e);
            && e.build(c.value.receive.sequence).Some?
            && EventAt(after, e.eventId, c.value.eventSequence)
            && after.events[c.value.eventSequence]
               == EventRow(e.eventId, r.context.service, e.build(c.value.receive.sequence).value, e.occurredUtc)
  {
    hide Recorded, Storable, WindowsValid, Read, Write, EventsValid;
    RecordedKeepsEvents(db, r);
  }

  /** An exact retry returns the same sequences and changes nothing. */
  lemma CommitRetry(db: Database, r: Record, e: EventRequest)
    requires Valid(db) && Storable(r) && Committed(db, r, e).1.Ok?
    ensures var (after, c) := Committed(db, r, e);
            Committed(after, r, e) == (after, Ok(Commit(Existing(c.value.receive.sequence), c.value.eventSequence)))
  {
    CommitAtomic(db, r, e);
    CommittedEvent(db, r, e);
    var (after, c) := Committed(db, r, e);
    StoredDecides(after, r, c.value.receive.sequence);
    RetryFinds(after, r, e, c.value.receive.sequence, c.value.eventSequence);
  }

  lemma RetryFinds(db: Database, r: Record, e: EventRequest, receive: nat, event: nat)
    requires Valid(db) && Recorded(db, r) == (db, Ok(Existing(receive)))
    requires e.build(receive).Some? && EventAt(db, e.eventId, event)
    requires db.events[event] == EventRow(e.eventId, r.context.service, e.build(receive).value, e.occurredUtc)
    ensures Committed(db, r, e) == (db, Ok(Commit(Existing(receive), event)))
  {
    hide Recorded, Storable, WindowsValid, Read, Write;
    forall s | EventAt(db, e.eventId, s)
      ensures s == event
    {
    }
  }

  function Pruned(windows: map<nat, Row>, first: nat): (kept: map<nat, Row>)
    ensures forall s :: s in kept <==> s in windows && s >= first
    ensures forall s | s in kept :: kept[s] == windows[s]
  {
    map s | s in windows && s >= first :: windows[s]
  }

  lemma PrunedValid(windows: map<nat, Row>, next: nat, first: nat)
    requires WindowsValid(windows, next)
    ensures WindowsValid(Pruned(windows, first), next)
  {
    hide Written, Pruned;
  }

  // ---------------------------------------------------------------------
  // The store object
  // ---------------------------------------------------------------------

  class Store {
    var windows: map<nat, Row>
    var nextWindow: nat
    var events: map<nat, EventRow>
    var nextEvent: nat

    ghost function Abs(): Database
      reads this
    {
      Database(windows, nextWindow, events, nextEvent)
    }

    constructor ()
      ensures Valid(Abs()) && Abs() == Database(map[], 1, map[], 1)
    {
      windows, nextWindow, events, nextEvent := map[], 1, map[], 1;
    }

    /** Some row with either identity; the query does not say which. */
    method FindExisting(r: Record) returns (found: Option<nat>)
      ensures found.None? ==> !Clashes(Abs(), r)
      ensures found.Some? ==> found.value in windows && Matches(windows[found.value], r)
    {
      hide Matches;
      if exists s | s in windows :: Matches(windows[s], r) {
        var s :| s in windows && Matches(windows[s], r);
        found := Some(s);
      } else {
        found := None;
      }
    }

    /** Inserts the record, or answers from the row that the lookup returned. */
    method RecordReceive(r: Record) returns (out: Result<Insert, StoreError>)
      requires Valid(Abs()) && Storable(r)
      modifies this`windows, this`nextWindow
      ensures Valid(Abs()) && (Abs(), out) == Recorded(old(Abs()), r)
    {
      hide Read, Write, Storable, Matches, Valid, WriteKey, Recorded, Clashes, WindowsValid, EventsValid, Written, Stored;
      RecordedValid(Abs(), r);
      NoMatchDecides(Abs(), r);
      if WriteKey(r.context).None? {
        return Err(InvalidSequence);
      }
      var found := FindExisting(r);
      if found.Some? {
        AnyMatchDecides(Abs(), r, found.value);
        if Read(windows[found.value]) != Some(r) {
          return Err(IdentityCollision);
        }
        return Ok(Existing(found.value));
      }
      var row := Write(r);
      if row.None? {
        return Err(InvalidSequence);
      }
      if nextWindow > I64_MAX {
        return Err(DatabaseFull);
      }
      out := Ok(Inserted(nextWindow));
      windows := windows[nextWindow := row.value];
      nextWindow := nextWindow + 1;
    }

    method FindEvent(eventId: string) returns (found: Option<nat>)
      ensures found.None? ==> !exists s :: EventAt(Abs(), eventId, s)
      ensures found.Some? ==> EventAt(Abs(), eventId, found.value)
    {
      if s :| s in events && events[s].eventId == eventId {
        found := Some(s);
      } else {
        found := None;
        assert forall s :: !EventAt(Abs(), eventId, s);
      }
    }

    /** One transaction: a failure after the record was inserted rolls the record back. */
    method RecordReceiveWithEvent(r: Record, e: EventRequest) returns (c: Result<Commit, StoreError>)
      requires Valid(Abs()) && Storable(r)
      modifies this
      ensures Valid(Abs()) && (Abs(), c) == Committed(old(Abs()), r, e)
    {
      hide Read, Write, Storable, Matches, WriteKey, Recorded, Clashes, WindowsValid, EventsValid, Stored, Inserting;
      CommitAtomic(Abs(), r, e);
      RecordedKeepsEvents(Abs(), r);
      var (savedWindows, savedNext) := (windows, nextWindow);
      var out := RecordReceive(r);
      if out.Err? {
        windows, nextWindow := savedWindows, savedNext;
        return Err(out.error);
      }
      var json := e.build(out.value.sequence);
      if json.None? {
        windows, nextWindow := savedWindows, savedNext;
        return Err(EventBuildFailed);
      }
      var row := EventRow(e.eventId, r.context.service, json.value, e.occurredUtc);
      var found := FindEvent(e.eventId);
      if found.Some? {
        if events[found.value] != row {
          windows, nextWindow := savedWindows, savedNext;
          OneEvent(old(Abs()), e.eventId, found.value);
          return Err(IdentityCollision);
        }
        OneEvent(old(Abs()), e.eventId, found.value);
        return Ok(Commit(out.value, found.value));
      }
      assert forall s :: EventAt(old(Abs()), e.eventId, s) <==> EventAt(Abs(), e.eventId, s);
      if e.occurredUtc < 0 {
        windows, nextWindow := savedWindows, savedNext;
        return Err(InvalidTime);
      }
      if nextEvent > I64_MAX {
        windows, nextWindow := savedWindows, savedNext;
        return Err(DatabaseFull);
      }
      c := Ok(Commit(out.value, nextEvent));
      events := events[nextEvent := row];
      nextEvent := nextEvent + 1;
    }

    /** Deletes the windows before a retained sequence; sequences are not reused. */
    method PruneReceiveBefore(first: nat) returns (out: Result<nat, StoreError>)
      requires Valid(Abs())
      modifies this`windows
      ensures Valid(Abs())
      ensures out.Err? <==> first > I64_MAX
      ensures out.Err? ==> Abs() == old(Abs())
      ensures out.Ok? ==> windows == Pruned(old(windows), first) && out.value == |old(windows).Keys - windows.Keys|
    {
      if first > I64_MAX {
        return Err(InvalidSequence);
      }
      PrunedValid(windows, nextWindow, first);
      hide WindowsValid;
      var kept := Pruned(windows, first);
      out := Ok(|windows.Keys - kept.Keys|);
      windows := kept;
    }
  }

  /** The event a lookup returns is the only one with its identifier. */
  lemma OneEvent(db: Database, eventId: string, s: nat)
    requires Valid(db) && EventAt(db, eventId, s)
    ensures forall other :: EventAt(db, eventId, other) <==> other == s
  {
    hide WindowsValid;
  }

  /** Without a clash the record is inserted, if it fits its columns and the table. */
  lemma NoMatchDecides(db: Database, r: Record)
    requires Valid(db)
    ensures WriteKey(r.context).None? ==> Recorded(db, r) == (db, Err(InvalidSequence))
    ensures WriteKey(r.context).Some? && !Clashes(db, r) ==>
              Recorded(db, r) ==
                if Write(r).None? then (db, Err(InvalidSequence))
                else if db.nextWindow > I64_MAX then (db, Err(DatabaseFull))
                else (Inserting(db, Write(r).value), Ok(Inserted(db.nextWindow)))
  {
    hide Read, Write, Matches, WriteKey, Clashes, WindowsValid;
    forall s | Stored(db, r, s)
      ensures Clashes(db, r)
    {
      StoredClashes(db, r, s);
    }
  }
}
