/**
 The ordered event log and its bounded replay pages.

 The table is a sequence of rows in sequence order; sequence numbers are assigned once and never reused.
 */
module Replay {
  import opened Numeric
  import opened Audio

  const MAX_REPLAY_EVENTS: nat := 256

  /** One stored event; `service` names the daemon generation that published it. */
  datatype Row = Row(sequence: nat, eventId: string, service: string, json: string, occurredUtc: i64)

  datatype LogError = DuplicateEvent | InvalidSequence | InvalidTime | LogFull

  /** `rows` is the table; `pruned` is the specification-only history of deleted rows. */
  datatype EventLog = EventLog(rows: seq<Row>, next: nat, pruned: set<Row>) {
    /** The row was published, whether or not it is still retained. */
    predicate Ever(r: Row) { r in rows || r in pruned }

    /** The row that was given number `k`. */
    predicate Given(k: nat, r: Row) { Ever(r) && r.sequence == k }

    ghost predicate Numbered(k: nat) { exists r :: Given(k, r) }

    /** Every number below the next was given to a row. */
    ghost predicate Complete() { forall k | 1 <= k < next :: Numbered(k) }

    /** Sequences grow along the table, deleted rows precede every retained one, and no number was skipped
        or given twice. */
    ghost predicate Valid() {
      && 1 <= next <= I64_MAX + 1
      && (forall i | 0 <= i < |rows| :: 1 <= rows[i].sequence < next)
      && (forall i, j | 0 <= i < j < |rows| :: rows[i].sequence < rows[j].sequence)
      && (forall p | p in pruned :: 1 <= p.sequence < next)
      && (forall p, i | p in pruned && 0 <= i < |rows| :: p.sequence < rows[i].sequence)
      && (forall p, q | p in pruned && q in pruned && p.sequence == q.sequence :: p == q)
      && Complete()
    }
  }

  function Empty(): EventLog { EventLog([], 1, {}) }

  function Append(log: EventLog, eventId: string, service: string, json: string, occurredUtc: i64)
    : (EventLog, Result<nat, LogError>)
  {
    if exists r | r in log.rows :: r.eventId == eventId then (log, Err(DuplicateEvent))
    else if occurredUtc < 0 then (log, Err(InvalidTime))
    else if log.next > I64_MAX then (log, Err(LogFull))
    else (log.(rows := log.rows + [Row(log.next, eventId, service, json, occurredUtc)], next := log.next + 1),
          Ok(log.next))
  }

  /** Rows from sequence `first` on. */
  function From(rows: seq<Row>, first: nat): seq<Row> {
    if rows == [] then []
    else From(rows[..|rows| - 1], first) + if rows[|rows| - 1].sequence >= first then [rows[|rows| - 1]] else []
  }

  function Prune(log: EventLog, first: nat): (EventLog, Result<nat, LogError>) {
    if first > I64_MAX then (log, Err(InvalidSequence))
    else
      var kept := From(log.rows, first);
      (log.(rows := kept, pruned := log.pruned + set r | r in log.rows && r.sequence < first),
       Ok(SaturatingSub(|log.rows|, |kept|)))
  }

  /** The generation's rows in the table. */
  function Own(rows: seq<Row>, service: string): seq<Row> {
    if rows == [] then []
    else Own(rows[..|rows| - 1], service) + if rows[|rows| - 1].service == service then [rows[|rows| - 1]] else []
  }

  /** The generation's rows after a cursor: what a complete replay returns. */
  function Later(log: EventLog, service: string, after: nat): seq<Row> {
    From(Own(log.rows, service), after + 1)
  }

  datatype Outcome =
    | InvalidLimit
    | CursorGap(earliest: nat)
    | CursorUnavailable(latest: nat)
    | Events(events: seq<Row>, next: nat, hasMore: bool)

  function Take(s: seq<Row>, n: nat): seq<Row> { if |s| <= n then s else s[..n] }

  /** One page for the current generation, after `after`. */
  function Subscribe(log: EventLog, service: string, after: u64, limit: nat): Result<Outcome, LogError> {
    if limit == 0 || limit > MAX_REPLAY_EVENTS then Ok(InvalidLimit)
    else if after > I64_MAX then Err(InvalidSequence)
    else
      var own := Own(log.rows, service);
      if own != [] && after < SaturatingSub(own[0].sequence, 1) then Ok(CursorGap(own[0].sequence))
      else
        var latest := if own == [] then 0 else own[|own| - 1].sequence;
        if after > latest then Ok(CursorUnavailable(latest))
        else
          var found := Later(log, service, after);
          var page := Take(found, limit);
          Ok(Events(page, if page == [] then after else page[|page| - 1].sequence, |found| > limit))
  }

  // ---------------------------------------------------------------------
  // The table
  // ---------------------------------------------------------------------

  predicate Ordered(rows: seq<Row>) { forall i, j | 0 <= i < j < |rows| :: rows[i].sequence < rows[j].sequence }

  lemma {:induction false} FromMembers(rows: seq<Row>, first: nat)
    ensures forall r :: r in From(rows, first) <==> r in rows && r.sequence >= first
    ensures Ordered(rows) ==> Ordered(From(rows, first))
  {
    if rows != [] {
      var (before, last) := (rows[..|rows| - 1], rows[|rows| - 1]);
      FromMembers(before, first);
      assert rows == before + [last];
      if Ordered(rows) {
        assert Ordered(before);
        forall r | r in From(before, first)
          ensures r.sequence < last.sequence
        {
          assert r in before;
        }
      }
    }
  }

  lemma {:induction false} OwnMembers(rows: seq<Row>, service: string)
    ensures forall r :: r in Own(rows, service) <==> r in rows && r.service == service
    ensures Ordered(rows) ==> Ordered(Own(rows, service))
  {
    if rows != [] {
      var (before, last) := (rows[..|rows| - 1], rows[|rows| - 1]);
      OwnMembers(before, service);
      assert rows == before + [last];
      if Ordered(rows) {
        assert Ordered(before);
        forall r | r in Own(before, service)
          ensures r.sequence < last.sequence
        {
          assert r in before;
        }
      }
    }
  }

  lemma AppendValid(log: EventLog, eventId: string, service: string, json: string, occurredUtc: i64)
    requires log.Valid()
    ensures Append(log, eventId, service, json, occurredUtc).0.Valid()
  {
    var after := Append(log, eventId, service, json, occurredUtc).0;
    if after != log {
      forall k | 1 <= k < after.next
        ensures after.Numbered(k)
      {
        if k < log.next {
          assert log.Numbered(k);
          var r :| log.Given(k, r);
          assert after.Given(k, r);
        } else {
          assert after.Given(k, after.rows[|log.rows|]);
        }
      }
    }
  }

  /** Order and numbers of the rows that pruning keeps. */
  lemma KeptRows(log: EventLog, first: nat)
    requires log.Valid()
    ensures var kept := From(log.rows, first);
            && Ordered(kept)
            && (forall i | 0 <= i < |kept| :: kept[i] in log.rows && first <= kept[i].sequence < log.next && 1 <= kept[i].sequence)
  {
    FromMembers(log.rows, first);
    var kept := From(log.rows, first);
    hide From, EventLog.Complete;
    forall i | 0 <= i < |kept|
      ensures kept[i] in log.rows && first <= kept[i].sequence < log.next && 1 <= kept[i].sequence
    {
      assert kept[i] in kept;
    }
  }

  /** Pruning moves rows from the table to the deleted ones and loses none. */
  lemma PruneEver(log: EventLog, first: nat)
    ensures forall r :: Prune(log, first).0.Ever(r) <==> log.Ever(r)
    ensures Prune(log, first).0.next == log.next
  {
    FromMembers(log.rows, first);
    hide From;
  }

  lemma PruneComplete(log: EventLog, first: nat)
    requires log.Complete()
    ensures Prune(log, first).0.Complete()
  {
    PruneEver(log, first);
    var after := Prune(log, first).0;
    hide Prune, EventLog.Ever;
    forall k | 1 <= k < after.next
      ensures after.Numbered(k)
    {
      assert log.Numbered(k);
      var r :| log.Given(k, r);
      assert after.Given(k, r);
    }
  }

  /** A deleted row was deleted before, or was in the table below `first`. */
  lemma PrunedRows(log: EventLog, first: nat)
    requires log.Valid() && first <= I64_MAX
    ensures forall p | p in Prune(log, first).0.pruned ::
              1 <= p.sequence < log.next && (p in log.pruned || (p in log.rows && p.sequence < first))
  {
    hide From, EventLog.Complete;
  }

  /** Rows of one log with one number are one row. */
  lemma NumberedOnce(log: EventLog, p: Row, q: Row)
    requires log.Valid() && log.Ever(p) && log.Ever(q) && p.sequence == q.sequence
    ensures p == q
  {
    hide EventLog.Complete;
  }

  lemma PruneValid(log: EventLog, first: nat)
    requires log.Valid()
    ensures Prune(log, first).0.Valid()
  {
    if first <= I64_MAX {
      KeptRows(log, first);
      PruneComplete(log, first);
      PrunedRows(log, first);
      PruneEver(log, first);
      var after := Prune(log, first).0;
      assert after.rows == From(log.rows, first);
      hide From, EventLog.Complete, Prune;
      forall p, i | p in after.pruned && 0 <= i < |after.rows|
        ensures p.sequence < after.rows[i].sequence
      {
        if p in log.pruned { PrunedBefore(log, p, after.rows[i]); }
      }
      forall p, q | p in after.pruned && q in after.pruned && p.sequence == q.sequence
        ensures p == q
      {
        NumberedOnce(log, p, q);
      }
    }
  }

  /** The table object. */
  class EventStore {
    var rows: seq<Row>
    var next: nat
    ghost var pruned: set<Row>

    ghost function Abs(): EventLog
      reads this
    {
      EventLog(rows, next, pruned)
    }

    constructor ()
      ensures Abs() == Empty() && Abs().Valid()
    {
      rows, next, pruned := [], 1, {};
    }

    method AppendEvent(eventId: string, service: string, json: string, occurredUtc: i64)
      returns (r: Result<nat, LogError>)
      requires Abs().Valid()
      modifies this
      ensures Abs().Valid() && (Abs(), r) == Append(old(Abs()), eventId, service, json, occurredUtc)
    {
      hide EventLog.Valid;
      AppendValid(Abs(), eventId, service, json, occurredUtc);
      if exists r | r in rows :: r.eventId == eventId {
        return Err(DuplicateEvent);
      }
      if occurredUtc < 0 {
        return Err(InvalidTime);
      }
      if next > I64_MAX {
        return Err(LogFull);
      }
      rows := rows + [Row(next, eventId, service, json, occurredUtc)];
      r := Ok(next);
      next := next + 1;
    }

    method PruneEventsBefore(first: nat) returns (r: Result<nat, LogError>)
      requires Abs().Valid()
      modifies this
      ensures Abs().Valid() && (Abs(), r) == Prune(old(Abs()), first)
    {
      hide EventLog.Valid, From;
      PruneValid(Abs(), first);
      if first > I64_MAX {
        return Err(InvalidSequence);
      }
      var kept := From(rows, first);
      r := Ok(SaturatingSub(|rows|, |kept|));
      pruned := pruned + set r | r in rows && r.sequence < first;
      rows := kept;
    }

    /** Fetches one row more than asked for, then truncates. */
    method ReplayEvents(service: string, after: nat, limit: nat) returns (events: seq<Row>, hasMore: bool)
      ensures events == Take(Later(Abs(), service, after), limit)
      ensures hasMore <==> |Later(Abs(), service, after)| > limit
    {
      events := [];
      assert From(Own(rows[..0], service), after + 1) == [];
      hide From, Own, Take, Later;
      var i := 0;
      while i < |rows| && |events| <= limit
        invariant i <= |rows| && |events| <= limit + 1
        invariant events == From(Own(rows[..i], service), after + 1)
      {
        var r := rows[i];
        ghost var before := events;
        if r.service == service && r.sequence > after {
          events := events + [r];
        }
        assert events == before + if r.service == service && r.sequence >= after + 1 then [r] else [];
        assert rows[..i + 1] == rows[..i] + [r];
        OwnSnoc(rows[..i], r, service, after + 1);
        i := i + 1;
      }
      FetchIsPage(Abs(), i, service, after, limit, events);
      hasMore := |events| > limit;
      if hasMore {
        events := events[..limit];
      }
    }
  }

  /** Rows fetched until one too many, or to the end of the table, decide the page. */
  lemma FetchIsPage(log: EventLog, i: nat, service: string, after: nat, limit: nat, events: seq<Row>)
    requires i <= |log.rows| && events == From(Own(log.rows[..i], service), after + 1)
    requires i == |log.rows| || |events| == limit + 1
    requires |events| <= limit + 1
    ensures |events| > limit <==> |Later(log, service, after)| > limit
    ensures Take(Later(log, service, after), limit) == if |events| > limit then events[..limit] else events
  {
    hide From, Own;
    OwnPrefix(log.rows, i, service, after + 1);
    if i == |log.rows| {
      assert log.rows[..i] == log.rows;
    }
  }

  lemma OwnSnoc(rows: seq<Row>, r: Row, service: string, first: nat)
    ensures From(Own(rows + [r], service), first)
         == From(Own(rows, service), first) + if r.service == service && r.sequence >= first then [r] else []
  {
    assert (rows + [r])[..|rows|] == rows;
    var own := Own(rows, service);
    assert (own + [r])[..|own|] == own;
    assert own + [] == own && From(own, first) + [] == From(own, first);
  }

  /** What the first rows give is the beginning of what all rows give. */
  lemma {:induction false} OwnPrefix(rows: seq<Row>, i: nat, service: string, first: nat)
    requires i <= |rows|
    ensures From(Own(rows[..i], service), first) <= From(Own(rows, service), first)
    decreases |rows|
  {
    hide From, Own;
    if i == |rows| {
      assert rows[..i] == rows;
    } else {
      var before := rows[..|rows| - 1];
      OwnPrefix(before, i, service, first);
      assert before[..i] == rows[..i];
      OwnSnoc(before, rows[|rows| - 1], service, first);
      assert rows == before + [rows[|rows| - 1]];
    }
  }

  // ---------------------------------------------------------------------
  // Complete replay
  // ---------------------------------------------------------------------

  lemma LaterMembers(log: EventLog, service: string, after: nat)
    requires log.Valid()
    ensures forall r :: r in Later(log, service, after) <==> r in log.rows && r.service == service && r.sequence > after
    ensures Ordered(Later(log, service, after))
  {
    OwnMembers(log.rows, service);
    FromMembers(Own(log.rows, service), after + 1);
  }

  /** Two ordered lists with the same members are the same list. */
  lemma {:induction false} OrderedUnique(s: seq<Row>, t: seq<Row>)
    requires Ordered(s) && Ordered(t) && forall r :: r in s <==> r in t
    ensures s == t
    decreases |s|
  {
    assert t != [] ==> t[0] in s;
    assert s != [] ==> s[|s| - 1] in t;
    if s != [] {
      var (x, y) := (s[|s| - 1], t[|t| - 1]);
      var (before, rest) := (s[..|s| - 1], t[..|t| - 1]);
      assert y in s;
      ButLast(s);
      ButLast(t);
      assert x == y;
      forall r
        ensures r in before <==> r in rest
      {
        assert r in s <==> r in t;
      }
      OrderedUnique(before, rest);
      assert s == before + [x] && t == rest + [y];
    }
  }

  lemma ButLast(s: seq<Row>)
    requires s != [] && Ordered(s)
    ensures var x := s[|s| - 1];
            && Ordered(s[..|s| - 1])
            && (forall r | r in s :: r == x || r.sequence < x.sequence)
            && (forall r :: r in s[..|s| - 1] <==> r in s && r != x)
  {
    assert s == s[..|s| - 1] + [s[|s| - 1]];
  }

  /** Between two logs events were published or pruned, in any order: no published row is forgotten, and
      new rows get new numbers. */
  ghost predicate Evolved(before: EventLog, after: EventLog) {
    before.next <= after.next && forall r: Row :: before.Ever(r) <==> after.Ever(r) && r.sequence < before.next
  }

  lemma EvolvedTrans(a: EventLog, b: EventLog, c: EventLog)
    requires Evolved(a, b) && Evolved(b, c)
    ensures Evolved(a, c)
  {
    hide EventLog.Ever;
  }

  lemma AppendEvolves(log: EventLog, eventId: string, service: string, json: string, occurredUtc: i64)
    requires log.Valid()
    ensures Evolved(log, Append(log, eventId, service, json, occurredUtc).0)
  {
    hide EventLog.Complete;
    EverNumbered(log);
  }

  lemma PruneEvolves(log: EventLog, first: nat)
    requires log.Valid()
    ensures Evolved(log, Prune(log, first).0)
  {
    PruneEver(log, first);
    EverNumbered(log);
    hide Prune, EventLog.Ever, EventLog.Valid;
  }

  lemma EverNumbered(log: EventLog)
    requires log.Valid()
    ensures forall r | log.Ever(r) :: r.sequence < log.next
  {
    hide EventLog.Complete;
  }

  /** A client that pages from `start`: page `i` was served from `logs[i]` and asked for `limits[i]` events
      after the cursor the previous page returned. */
  ghost predicate Session(logs: seq<EventLog>, limits: seq<nat>, pages: seq<Outcome>, service: string, start: u64) {
    && |logs| == |limits| == |pages|
    && (forall i | 0 <= i < |logs| :: logs[i].Valid())
    && (forall i | 0 < i < |logs| :: Evolved(logs[i - 1], logs[i]))
    && (forall i | 0 <= i < |pages| ::
          && pages[i].Events?
          && CursorBefore(pages, start, i) <= U64_MAX
          && Subscribe(logs[i], service, CursorBefore(pages, start, i), limits[i]) == Ok(pages[i]))
  }

  function CursorBefore(pages: seq<Outcome>, start: nat, i: nat): nat
    requires i <= |pages|
  {
    if i == 0 || !pages[i - 1].Events? then start else pages[i - 1].next
  }

  function Received(pages: seq<Outcome>): seq<Row> {
    if pages == [] then []
    else Received(pages[..|pages| - 1]) + if pages[|pages| - 1].Events? then pages[|pages| - 1].events else []
  }

  /** One page: its events are the rows between its cursor and the next, and it is the last page exactly
      when nothing of the generation lies beyond. */
  lemma PageMembers(log: EventLog, service: string, after: u64, limit: nat)
    requires log.Valid() && Subscribe(log, service, after, limit).Ok?
    requires Subscribe(log, service, after, limit).value.Events?
    ensures var page := Subscribe(log, service, after, limit).value;
            && after <= page.next < log.next
            && Ordered(page.events)
            && (forall r :: r in page.events <==>
                  r in log.rows && r.service == service && after < r.sequence <= page.next)
            && (!page.hasMore <==> forall r | r in log.rows && r.service == service :: r.sequence <= page.next)
  {
    EventsPage(log, service, after, limit);
    LaterMembers(log, service, after);
    var page := Subscribe(log, service, after, limit).value;
    var found := Later(log, service, after);
    hide Subscribe, Later, Ordered, EventLog.Valid;
    TakeMembers(found, limit);
    hide Take;
    if page.events != [] { assert page.events[|page.events| - 1] in page.events; }
  }

  lemma EventsPage(log: EventLog, service: string, after: u64, limit: nat)
    requires log.Valid() && Subscribe(log, service, after, limit).Ok?
    requires Subscribe(log, service, after, limit).value.Events?
    ensures var page := Subscribe(log, service, after, limit).value;
            var found := Later(log, service, after);
            && limit > 0 && after < log.next
            && page.events == Take(found, limit) && (page.hasMore <==> |found| > limit)
            && page.next == (if page.events == [] then after else page.events[|page.events| - 1].sequence)
            && (forall r | r in log.rows :: r.sequence < log.next)
  {
    OwnMembers(log.rows, service);
    var own := Own(log.rows, service);
    hide Later, Own, Take, Ordered;
    if own != [] { assert own[|own| - 1] in own; }
  }

  lemma TakeMembers(found: seq<Row>, limit: nat)
    requires Ordered(found) && limit > 0
    ensures var page := Take(found, limit);
            && Ordered(page) && (page == [] <==> found == [])
            && (forall r | r in page :: r in found)
            && (page != [] ==>
                  && (forall r | r in found :: r in page <==> r.sequence <= page[|page| - 1].sequence)
                  && (|found| > limit <==> exists r :: r in found && r.sequence > page[|page| - 1].sequence))
  {
    var page := Take(found, limit);
    if page != [] {
      var last := page[|page| - 1];
      forall i | 0 <= i < |found|
        ensures i < |page| <==> found[i].sequence <= last.sequence
        ensures i < |page| ==> found[i] in page
      {
        if i < |page| { assert page[i] == found[i]; }
        if i > |page| - 1 { assert found[|page| - 1] == last; }
      }
      if |found| > limit { assert found[limit] in found; }
    }
  }

  /** The client holds, in order, exactly the events of the generation ever numbered between its start and
      its cursor. */
  ghost predicate HoldsUpTo(log: EventLog, received: seq<Row>, service: string, start: nat, cursor: nat) {
    && start <= cursor < log.next && Ordered(received)
    && (forall r :: r in received <==> log.Ever(r) && r.service == service && start < r.sequence <= cursor)
  }

  /** No event of the generation between the two cursors of a page has been pruned. */
  lemma NothingPrunedInPage(log: EventLog, service: string, after: u64, limit: nat)
    requires log.Valid() && Subscribe(log, service, after, limit).Ok?
    requires Subscribe(log, service, after, limit).value.Events?
    ensures var page := Subscribe(log, service, after, limit).value;
            forall p | p in log.pruned && p.service == service :: !(after < p.sequence <= page.next)
  {
    EventsHideLossIffNothingRetained(log, service, after, limit);
    PageMembers(log, service, after, limit);
    EventsPage(log, service, after, limit);
    OwnMembers(log.rows, service);
    var page := Subscribe(log, service, after, limit).value;
    hide Subscribe, Later, EventLog.Valid, Own, Take, Ordered;
    if page.events != [] {
      assert page.events[0] in page.events && page.events[0] in Own(log.rows, service);
    }
  }

  /** One page holds exactly the events ever numbered between its cursors. */
  lemma FirstPage(log: EventLog, service: string, start: u64, limit: nat)
    requires log.Valid() && Subscribe(log, service, start, limit).Ok? && Subscribe(log, service, start, limit).value.Events?
    ensures var page := Subscribe(log, service, start, limit).value;
            HoldsUpTo(log, page.events, service, start, page.next)
  {
    PageMembers(log, service, start, limit);
    NothingPrunedInPage(log, service, start, limit);
    hide Subscribe, EventLog.Valid, Ordered;
  }

  lemma HoldsStep(before: EventLog, log: EventLog, received: seq<Row>, service: string, start: nat, cursor: u64, limit: nat)
    requires before.Valid() && log.Valid() && Evolved(before, log) && HoldsUpTo(before, received, service, start, cursor)
    requires Subscribe(log, service, cursor, limit).Ok? && Subscribe(log, service, cursor, limit).value.Events?
    ensures var page := Subscribe(log, service, cursor, limit).value;
            HoldsUpTo(log, received + page.events, service, start, page.next)
  {
    hide Subscribe, EventLog.Valid, Ordered, EventLog.Ever;
    FirstPage(log, service, cursor, limit);
    var page := Subscribe(log, service, cursor, limit).value;
    var all := received + page.events;
    forall r
      ensures r in all <==> log.Ever(r) && r.service == service && start < r.sequence <= page.next
    {
      assert r in all <==> r in received || r in page.events;
    }
    JoinOrdered(received, page.events, cursor);
  }

  lemma JoinOrdered(s: seq<Row>, t: seq<Row>, cursor: nat)
    requires Ordered(s) && Ordered(t)
    requires (forall r | r in s :: r.sequence <= cursor) && (forall r | r in t :: r.sequence > cursor)
    ensures Ordered(s + t)
  {
  }

  /** Whatever is published or pruned between its pages, a session of Events answers has received, once and
      in order, exactly the events of the generation ever numbered between its start and its cursor. */
  lemma {:induction false} ReplayMissesNothing(
    logs: seq<EventLog>, limits: seq<nat>, pages: seq<Outcome>, service: string, start: u64)
    requires pages != [] && Session(logs, limits, pages, service, start)
    ensures HoldsUpTo(logs[|logs| - 1], Received(pages), service, start, pages[|pages| - 1].next)
  {
    hide Subscribe, HoldsUpTo, EventLog.Valid, Evolved, Session, CursorBefore, Received;
    var n := |pages| - 1;
    var before := pages[..n];
    SessionSplit(logs, limits, pages, service, start);
    ReceivedLast(pages);
    if n == 0 {
      FirstPage(logs[0], service, start, limits[0]);
    } else {
      ReplayMissesNothing(logs[..n], limits[..n], before, service, start);
      assert logs[..n][n - 1] == logs[n - 1] && before[n - 1] == pages[n - 1];
      HoldsStep(logs[n - 1], logs[n], Received(before), service, start, CursorBefore(pages, start, n), limits[n]);
    }
  }

  lemma ReceivedLast(pages: seq<Outcome>)
    requires pages != [] && pages[|pages| - 1].Events?
    ensures Received(pages) == Received(pages[..|pages| - 1]) + pages[|pages| - 1].events
    ensures |pages| == 1 ==> Received(pages) == pages[0].events
  {
    if |pages| == 1 {
      assert Received(pages[..0]) == [];
    }
  }

  lemma SessionSplit(logs: seq<EventLog>, limits: seq<nat>, pages: seq<Outcome>, service: string, start: u64)
    requires pages != [] && Session(logs, limits, pages, service, start)
    ensures var n := |pages| - 1;
            && |logs| == |limits| == |pages| && logs[n].Valid() && pages[n].Events?
            && CursorBefore(pages, start, n) == (if n == 0 then start else pages[n - 1].next)
            && CursorBefore(pages, start, n) <= U64_MAX
            && Subscribe(logs[n], service, CursorBefore(pages, start, n), limits[n]) == Ok(pages[n])
            && Session(logs[..n], limits[..n], pages[..n], service, start)
            && (n > 0 ==> logs[n - 1].Valid() && Evolved(logs[n - 1], logs[n]))
  {
    hide Subscribe, EventLog.Valid, Evolved;
    var n := |pages| - 1;
    forall i | 0 <= i < n
      ensures CursorBefore(pages[..n], start, i) == CursorBefore(pages, start, i)
    {
    }
  }

  /** A session that pages until nothing more is announced has received each event of the generation ever
      published after its start, if any event of the generation is then retained. */
  lemma ReplayComplete(logs: seq<EventLog>, limits: seq<nat>, pages: seq<Outcome>, service: string, start: u64)
    requires pages != [] && Session(logs, limits, pages, service, start)
    requires !pages[|pages| - 1].hasMore && Own(logs[|logs| - 1].rows, service) != []
    ensures Ordered(Received(pages))
    ensures forall r :: r in Received(pages) <==>
              logs[|logs| - 1].Ever(r) && r.service == service && r.sequence > start
  {
    hide Subscribe, Received, Session, EventLog.Valid, Own, Ordered, CursorBefore, Evolved;
    ReplayMissesNothing(logs, limits, pages, service, start);
    SessionSplit(logs, limits, pages, service, start);
    var n := |pages| - 1;
    NothingBeyond(logs[n], service, CursorBefore(pages, start, n), limits[n]);
  }

  /** Past the last page of a generation that is still retained, there never was anything. */
  lemma NothingBeyond(log: EventLog, service: string, after: u64, limit: nat)
    requires log.Valid() && Subscribe(log, service, after, limit).Ok?
    requires Subscribe(log, service, after, limit).value.Events? && !Subscribe(log, service, after, limit).value.hasMore
    requires Own(log.rows, service) != []
    ensures forall r | log.Ever(r) && r.service == service :: r.sequence <= Subscribe(log, service, after, limit).value.next
  {
    PageMembers(log, service, after, limit);
    EventsHideLossIffNothingRetained(log, service, after, limit);
    hide Subscribe, EventLog.Valid, Own, Ordered;
  }

  lemma PageRetained(log: EventLog, service: string, after: u64, limit: nat)
    requires log.Valid() && Subscribe(log, service, after, limit).Ok?
    requires Subscribe(log, service, after, limit).value.Events?
    ensures var page := Subscribe(log, service, after, limit).value;
            && (forall r | r in page.events :: r in log.rows)
            && (!page.hasMore ==> forall r | r in log.rows && r.service == service :: r.sequence <= page.next)
  {
    hide Subscribe, EventLog.Valid, Ordered;
    PageMembers(log, service, after, limit);
  }

  /** What a session received is still in the table if nothing was pruned since. */
  lemma {:induction false} ReceivedRetained(
    logs: seq<EventLog>, limits: seq<nat>, pages: seq<Outcome>, service: string, start: u64)
    requires Session(logs, limits, pages, service, start) && pages != []
    requires forall i | 0 < i < |logs| :: logs[i - 1].rows <= logs[i].rows
    ensures forall r | r in Received(pages) :: r in logs[|logs| - 1].rows
  {
    hide Subscribe, Received, Session, EventLog.Valid, Ordered, CursorBefore, Evolved;
    var n := |pages| - 1;
    SessionSplit(logs, limits, pages, service, start);
    PageRetained(logs[n], service, CursorBefore(pages, start, n), limits[n]);
    ReceivedLast(pages);
    if n > 0 {
      ReceivedRetained(logs[..n], limits[..n], pages[..n], service, start);
      assert logs[..n][n - 1] == logs[n - 1] && logs[n - 1].rows <= logs[n].rows;
    }
  }

  /** An Events answer hides a pruned event of the generation exactly when nothing of it is retained. */
  lemma EventsHideLossIffNothingRetained(log: EventLog, service: string, after: u64, limit: nat)
    requires log.Valid() && Subscribe(log, service, after, limit).Ok?
    requires Subscribe(log, service, after, limit).value.Events?
    ensures (exists p :: p in log.pruned && p.service == service && p.sequence > after) <==>
              (Own(log.rows, service) == [] && exists p :: p in log.pruned && p.service == service)
  {
    OwnMembers(log.rows, service);
    var own := Own(log.rows, service);
    hide Own, Later, Ordered;
    if own != [] {
      assert own[0] in own;
      var i :| 0 <= i < |log.rows| && log.rows[i] == own[0];
    }
  }

  /** Such an answer: after one event is published and pruned, a new client of its generation gets an empty
      page. */
  lemma EmptyPageHidesLoss(eventId: string, service: string, json: string, occurredUtc: i64)
    requires occurredUtc >= 0
    ensures var published := Append(Empty(), eventId, service, json, occurredUtc).0;
            var log := Prune(published, 2).0;
            && log.Valid() && Subscribe(log, service, 0, 1) == Ok(Events([], 0, false))
            && exists p :: p in log.pruned && p.service == service && p.sequence > 0
  {
    hide EventLog.Valid, Append, Prune, Subscribe;
    var row := Row(1, eventId, service, json, occurredUtc);
    EmptyValid();
    AppendValid(Empty(), eventId, service, json, occurredUtc);
    FirstAppend(row);
    PruneValid(EventLog([row], 2, {}), 2);
    OneRowPruned(row);
    assert row in EventLog([], 2, {row}).pruned;
  }

  lemma FirstAppend(row: Row)
    requires row.sequence == 1 && row.occurredUtc >= 0
    ensures Append(Empty(), row.eventId, row.service, row.json, row.occurredUtc).0 == EventLog([row], 2, {})
  {
    var none: seq<Row> := [];
    assert none + [row] == [row];
  }

  lemma EmptyValid()
    ensures Empty().Valid()
  {
  }

  lemma OneRowPruned(row: Row)
    requires row.sequence == 1
    ensures Prune(EventLog([row], 2, {}), 2).0 == EventLog([], 2, {row})
    ensures Subscribe(EventLog([], 2, {row}), row.service, 0, 1) == Ok(Events([], 0, false))
  {
    assert [row][..0] == [] && From([row], 2) == From([], 2) + [];
    assert {} + (set r | r in [row] && r.sequence < 2) == {row};
    assert Later(EventLog([], 2, {row}), row.service, 0) == [];
  }

  /** A gap is announced exactly when the cursor lies more than one before the earliest retained event of
      the generation. */
  lemma GapCondition(log: EventLog, service: string, after: u64, limit: nat)
    requires log.Valid() && 0 < limit <= MAX_REPLAY_EVENTS && after <= I64_MAX
    ensures Subscribe(log, service, after, limit).value.CursorGap? <==>
              && Own(log.rows, service) != []
              && forall r | r in log.rows && r.service == service :: after + 1 < r.sequence
  {
    EarliestOwn(log, service);
    hide Own, Later;
  }

  lemma EarliestOwn(log: EventLog, service: string)
    requires log.Valid()
    ensures var own := Own(log.rows, service);
            && (own == [] <==> forall r | r in log.rows :: r.service != service)
            && (own != [] ==>
                  && own[0] in log.rows && own[0].service == service && own[0].sequence >= 1
                  && forall r | r in log.rows && r.service == service :: own[0].sequence <= r.sequence)
  {
    OwnMembers(log.rows, service);
    var own := Own(log.rows, service);
    hide Own;
    if own != [] {
      assert own[0] in own;
      forall r | r in log.rows && r.service == service
        ensures own[0].sequence <= r.sequence
      {
        assert r in own;
        var i :| 0 <= i < |own| && own[i] == r;
      }
    }
  }

  /** Number `k` was given to an event of another generation. */
  ghost predicate Others(log: EventLog, service: string, k: nat) {
    exists r :: log.Given(k, r) && r.service != service
  }

  /** An announced gap up to `e` is no loss exactly when every number between the cursor and `e` was given
      to another generation. */
  lemma GapIsLossUnlessOthers(log: EventLog, service: string, after: u64, limit: nat)
    requires log.Valid() && Subscribe(log, service, after, limit).Ok?
    requires Subscribe(log, service, after, limit).value.CursorGap?
    ensures var e := Subscribe(log, service, after, limit).value.earliest;
            (exists p :: p in log.pruned && p.service == service && p.sequence > after) <==>
              !(forall k | after < k < e :: Others(log, service, k))
  {
    EarliestOwn(log, service);
    var e := Subscribe(log, service, after, limit).value.earliest;
    var own := Own(log.rows, service);
    assert own != [] && e == own[0].sequence;
    hide Own, Later, Subscribe;
    if p :| p in log.pruned && p.service == service && p.sequence > after {
      PrunedBefore(log, p, own[0]);
      GivenOnce(log, p);
      assert !Others(log, service, p.sequence);
    } else {
      forall k | after < k < e
        ensures Others(log, service, k)
      {
        assert log.Numbered(k);
        var r :| log.Given(k, r);
        assert r in log.rows ==> r.service != service;
      }
    }
  }

  lemma PrunedBefore(log: EventLog, p: Row, r: Row)
    requires log.Valid() && p in log.pruned && r in log.rows
    ensures p.sequence < r.sequence
  {
    var i :| 0 <= i < |log.rows| && log.rows[i] == r;
  }

  lemma GivenOnce(log: EventLog, p: Row)
    requires log.Valid() && p in log.pruned
    ensures forall r | log.Given(p.sequence, r) :: r == p
  {
    forall r | log.Given(p.sequence, r)
      ensures r == p
    {
      if r in log.rows { PrunedBefore(log, p, r); }
    }
  }

  /** So if any retained event, of whatever generation, has a number at most one after the cursor, a gap
      announced there is spurious. */
  lemma RetainedBeforeCursorMeansNoLoss(log: EventLog, service: string, after: u64, first: Row)
    requires log.Valid() && first in log.rows && first.sequence <= after + 1
    ensures !exists p :: p in log.pruned && p.service == service && p.sequence > after
  {
    forall p | p in log.pruned
      ensures p.sequence <= after
    {
      PrunedBefore(log, p, first);
    }
  }

  /** Such a gap: the first event of a later generation follows those of earlier ones in the shared
      numbering, and a new client of it is told of a gap. */
  lemma GapWithoutLoss(older: Publication, newer: Publication)
    requires older.service != newer.service && older.eventId != newer.eventId
    requires older.occurredUtc >= 0 && newer.occurredUtc >= 0
    ensures var log := ChangeAll(Empty(), [Publish(older), Publish(newer)]);
            log.Valid() && log.pruned == {} && Subscribe(log, newer.service, 0, 1) == Ok(CursorGap(2))
  {
    var changes := [Publish(older), Publish(newer)];
    EmptyValid();
    ChangesEvolve(Empty(), changes);
    var (a, b) := (RowOf(1, older), RowOf(2, newer));
    TwoPublished(older, newer);
    GapBeforeSecond(a, b);
    hide EventLog.Valid, ChangeAll, Subscribe;
  }

  function RowOf(k: nat, p: Publication): Row { Row(k, p.eventId, p.service, p.json, p.occurredUtc) }

  lemma TwoPublished(older: Publication, newer: Publication)
    requires older.eventId != newer.eventId && older.occurredUtc >= 0 && newer.occurredUtc >= 0
    ensures ChangeAll(Empty(), [Publish(older), Publish(newer)]) == EventLog([RowOf(1, older), RowOf(2, newer)], 3, {})
  {
    var changes := [Publish(older), Publish(newer)];
    FirstAppend(RowOf(1, older));
    assert changes[..1] == [Publish(older)] && changes[..1][..0] == [];
    assert ChangeAll(Empty(), []) == Empty();
    assert ChangeAll(Empty(), [Publish(older)]) == EventLog([RowOf(1, older)], 2, {});
    assert [RowOf(1, older)] + [RowOf(2, newer)] == [RowOf(1, older), RowOf(2, newer)];
  }

  lemma GapBeforeSecond(older: Row, newer: Row)
    requires older.service != newer.service && older.sequence == 1 && newer.sequence == 2
    ensures Subscribe(EventLog([older, newer], 3, {}), newer.service, 0, 1) == Ok(CursorGap(2))
  {
    var rows := [older, newer];
    assert rows[..1] == [older] && [older][..0] == [];
    assert Own([older], newer.service) == Own([], newer.service) + [];
    assert Own(rows, newer.service) == Own([older], newer.service) + [newer];
  }

  // ---------------------------------------------------------------------
  // Publishing and pruning between pages
  // ---------------------------------------------------------------------

  datatype Publication = Publication(eventId: string, service: string, json: string, occurredUtc: i64)

  datatype Change = Publish(event: Publication) | PruneBefore(first: nat)

  function ApplyChange(log: EventLog, change: Change): EventLog {
    match change
    case Publish(e) => Append(log, e.eventId, e.service, e.json, e.occurredUtc).0
    case PruneBefore(first) => Prune(log, first).0
  }

  /** Any number of publications and prunings, accepted or refused. */
  function ChangeAll(log: EventLog, changes: seq<Change>): EventLog {
    if changes == [] then log
    else ApplyChange(ChangeAll(log, changes[..|changes| - 1]), changes[|changes| - 1])
  }

  lemma ChangeEvolves(log: EventLog, change: Change)
    requires log.Valid()
    ensures ApplyChange(log, change).Valid() && Evolved(log, ApplyChange(log, change))
  {
    hide EventLog.Valid, Evolved, Append, Prune;
    match change {
      case Publish(e) =>
        AppendValid(log, e.eventId, e.service, e.json, e.occurredUtc);
        AppendEvolves(log, e.eventId, e.service, e.json, e.occurredUtc);
      case PruneBefore(first) =>
        PruneValid(log, first);
        PruneEvolves(log, first);
    }
  }

  /** Whatever happens between two pages, the log has evolved as a replay needs. */
  lemma {:induction false} ChangesEvolve(log: EventLog, changes: seq<Change>)
    requires log.Valid()
    ensures ChangeAll(log, changes).Valid() && Evolved(log, ChangeAll(log, changes))
  {
    if changes == [] {
      EverNumbered(log);
    } else {
      var before := ChangeAll(log, changes[..|changes| - 1]);
      ChangesEvolve(log, changes[..|changes| - 1]);
      hide ApplyChange, EventLog.Valid, Evolved;
      ChangeEvolves(before, changes[|changes| - 1]);
      EvolvedTrans(log, before, ChangeAll(log, changes));
    }
  }

  lemma {:induction false} PublishingKeepsRows(log: EventLog, changes: seq<Change>)
    requires forall i | 0 <= i < |changes| :: changes[i].Publish?
    ensures log.rows <= ChangeAll(log, changes).rows
  {
    if changes != [] {
      PublishingKeepsRows(log, changes[..|changes| - 1]);
      assert changes[|changes| - 1].Publish?;
    }
  }

  /** A session of Events answers between whose pages anything may be published or pruned. */
  ghost predicate ChangingSession(
    logs: seq<EventLog>, changes: seq<seq<Change>>, limits: seq<nat>, pages: seq<Outcome>, service: string, start: u64)
  {
    && |logs| == |limits| == |pages| == |changes| && |pages| > 0 && logs[0].Valid()
    && (forall i | 0 < i < |logs| :: logs[i] == ChangeAll(logs[i - 1], changes[i]))
    && (forall i | 0 <= i < |pages| ::
          && pages[i].Events?
          && CursorBefore(pages, start, i) <= U64_MAX
          && Subscribe(logs[i], service, CursorBefore(pages, start, i), limits[i]) == Ok(pages[i]))
  }

  lemma {:induction false} LogsValid(logs: seq<EventLog>, changes: seq<seq<Change>>, i: nat)
    requires i < |logs| == |changes| && logs[0].Valid()
    requires forall i | 0 < i < |logs| :: logs[i] == ChangeAll(logs[i - 1], changes[i])
    ensures logs[i].Valid() && (i > 0 ==> Evolved(logs[i - 1], logs[i]))
  {
    hide EventLog.Valid, Evolved, ChangeAll;
    if i > 0 {
      LogsValid(logs, changes, i - 1);
      ChangesEvolve(logs[i - 1], changes[i]);
    }
  }

  lemma ChangingIsSession(
    logs: seq<EventLog>, changes: seq<seq<Change>>, limits: seq<nat>, pages: seq<Outcome>, service: string, start: u64)
    requires ChangingSession(logs, changes, limits, pages, service, start)
    ensures Session(logs, limits, pages, service, start)
  {
    hide EventLog.Valid, Evolved, ChangeAll, Subscribe;
    forall i | 0 <= i < |logs|
      ensures logs[i].Valid() && (i > 0 ==> Evolved(logs[i - 1], logs[i]))
    {
      LogsValid(logs, changes, i);
    }
  }

  /** If nothing is pruned between the pages, a session that pages to the end has received exactly the
      retained later events. */
  lemma ReplayCompleteWhilePublishing(
    logs: seq<EventLog>, changes: seq<seq<Change>>, limits: seq<nat>, pages: seq<Outcome>, service: string, start: u64)
    requires ChangingSession(logs, changes, limits, pages, service, start) && !pages[|pages| - 1].hasMore
    requires forall i, j | 0 <= i < |changes| && 0 <= j < |changes[i]| :: changes[i][j].Publish?
    ensures Received(pages) == Later(logs[|logs| - 1], service, start)
  {
    hide EventLog.Valid, Evolved, ChangeAll, Subscribe, Later, Received, Session;
    ChangingIsSession(logs, changes, limits, pages, service, start);
    forall i | 0 < i < |logs|
      ensures logs[i - 1].rows <= logs[i].rows
    {
      PublishingKeepsRows(logs[i - 1], changes[i]);
    }
    ReceivedRetained(logs, limits, pages, service, start);
    ReceivedIsLater(logs, limits, pages, service, start);
  }

  lemma SameAsLater(log: EventLog, received: seq<Row>, service: string, start: nat, cursor: nat)
    requires HoldsUpTo(log, received, service, start, cursor)
    requires (forall r | r in received :: r in log.rows)
    requires (forall r | r in log.rows && r.service == service :: r.sequence <= cursor)
    ensures Ordered(received)
    ensures forall r :: r in received <==> r in log.rows && r.service == service && r.sequence > start
  {
    hide Ordered;
  }

  lemma ReceivedIsLater(logs: seq<EventLog>, limits: seq<nat>, pages: seq<Outcome>, service: string, start: u64)
    requires pages != [] && Session(logs, limits, pages, service, start) && !pages[|pages| - 1].hasMore
    requires forall r | r in Received(pages) :: r in logs[|logs| - 1].rows
    ensures Received(pages) == Later(logs[|logs| - 1], service, start)
  {
    hide Subscribe, Later, Received, Session, EventLog.Valid, Ordered, CursorBefore, Evolved;
    ReplayMissesNothing(logs, limits, pages, service, start);
    SessionSplit(logs, limits, pages, service, start);
    var n := |pages| - 1;
    PageRetained(logs[n], service, CursorBefore(pages, start, n), limits[n]);
    LaterMembers(logs[n], service, start);
    SameAsLater(logs[n], Received(pages), service, start, pages[n].next);
    OrderedUnique(Received(pages), Later(logs[n], service, start));
  }
}
