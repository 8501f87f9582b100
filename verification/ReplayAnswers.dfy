/**
 Which answer each subscription gets, and what appending and pruning do to the retained events.
 */
module ReplayAnswers {
  import opened Numeric
  import opened Audio
  import opened Replay

  /** A retained event of the generation. */
  predicate Retained(log: EventLog, service: string, r: Row) { r in log.rows && r.service == service }

  /** Nothing of the generation is retained. */
  ghost predicate Forgotten(log: EventLog, service: string) { forall r :: !Retained(log, service, r) }

  /** `k` is the least number of a retained event of the generation. */
  ghost predicate Least(log: EventLog, service: string, k: nat) {
    (exists r :: Retained(log, service, r) && r.sequence == k) && forall r | Retained(log, service, r) :: k <= r.sequence
  }

  /** `k` is the greatest number of a retained event of the generation, or zero if there is none. */
  ghost predicate Greatest(log: EventLog, service: string, k: nat) {
    if Forgotten(log, service) then k == 0
    else (exists r :: Retained(log, service, r) && r.sequence == k) && forall r | Retained(log, service, r) :: r.sequence <= k
  }

  /** Every answer, for every cursor and limit. */
  lemma SubscribeVerdict(log: EventLog, service: string, after: u64, limit: nat)
    requires log.Valid()
    ensures var r := Subscribe(log, service, after, limit);
            if limit < 1 || limit > 256 then r == Ok(InvalidLimit)
            else if after >= 0x8000_0000_0000_0000 then r == Err(InvalidSequence)
            else if !Forgotten(log, service) && (forall e | Retained(log, service, e) :: after + 1 < e.sequence) then
              r.Ok? && r.value.CursorGap? && Least(log, service, r.value.earliest)
            else if (forall e | Retained(log, service, e) :: e.sequence < after) && after > 0 then
              r.Ok? && r.value.CursorUnavailable? && Greatest(log, service, r.value.latest)
            else r.Ok? && r.value.Events? && |r.value.events| <= limit && (r.value.hasMore ==> |r.value.events| == limit)
  {
    if 0 < limit <= MAX_REPLAY_EVENTS && after <= I64_MAX {
      var own := Own(log.rows, service);
      OwnEnds(log, service);
      AnswerByEnds(log, service, after, limit);
      hide Own, Subscribe, EventLog.Valid;
      if own != [] {
        LeastBound(log, service, own[0].sequence, after + 1);
        GreatestBound(log, service, own[|own| - 1].sequence, after);
      }
      hide Least, Greatest, Retained;
    }
  }

  /** The two ends decide the answer. */
  lemma AnswerByEnds(log: EventLog, service: string, after: u64, limit: nat)
    requires 0 < limit <= 256 && after <= I64_MAX
    ensures var (own, r) := (Own(log.rows, service), Subscribe(log, service, after, limit));
            r.Ok? &&
            if own != [] && after + 1 < own[0].sequence then r.value == CursorGap(own[0].sequence)
            else if own == [] && after > 0 then r.value == CursorUnavailable(0)
            else if own != [] && own[|own| - 1].sequence < after then r.value == CursorUnavailable(own[|own| - 1].sequence)
            else r.value.Events? && |r.value.events| <= limit && (r.value.hasMore ==> |r.value.events| == limit)
  {
    hide Own, Later;
  }

  /** The ends of the generation's part of the table. */
  lemma OwnEnds(log: EventLog, service: string)
    requires log.Valid()
    ensures var own := Own(log.rows, service);
            && (own == [] <==> Forgotten(log, service))
            && (own != [] ==>
                  && own[0].sequence >= 1
                  && Least(log, service, own[0].sequence) && Greatest(log, service, own[|own| - 1].sequence))
            && (own == [] ==> Greatest(log, service, 0))
  {
    EarliestOwn(log, service);
    LatestOwn(log, service);
    var own := Own(log.rows, service);
    hide Own, EventLog.Valid;
    if own != [] {
      assert Retained(log, service, own[0]) && Retained(log, service, own[|own| - 1]);
    }
  }

  lemma LeastBound(log: EventLog, service: string, k: nat, x: nat)
    requires Least(log, service, k)
    ensures (forall e | Retained(log, service, e) :: x < e.sequence) <==> x < k
    ensures !Forgotten(log, service)
  {
    hide Retained;
  }

  lemma GreatestBound(log: EventLog, service: string, k: nat, x: nat)
    requires Greatest(log, service, k) && !Forgotten(log, service)
    ensures (forall e | Retained(log, service, e) :: e.sequence < x) <==> k < x
  {
    hide Retained;
  }

  lemma LatestOwn(log: EventLog, service: string)
    requires log.Valid()
    ensures var own := Own(log.rows, service);
            own != [] ==>
              && own[|own| - 1] in log.rows && own[|own| - 1].service == service
              && forall r | Retained(log, service, r) :: r.sequence <= own[|own| - 1].sequence
  {
    OwnMembers(log.rows, service);
    var own := Own(log.rows, service);
    hide Own;
    if own != [] {
      assert own[|own| - 1] in own;
      forall r | Retained(log, service, r)
        ensures r.sequence <= own[|own| - 1].sequence
      {
        assert r in own;
        var i :| 0 <= i < |own| && own[i] == r;
      }
    }
  }

  /** An Events answer leaves the cursor at or before the greatest retained number of the generation. */
  lemma CursorRetained(log: EventLog, service: string, after: u64, limit: nat, latest: nat)
    requires log.Valid() && Subscribe(log, service, after, limit).Ok? && Subscribe(log, service, after, limit).value.Events?
    requires Greatest(log, service, latest)
    ensures Subscribe(log, service, after, limit).value.next <= latest
  {
    SubscribeVerdict(log, service, after, limit);
    EventsPage(log, service, after, limit);
    LaterMembers(log, service, after);
    var page := Subscribe(log, service, after, limit).value;
    hide Subscribe, Later, EventLog.Valid;
    if page.events != [] {
      var last := page.events[|page.events| - 1];
      assert last in Later(log, service, after);
      assert Retained(log, service, last);
    }
  }

  /** The cursor of an Events answer is reached by a retained event of the generation, or is zero. */
  lemma CursorReached(log: EventLog, service: string, start: u64, limit: nat)
    requires log.Valid() && Subscribe(log, service, start, limit).Ok? && Subscribe(log, service, start, limit).value.Events?
    ensures var cursor := Subscribe(log, service, start, limit).value.next;
            && start <= cursor <= I64_MAX
            && if Forgotten(log, service) then cursor == 0
               else exists last :: Retained(log, service, last) && cursor <= last.sequence
  {
    PageMembers(log, service, start, limit);
    assert log.next <= I64_MAX + 1;
    LatestOwn(log, service);
    OwnMembers(log.rows, service);
    var own := Own(log.rows, service);
    hide Subscribe, Own, EventLog.Valid;
    if own == [] {
      forall r ensures !Retained(log, service, r) { assert r in own <==> Retained(log, service, r); }
      CursorRetained(log, service, start, limit, 0);
    } else {
      assert Retained(log, service, own[|own| - 1]);
      CursorRetained(log, service, start, limit, own[|own| - 1].sequence);
    }
  }

  /** A client that continues from its own cursor, whatever was published and pruned in between, is never told that
      its cursor is unavailable while anything of the generation is retained; if some already was and nothing
      is pruned, it gets the next page. */
  lemma ContinuationAnswered(before: EventLog, after: EventLog, service: string, start: u64, limit: nat, more: nat)
    requires before.Valid() && after.Valid() && Evolved(before, after) && 0 < more <= 256
    requires Subscribe(before, service, start, limit).Ok? && Subscribe(before, service, start, limit).value.Events?
    ensures var cursor := Subscribe(before, service, start, limit).value.next;
            && cursor <= I64_MAX
            && var r := Subscribe(after, service, cursor, more);
               && (!Forgotten(after, service) ==> r.Ok? && (r.value.Events? || r.value.CursorGap?))
               && (before.rows <= after.rows && !Forgotten(before, service) ==> r.Ok? && r.value.Events?)
  {
    CursorReached(before, service, start, limit);
    var cursor := Subscribe(before, service, start, limit).value.next;
    SubscribeVerdict(after, service, cursor, more);
    hide Subscribe, EventLog.Valid, Evolved;
    if !Forgotten(before, service) {
      var last :| Retained(before, service, last) && cursor <= last.sequence;
      StillReached(before, after, service, last, cursor);
      if before.rows <= after.rows {
        assert Retained(after, service, last);
        NoGapArises(before, after, service, start, limit, cursor);
      }
    }
  }

  /** So after any number of pages and changes, the next page is served or a gap is announced. */
  lemma SessionContinues(
    logs: seq<EventLog>, limits: seq<nat>, pages: seq<Outcome>, service: string, start: u64, changes: seq<Change>, more: nat)
    requires pages != [] && Session(logs, limits, pages, service, start) && 0 < more <= 256
    requires !Forgotten(ChangeAll(logs[|logs| - 1], changes), service)
    ensures var cursor := pages[|pages| - 1].next;
            && cursor <= I64_MAX
            && var r := Subscribe(ChangeAll(logs[|logs| - 1], changes), service, cursor, more);
               r.Ok? && (r.value.Events? || r.value.CursorGap?)
  {
    hide Subscribe, EventLog.Valid, Evolved, Session, CursorBefore, ChangeAll, Forgotten;
    SessionSplit(logs, limits, pages, service, start);
    var n := |pages| - 1;
    ChangesEvolve(logs[n], changes);
    ContinuationAnswered(logs[n], ChangeAll(logs[n], changes), service, CursorBefore(pages, start, n), limits[n], more);
  }

  /** Whatever is retained of the generation afterwards reaches at least as far. */
  lemma StillReached(before: EventLog, after: EventLog, service: string, last: Row, cursor: nat)
    requires before.Valid() && after.Valid() && Evolved(before, after)
    requires Retained(before, service, last) && cursor <= last.sequence
    ensures !Forgotten(after, service) ==> exists r :: Retained(after, service, r) && r.sequence >= cursor
  {
    assert before.Ever(last);
    assert after.Ever(last);
    if !Forgotten(after, service) {
      var r :| Retained(after, service, r);
      if last in after.rows {
        assert Retained(after, service, last);
      } else {
        PrunedBefore(after, last, r);
      }
    }
  }

  lemma NoGapArises(before: EventLog, after: EventLog, service: string, start: u64, limit: nat, cursor: nat)
    requires before.Valid() && Subscribe(before, service, start, limit).Ok? && Subscribe(before, service, start, limit).value.Events?
    requires !Forgotten(before, service) && before.rows <= after.rows && cursor >= start
    ensures exists r :: Retained(after, service, r) && r.sequence <= cursor + 1
  {
    SubscribeVerdict(before, service, start, limit);
    hide Subscribe, EventLog.Valid;
    var r :| Retained(before, service, r) && r.sequence <= start + 1;
    assert Retained(after, service, r);
  }

  /** An event is refused for an identifier that is still retained, a negative time or an exhausted table, in this
      order; otherwise it gets the next number and every other event stays. */
  lemma AppendVerdict(log: EventLog, eventId: string, service: string, json: string, occurredUtc: i64)
    requires log.Valid()
    ensures var (after, r) := Append(log, eventId, service, json, occurredUtc);
            if exists e :: e in log.rows && e.eventId == eventId then after == log && r == Err(DuplicateEvent)
            else if occurredUtc < 0 then after == log && r == Err(InvalidTime)
            else if log.next == 0x8000_0000_0000_0000 then after == log && r == Err(LogFull)
            else
              && r == Ok(log.next)
              && (forall e :: log.Ever(e) ==> e.sequence < log.next)
              && (forall e :: e in after.rows <==>
                    e in log.rows || e == Row(log.next, eventId, service, json, occurredUtc))
              && after.pruned == log.pruned
  {
    EverNumbered(log);
    hide EventLog.Complete;
  }

  /** Pruning removes exactly the events numbered below `first` and tells how many those were. */
  lemma PruneVerdict(log: EventLog, first: nat)
    requires log.Valid()
    ensures var (after, r) := Prune(log, first);
            if first >= 0x8000_0000_0000_0000 then after == log && r == Err(InvalidSequence)
            else
              && (forall e :: e in after.rows <==> e in log.rows && e.sequence >= first)
              && (forall i, j | 0 <= i < j < |after.rows| :: after.rows[i].sequence < after.rows[j].sequence)
              && r == Ok(|log.rows| - |after.rows|) && |after.rows| <= |log.rows|
              && |log.rows| - |after.rows| == |Below(log.rows, first)|
              && after.next == log.next
  {
    if first <= I64_MAX {
      FromMembers(log.rows, first);
      CountBelow(log.rows, first);
      KeptRows(log, first);
      hide From, EventLog.Valid;
    }
  }

  /** The rows numbered below `first`. */
  ghost function Below(rows: seq<Row>, first: nat): set<Row> { set e | e in rows && e.sequence < first }

  lemma {:induction false} CountBelow(rows: seq<Row>, first: nat)
    requires Ordered(rows)
    ensures |From(rows, first)| + |Below(rows, first)| == |rows|
  {
    if rows == [] {
      assert Below(rows, first) == {};
    } else {
      var (before, last) := (rows[..|rows| - 1], rows[|rows| - 1]);
      CountBelow(before, first);
      BelowLast(rows, first);
      hide Below, Ordered;
    }
  }

  lemma BelowLast(rows: seq<Row>, first: nat)
    requires rows != [] && Ordered(rows)
    ensures var (before, last) := (rows[..|rows| - 1], rows[|rows| - 1]);
            && last !in Below(before, first)
            && Below(rows, first) == Below(before, first) + if last.sequence < first then {last} else {}
  {
    assert rows == rows[..|rows| - 1] + [rows[|rows| - 1]];
  }
}
