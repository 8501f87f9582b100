/**
 The waterfall: which rows are retained, when a publication is due, and where every row and publication went.
 */
module SpectrumBoard {
  import opened Numeric
  import opened Audio
  import opened Spectrum

  // ---------------------------------------------------------------------
  // Retained rows and publications
  // ---------------------------------------------------------------------

  /** The retained rows are the newest since the last reset, as many as there are up to the capacity. */
  predicate Retains(b: Board, capacity: nat) {
    && b.resetAt <= |b.emitted|
    && |b.rows| == Min(capacity, |b.emitted| - b.resetAt)
    && b.rows == b.emitted[|b.emitted| - |b.rows|..]
  }

  /** A publication time is the time of a row since the last reset. */
  predicate RowTime(b: Board, time: int) {
    && 0 <= time <= I64_MAX
    && exists i | b.resetAt <= i < |b.emitted| :: b.emitted[i].startMicros == time
  }

  /** The first row since the last reset was published, and publications lie at least the cadence apart. */
  ghost predicate Paced(b: Board, cadenceMillis: nat) {
    && (b.published == [] <==> b.lastPublication.None?)
    && (b.published == [] <==> b.resetAt == |b.emitted|)
    && (b.published != [] ==> b.lastPublication == Some(b.published[|b.published| - 1]))
    && (b.publicationPending ==> b.published != [])
    && (forall i | 0 <= i < |b.published| :: RowTime(b, b.published[i]))
    && (forall i, j | 0 <= i && j == i + 1 && j < |b.published| ::
          b.published[j] - b.published[i] >= cadenceMillis * 1_000)
  }

  /** The times of rows, in order. */
  function Times(rows: seq<Row>): (t: seq<int>)
    ensures |t| == |rows|
  {
    if rows == [] then [] else Times(rows[..|rows| - 1]) + [rows[|rows| - 1].startMicros]
  }

  /** The times at which a publication is due: the first, and each that is at least the cadence after the last
      one due. */
  function Due(times: seq<int>, cadenceMillis: nat): seq<int> {
    if times == [] then []
    else
      var (before, time) := (Due(times[..|times| - 1], cadenceMillis), times[|times| - 1]);
      if before == [] || time - before[|before| - 1] >= 1_000 * cadenceMillis then before + [time] else before
  }

  /** Publications since the last reset are exactly those due. */
  predicate Exact(b: Board, cadenceMillis: nat) {
    b.resetAt <= |b.emitted| && b.published == Due(Times(b.emitted[b.resetAt..]), cadenceMillis)
  }

  /** Every row produced is retained, evicted or cleared by a reset; every publication due was taken, coalesced,
      withdrawn by a reset or is pending; rows are numbered upwards, and only the first since a reset has a reason. */
  predicate Accounted(b: Board) {
    && |b.emitted| == |b.rows| + b.evicted + b.tally.cleared
    && b.tally.due == b.tally.taken + b.coalesced + b.tally.withdrawn + (if b.publicationPending then 1 else 0)
    && b.tally.due <= |b.emitted| <= b.nextSequence
    && (forall i, j | 0 <= i < j < |b.emitted| :: b.emitted[i].sequence < b.emitted[j].sequence)
    && (forall i | 0 <= i < |b.emitted| :: b.emitted[i].sequence < b.nextSequence)
    && b.resetAt <= |b.emitted| && (b.reason.Some? ==> b.resetAt == |b.emitted|)
    && (forall i | b.resetAt < i < |b.emitted| :: b.emitted[i].reason.None?)
  }

  ghost predicate BoardOk(m: Model) {
    && m.config.Valid() && Retains(m.board, m.config.capacity) && Paced(m.board, m.config.publicationMillis)
    && Exact(m.board, m.config.publicationMillis) && Accounted(m.board)
  }

  /** A row numbered with the counter, which then moves on. */
  lemma RowAccounted(b: Board, config: Config, row: Row, micros: int)
    requires Accounted(b) && b.nextSequence < U64_MAX && row.sequence == b.nextSequence && row.reason == b.reason && config.Valid()
    ensures Accounted(MarkPublication(AddRow(b.(nextSequence := b.nextSequence + 1), config, row), config, micros))
  {
    var after := AddRow(b.(nextSequence := b.nextSequence + 1), config, row);
    assert |after.emitted| == |b.emitted| + 1;
    assert Accounted(after);
    hide AddRow;
  }

  lemma RowExact(b: Board, config: Config, row: Row)
    requires Exact(b, config.publicationMillis) && Paced(b, config.publicationMillis) && 0 <= row.startMicros <= I64_MAX
    ensures Exact(MarkPublication(AddRow(b, config, row), config, row.startMicros), config.publicationMillis)
  {
    PublishedInRange(b, config.publicationMillis);
    var added := AddRow(b, config, row);
    MarkDecides(added, config, row.startMicros);
    var since := b.emitted[b.resetAt..];
    assert added.emitted[b.resetAt..] == since + [row];
    hide Times, Due, Paced, MarkPublication, AddRow;
    DueSnoc(since, row, config.publicationMillis);
  }

  /** A mark publishes exactly the first time and those at least the cadence after the last. */
  lemma MarkDecides(b: Board, config: Config, micros: int)
    requires 0 <= micros <= I64_MAX && (b.published == [] <==> b.lastPublication.None?)
    requires b.published != [] ==>
               b.lastPublication == Some(b.published[|b.published| - 1]) && 0 <= b.lastPublication.value <= I64_MAX
    ensures var after := MarkPublication(b, config, micros);
            && after.emitted == b.emitted && after.resetAt == b.resetAt
            && after.published == if b.published == [] || micros - b.published[|b.published| - 1] >= 1_000 * config.publicationMillis
                                  then b.published + [micros] else b.published
  {
  }

  lemma PublishedInRange(b: Board, cadenceMillis: nat)
    requires Paced(b, cadenceMillis)
    ensures b.published == [] <==> b.lastPublication.None?
    ensures b.published != [] ==>
              b.lastPublication == Some(b.published[|b.published| - 1]) && 0 <= b.lastPublication.value <= I64_MAX
  {
    if b.published != [] { assert RowTime(b, b.published[|b.published| - 1]); }
  }

  lemma DueSnoc(rows: seq<Row>, row: Row, cadenceMillis: nat)
    ensures var before := Due(Times(rows), cadenceMillis);
            Due(Times(rows + [row]), cadenceMillis)
            == if before == [] || row.startMicros - before[|before| - 1] >= 1_000 * cadenceMillis
               then before + [row.startMicros] else before
  {
    assert (rows + [row])[..|rows|] == rows;
    var times := Times(rows + [row]);
    assert times == Times(rows) + [row.startMicros] && times[..|rows|] == Times(rows);
    hide Times;
  }

  lemma AddRowRetains(b: Board, config: Config, row: Row)
    requires config.Valid() && Retains(b, config.capacity)
    ensures Retains(AddRow(b, config, row), config.capacity)
  {
  }

  lemma RowTimeStays(b: Board, after: Board, time: int)
    requires RowTime(b, time) && b.emitted <= after.emitted && after.resetAt == b.resetAt
    ensures RowTime(after, time)
  {
    var i :| b.resetAt <= i < |b.emitted| && b.emitted[i].startMicros == time;
    assert after.emitted[i].startMicros == time;
  }

  /** Marking the row just added. */
  lemma MarkPaces(b: Board, config: Config, row: Row)
    requires Paced(b, config.publicationMillis) && 0 <= row.startMicros <= I64_MAX && b.resetAt <= |b.emitted|
    ensures Paced(MarkPublication(AddRow(b, config, row), config, row.startMicros), config.publicationMillis)
  {
    var after := MarkPublication(AddRow(b, config, row), config, row.startMicros);
    assert after.emitted == b.emitted + [row] && after.resetAt == b.resetAt;
    assert after.emitted[|b.emitted|].startMicros == row.startMicros;
    assert RowTime(after, row.startMicros);
    if b.published != [] { assert RowTime(b, b.published[|b.published| - 1]); }
    forall i | 0 <= i < |after.published|
      ensures RowTime(after, after.published[i])
    {
      if i < |b.published| { RowTimeStays(b, after, b.published[i]); }
    }
    hide RowTime;
  }

  lemma RowKeepsBoard(m: Model, source: Source)
    requires BoardOk(m) && |m.pending| >= m.config.fft
    ensures BoardOk(ProduceRow(m, source).0)
  {
    hide Micros, AddRow, MarkPublication, Retains, Paced, Exact, Accounted;
    MicrosMonotone(source.slotStartUtc, 0, m.start);
    var row := Row(m.board.nextSequence, source, m.start, Micros(source.slotStartUtc, m.start), m.board.reason,
                   m.pending[..m.config.fft]);
    if m.board.nextSequence < U64_MAX {
      var board := m.board.(nextSequence := m.board.nextSequence + 1);
      CounterIgnored(m.board, board, m.config);
      AddRowRetains(board, m.config, row);
      MarkKeepsRows(AddRow(board, m.config, row), m.config, row.startMicros);
      RowAccounted(m.board, m.config, row, row.startMicros);
      CountedOn(m.board, board, m.config);
      if row.startMicros <= I64_MAX {
        RetainsSince(board, m.config.capacity);
        MarkPaces(board, m.config, row);
        RowExact(board, m.config, row);
      }
    }
  }

  lemma CountedOn(b: Board, after: Board, config: Config)
    requires Accounted(b) && Exact(b, config.publicationMillis)
    requires b.nextSequence < U64_MAX && after == b.(nextSequence := b.nextSequence + 1)
    ensures Accounted(after) && Exact(after, config.publicationMillis)
  {
  }

  lemma RetainsSince(b: Board, capacity: nat)
    requires Retains(b, capacity)
    ensures b.resetAt <= |b.emitted|
  {
  }

  lemma CounterIgnored(b: Board, after: Board, config: Config)
    requires after == b.(nextSequence := after.nextSequence)
    ensures Retains(after, config.capacity) == Retains(b, config.capacity)
    ensures Paced(b, config.publicationMillis) ==> Paced(after, config.publicationMillis)
  {
    if Paced(b, config.publicationMillis) {
      forall i | 0 <= i < |after.published|
        ensures RowTime(after, after.published[i])
      {
        RowTimeStays(b, after, b.published[i]);
      }
    }
    hide RowTime;
  }

  lemma MarkKeepsRows(b: Board, config: Config, micros: int)
    ensures Retains(MarkPublication(b, config, micros), config.capacity) == Retains(b, config.capacity)
  {
  }

  lemma {:induction false} DrainKeepsBoard(m: Model, source: Source, produced: nat)
    requires BoardOk(m)
    ensures BoardOk(Drain(m, source, produced).0)
    decreases |m.pending|
  {
    hide BoardOk, ProduceRow;
    BoardConfig(m);
    if |m.pending| >= m.config.fft && produced < MAX_ROWS_PER_PUSH {
      RowKeepsBoard(m, source);
      RowShrinks(m, source);
      if ProduceRow(m, source).1 { DrainKeepsBoard(ProduceRow(m, source).0, source, produced + 1); }
    }
  }

  lemma BoardConfig(m: Model)
    requires BoardOk(m)
    ensures m.config.Valid()
  {
  }

  lemma NewBoard(config: ValidConfig)
    ensures BoardOk(NewModel(config))
  {
  }

  lemma ResetKeepsBoard(m: Model, reason: Reason)
    requires BoardOk(m)
    ensures BoardOk(Reset(m, reason))
  {
    assert m.board.emitted[|m.board.emitted|..] == [];
  }

  lemma PublishKeepsBoard(m: Model)
    requires BoardOk(m)
    ensures BoardOk(Publish(m).0)
  {
    var after := Publish(m).0;
    forall i | 0 <= i < |after.board.published|
      ensures RowTime(after.board, after.board.published[i])
    {
      RowTimeStays(m.board, after.board, m.board.published[i]);
    }
    hide RowTime;
  }

  /** The board does not depend on the samples and the cursor. */
  lemma BoardOnly(m: Model, after: Model)
    requires BoardOk(m) && after.board == m.board && after.config == m.config
    ensures BoardOk(after)
  {
  }

  lemma PrepareKeepsBoard(m: Model, c: Chunk)
    requires BoardOk(m)
    ensures BoardOk(Prepare(m, c).0)
  {
    var reset := if c.reason.Some? then Reset(m, c.reason.value) else m;
    if c.reason.Some? { ResetKeepsBoard(m, c.reason.value); }
    ResetKeepsBoard(reset, ProcessChanged);
    ResetKeepsBoard(reset, StreamChanged);
    ResetKeepsBoard(reset, TimelineBroken);
    BoardOnly(reset, reset.(pending := [], start := 0));
    hide BoardOk, Reset;
  }

  lemma PushKeepsBoard(m: Model, c: Chunk)
    requires BoardOk(m)
    ensures BoardOk(Push(m, c).0)
  {
    PrepareKeepsBoard(m, c);
    var ready := Prepare(m, c).0;
    BoardOnly(ready, Extend(ready, c));
    DrainKeepsBoard(Extend(ready, c), c.source, 0);
    var after := Drain(Extend(ready, c), c.source, 0).0;
    BoardOnly(after, after.(cursor := Some(Cursor(c.source, c.start + |c.samples|))));
    hide BoardOk, Prepare, Drain, Extend;
  }

  datatype Op = PushOp(chunk: Chunk) | ResetOp(reason: Reason) | PublishOp

  function ApplyOp(m: LiveModel, op: Op): LiveModel {
    match op
    case PushOp(c) =>
      PushKeepsConfig(m, c);
      Push(m, c).0
    case ResetOp(reason) => Reset(m, reason)
    case PublishOp => Publish(m).0
  }

  function RunOps(config: ValidConfig, ops: seq<Op>): LiveModel {
    if ops == [] then NewModel(config) else ApplyOp(RunOps(config, ops[..|ops| - 1]), ops[|ops| - 1])
  }

  /** In every run of pushes, failing ones included, resets and snapshots: the waterfall is the newest rows
      since the last reset up to the capacity; publications since then are exactly those due by the cadence; and
      every row and every publication is accounted for, so that no counter ever saturates. */
  lemma {:induction false} BoardAlways(config: ValidConfig, ops: seq<Op>)
    ensures BoardOk(RunOps(config, ops))
  {
    hide BoardOk, Push, Reset, Publish, NewModel;
    if ops == [] {
      NewBoard(config);
    } else {
      var (before, op) := (RunOps(config, ops[..|ops| - 1]), ops[|ops| - 1]);
      BoardAlways(config, ops[..|ops| - 1]);
      match op {
        case PushOp(c) => PushKeepsBoard(before, c);
        case ResetOp(reason) => ResetKeepsBoard(before, reason);
        case PublishOp => PublishKeepsBoard(before);
      }
    }
  }
}
