/**
 The spectrum model's sliding window: which samples each waterfall row is computed from.

 A row carries the samples that enter its transform; the transform itself, a function of those
 samples, is not modelled.
 */
module Spectrum {
  import opened Numeric
  import opened Audio

  const MIN_FFT: nat := 256
  const MAX_FFT: nat := 4_096
  const MAX_ROWS: nat := 120
  const MAX_BINS: nat := 2_049
  const MAX_CHUNK: nat := 4_096

  /** No window has more rows than this. */
  const MAX_WINDOW_ROWS: nat := 4_096

  const MAX_ROWS_PER_PUSH: nat := 64
  const MAX_MODEL_BYTES: nat := 2_097_152

  datatype SpectrumError =
    | InvalidFftSize | InvalidOverlap | InvalidPassband | InvalidRowCapacity | InvalidPublicationCadence
    | CpuBoundExceeded | MemoryBoundExceeded | SpectrumOverflow

  datatype Reason = ProcessChanged | StreamChanged | TimelineBroken | ClockLost

  // ---------------------------------------------------------------------
  // Configuration
  // ---------------------------------------------------------------------

  datatype Config = Config(
    fft: nat, overlap: nat, firstBin: nat, lastBin: nat, capacity: nat, publicationMillis: nat)
  {
    function Hop(): int { fft - overlap }

    /** What the sliding window needs of a configuration. */
    predicate Valid() {
      MIN_FFT <= fft <= MAX_FFT && overlap <= fft * 3 / 4 && 1 <= capacity <= MAX_ROWS
    }
  }

  predicate PowerOfTwo(n: nat) { n == 1 || (n > 0 && n % 2 == 0 && PowerOfTwo(n / 2)) }

  function CeilDiv(a: nat, b: nat): nat
    requires b > 0
  {
    Quotient(a + b - 1, b)
  }

  function NewConfig(
    fft: nat, overlap: nat, minHz: nat, maxHz: nat, capacity: nat, publicationMillis: nat)
    : Result<Config, SpectrumError>
  {
    if !(MIN_FFT <= fft <= MAX_FFT) || !PowerOfTwo(fft) then Err(InvalidFftSize)
    else if overlap >= fft || overlap > fft * 3 / 4 then Err(InvalidOverlap)
    else if minHz >= maxHz || maxHz > OUTPUT_RATE_HZ / 2 then Err(InvalidPassband)
    else if !(1 <= capacity <= MAX_ROWS) then Err(InvalidRowCapacity)
    else if !(50 <= publicationMillis <= 2_000) then Err(InvalidPublicationCadence)
    else
      var firstBin := CeilDiv(minHz * fft, OUTPUT_RATE_HZ);
      var lastBin := Quotient(maxHz * fft, OUTPUT_RATE_HZ);
      if lastBin < firstBin || lastBin - firstBin + 1 > MAX_BINS then Err(InvalidPassband)
      else if CeilDiv(MAX_CHUNK, fft - overlap) > MAX_ROWS_PER_PUSH then Err(CpuBoundExceeded)
      else if capacity * ((lastBin - firstBin + 1) * 16 + 128) + fft * 64 > MAX_MODEL_BYTES then Err(MemoryBoundExceeded)
      else Ok(Config(fft, overlap, firstBin, lastBin, capacity, publicationMillis))
  }

  /** The overlap bound already keeps the work of one push within its limit, so that refusal is never
      the answer; the memory bound can still refuse. */
  lemma WorkBoundImplied(fft: nat, overlap: nat, minHz: nat, maxHz: nat, capacity: nat, publicationMillis: nat)
    ensures var r := NewConfig(fft, overlap, minHz, maxHz, capacity, publicationMillis);
            && r != Err(CpuBoundExceeded)
            && (r.Ok? ==> r.value.Valid() && r.value.Hop() >= 64 && r.value.firstBin <= r.value.lastBin <= fft / 2)
  {
    hide PowerOfTwo, CeilDiv;
    if MIN_FFT <= fft <= MAX_FFT && overlap <= fft * 3 / 4 && maxHz <= OUTPUT_RATE_HZ / 2 {
      RowsOfLargestChunk(fft - overlap);
      ProductMonotone(maxHz, OUTPUT_RATE_HZ / 2, fft);
    }
  }

  lemma RowsOfLargestChunk(hop: nat)
    requires hop >= 64
    ensures CeilDiv(MAX_CHUNK, hop) <= MAX_ROWS_PER_PUSH
  {
    QuotientBound(MAX_CHUNK + hop - 1, hop, 65);
    ProductMonotone(64, hop, 64);
  }

  // ---------------------------------------------------------------------
  // State
  // ---------------------------------------------------------------------

  /** Generations and slot that a chunk belongs to. */
  datatype Source = Source(process: Generation, stream: Generation, slotStartUtc: SlotStart)

  type SlotStart = x: i64 | x >= 0

  datatype Row = Row(
    sequence: u64, source: Source, start: nat, startMicros: int, reason: Option<Reason>, samples: seq<i16>)

  datatype RawChunk = Chunk(source: Source, start: nat, reason: Option<Reason>, samples: seq<i16>) {
    predicate Valid() {
      1 <= |samples| <= MAX_CHUNK && start + |samples| <= WINDOW_SAMPLES
    }
  }

  type Chunk = c: RawChunk | c.Valid() witness Chunk(Source(1, 1, 0), 0, None, [0])

  datatype Cursor = Cursor(source: Source, next: nat)

  /** Counts over the whole life of a model: publications that became due, those that were taken, those that a
      reset withdrew, and rows that a reset cleared. */
  datatype Tally = Tally(due: nat, taken: nat, withdrawn: nat, cleared: nat)

  /** The retained rows and their publication state.  The last four fields are specification-only
      history: all rows ever produced, how many of them before the last reset, the times of the
      publications since, and counts. */
  datatype Board = Board(
    rows: seq<Row>, nextSequence: u64, reason: Option<Reason>, lastPublication: Option<int>,
    publicationPending: bool, coalesced: u64, evicted: u64,
    emitted: seq<Row>, resetAt: nat, published: seq<int>, tally: Tally)

  datatype Model = Model(config: Config, pending: seq<i16>, start: nat, cursor: Option<Cursor>, board: Board) {
    predicate Valid() { config.Valid() && |pending| < config.fft }
  }

  type ValidConfig = c: Config | c.Valid() witness Config(MIN_FFT, 0, 0, 0, 1, 50)

  type LiveModel = m: Model | m.config.Valid() witness NewModel(Config(MIN_FFT, 0, 0, 0, 1, 50))

  /** What a consumer gets when a publication is due. */
  datatype Snapshot = Snapshot(config: Config, rows: seq<Row>, coalesced: u64, evicted: u64)

  /** Taking the snapshot clears the token. */
  function Publish(m: Model): (Model, Option<Snapshot>) {
    if !m.board.publicationPending then (m, None)
    else (m.(board := m.board.(publicationPending := false, tally := m.board.tally.(taken := m.board.tally.taken + 1))),
          Some(Snapshot(m.config, m.board.rows, m.board.coalesced, m.board.evicted)))
  }

  function NewModel(config: Config): Model {
    Model(config, [], 0, None, Board([], 0, None, None, false, 0, 0, [], 0, [], Tally(0, 0, 0, 0)))
  }

  function Reset(m: Model, reason: Reason): Model {
    m.(pending := [], cursor := None,
       board := m.board.(rows := [], reason := Some(reason), lastPublication := None, publicationPending := false,
                        resetAt := |m.board.emitted|, published := [], tally := Withdraw(m.board)))
  }

  function Withdraw(b: Board): Tally {
    b.tally.(withdrawn := b.tally.withdrawn + (if b.publicationPending then 1 else 0), cleared := b.tally.cleared + |b.rows|)
  }

  function Micros(slotStartUtc: SlotStart, offset: nat): int {
    slotStartUtc * 1_000 + Quotient(offset * 1_000_000, OUTPUT_RATE_HZ)
  }

  function SaturatingSubI64(a: int, b: int): int { Max(I64_MIN, Min(a - b, I64_MAX)) }

  function MarkPublication(b: Board, config: Config, micros: int): Board {
    if b.lastPublication.None? || SaturatingSubI64(micros, b.lastPublication.value) >= config.publicationMillis * 1_000
    then b.(coalesced := if b.publicationPending then SaturatingAdd(b.coalesced, 1) else b.coalesced,
            publicationPending := true, lastPublication := Some(micros), published := b.published + [micros],
            tally := b.tally.(due := b.tally.due + 1))
    else b
  }

  function AddRow(b: Board, config: Config, row: Row): Board {
    var full := |b.rows| == config.capacity;
    b.(rows := (if full && b.rows != [] then b.rows[1..] else b.rows) + [row],
       evicted := if full then SaturatingAdd(b.evicted, 1) else b.evicted,
       reason := None, emitted := b.emitted + [row])
  }

  /** One row from the front of the pending samples. */
  function ProduceRow(m: Model, source: Source): (Model, bool)
    requires m.config.Valid() && |m.pending| >= m.config.fft
  {
    if m.board.nextSequence == U64_MAX then (m, false)
    else
      var board := m.board.(nextSequence := m.board.nextSequence + 1);
      var micros := Micros(source.slotStartUtc, m.start);
      if !FitsI64(micros) then (m.(board := board), false)
      else
        var row := Row(m.board.nextSequence, source, m.start, micros, m.board.reason, m.pending[..m.config.fft]);
        (m.(board := MarkPublication(AddRow(board, m.config, row), m.config, micros),
            pending := m.pending[m.config.Hop()..], start := m.start + m.config.Hop()), true)
  }

  /** Rows while enough samples are pending. */
  function Drain(m: Model, source: Source, produced: nat): (Model, Result<nat, SpectrumError>)
    requires m.config.Valid()
    decreases |m.pending|
  {
    if |m.pending| < m.config.fft then (m, Ok(produced))
    else if produced >= MAX_ROWS_PER_PUSH then (m, Err(CpuBoundExceeded))
    else
      var (next, ok) := ProduceRow(m, source);
      if ok then Drain(next, source, produced + 1) else (next, Err(SpectrumOverflow))
  }

  /** Resets, or drops the tail of a finished slot, when the chunk does not continue the last one. */
  function Prepare(m: Model, c: Chunk): (Model, bool) {
    var m := if c.reason.Some? then Reset(m, c.reason.value) else m;
    if m.cursor.None? then (m, true)
    else
      var last := m.cursor.value;
      if last.source.process != c.source.process then (Reset(m, ProcessChanged), true)
      else if last.source.stream != c.source.stream then (Reset(m, StreamChanged), true)
      else if last.source.slotStartUtc == c.source.slotStartUtc && last.next == c.start then (m, true)
      else if !FitsI64(last.source.slotStartUtc + SLOT_MILLIS) then (m, false)
      else if last.next == WINDOW_SAMPLES && c.start == 0
              && c.source.slotStartUtc == last.source.slotStartUtc + SLOT_MILLIS
      then (m.(pending := [], start := 0), true)
      else (Reset(m, TimelineBroken), true)
  }

  function Extend(m: Model, c: Chunk): Model {
    m.(start := if m.pending == [] then c.start else m.start, pending := m.pending + c.samples)
  }

  function Push(m: Model, c: Chunk): (Model, Result<nat, SpectrumError>)
    requires m.config.Valid()
  {
    var (ready, ok) := Prepare(m, c);
    if !ok then (ready, Err(SpectrumOverflow))
    else
      var (after, r) := Drain(Extend(ready, c), c.source, 0);
      (if r.Ok? then after.(cursor := Some(Cursor(c.source, c.start + |c.samples|))) else after, r)
  }

  // ---------------------------------------------------------------------
  // Closed form
  // ---------------------------------------------------------------------

  /** Contiguous samples of one slot, from `origin` on. */
  datatype Segment = Segment(source: Source, origin: nat, samples: seq<i16>)

  /** Rows that `n` contiguous samples determine. */
  function RowCount(config: Config, n: nat): nat
    requires config.Valid()
  {
    if n < config.fft then 0 else Quotient(n - config.fft, config.Hop()) + 1
  }

  lemma RowDue(config: Config, n: nat, j: nat)
    requires config.Valid()
    ensures j < RowCount(config, n) <==> j * config.Hop() + config.fft <= n
  {
    if n >= config.fft {
      QuotientBound(n - config.fft, config.Hop(), j);
    } else {
      ProductMonotone(0, j, config.Hop());
    }
  }

  /** Row `j` of a segment starts `j` hops after its origin and is made of exactly the `fft` samples
      there. */
  function SegmentRow(config: Config, g: Segment, j: nat, sequence: u64, reason: Option<Reason>): Row
    requires config.Valid() && j < RowCount(config, |g.samples|)
  {
    RowDue(config, |g.samples|, j);
    var at := j * config.Hop();
    ProductMonotone(0, j, config.Hop());
    Row(sequence, g.source, g.origin + at, Micros(g.source.slotStartUtc, g.origin + at), reason,
        g.samples[at..at + config.fft])
  }

  /** Rows `from` up to `to` of a segment; the first carries the pending reset reason. */
  function SegmentRows(config: Config, g: Segment, from: nat, to: nat, sequence: nat, reason: Option<Reason>): seq<Row>
    requires config.Valid() && from <= to <= RowCount(config, |g.samples|) && sequence + (to - from) <= U64_MAX
    decreases RowCount(config, |g.samples|) - from
  {
    if from == to then []
    else [SegmentRow(config, g, from, sequence, reason)] + SegmentRows(config, g, from + 1, to, sequence + 1, None)
  }

  /** The pending samples are exactly the part of the segment that row `j` starts with. */
  predicate At(m: Model, g: Segment, j: nat) {
    && m.config.Valid()
    && 0 <= j * m.config.Hop() <= |g.samples|
    && m.pending == g.samples[j * m.config.Hop()..] && m.start == g.origin + j * m.config.Hop()
  }

  /** The model holds a segment whose due rows have all been produced; the cursor is its end. */
  predicate InStep(m: Model, g: Segment) {
    && m.config.Valid() && At(m, g, RowCount(m.config, |g.samples|))
    && m.cursor == Some(Cursor(g.source, g.origin + |g.samples|))
  }

  /** Every row numbered below `to` has a representable time. */
  predicate MicrosFit(config: Config, g: Segment, from: nat, to: nat)
    requires config.Valid()
  {
    if from < to then
      ProductMonotone(0, to - 1, config.Hop());
      FitsI64(Micros(g.source.slotStartUtc, g.origin + (to - 1) * config.Hop()))
    else true
  }

  lemma MicrosMonotone(slot: SlotStart, a: nat, b: nat)
    requires a <= b
    ensures 0 <= Micros(slot, a) <= Micros(slot, b)
  {
    DivisionIdentity(a * 1_000_000, OUTPUT_RATE_HZ);
    DivisionIdentity(b * 1_000_000, OUTPUT_RATE_HZ);
  }

  /** Whether the rows of a segment from `j` on can all be numbered and timed. */
  predicate RowsFit(config: Config, g: Segment, j: nat, nextSequence: nat)
    requires config.Valid() && j <= RowCount(config, |g.samples|)
  {
    var n := RowCount(config, |g.samples|);
    nextSequence + (n - j) <= U64_MAX && MicrosFit(config, g, j, n)
  }

  /** What producing every due row from row `j` on leaves behind. */
  ghost predicate Drained(m: Model, g: Segment, j: nat, after: Model)
    requires m.config.Valid() && j <= RowCount(m.config, |g.samples|) && RowsFit(m.config, g, j, m.board.nextSequence)
  {
    var n := RowCount(m.config, |g.samples|);
    && after.config == m.config && At(after, g, n) && after.cursor == m.cursor
    && after.board.nextSequence == m.board.nextSequence + (n - j)
    && after.board.reason == (if j < n then None else m.board.reason)
    && after.board.emitted == m.board.emitted + SegmentRows(m.config, g, j, n, m.board.nextSequence, m.board.reason)
  }

  lemma RowStep(m: Model, g: Segment, j: nat)
    requires At(m, g, j)
    ensures j < RowCount(m.config, |g.samples|) <==> |m.pending| >= m.config.fft
    ensures j < RowCount(m.config, |g.samples|) && ProduceRow(m, g.source).1 ==>
              var next := ProduceRow(m, g.source).0;
              && At(next, g, j + 1) && next.config == m.config && next.cursor == m.cursor
              && next.board.nextSequence == m.board.nextSequence + 1 && next.board.reason.None?
              && next.board.emitted
                 == m.board.emitted + [SegmentRow(m.config, g, j, m.board.nextSequence, m.board.reason)]
  {
    RowDue(m.config, |g.samples|, j);
    ProductStep(j, m.config.Hop());
    var at := j * m.config.Hop();
    if |m.pending| >= m.config.fft {
      assert m.pending[..m.config.fft] == g.samples[at..at + m.config.fft];
      assert m.pending[m.config.Hop()..] == g.samples[at + m.config.Hop()..];
    }
  }

  /** A row fails exactly when it cannot be numbered or timed; if it can, so can those before it. */
  lemma RowFits(m: Model, g: Segment, j: nat)
    requires At(m, g, j) && j < RowCount(m.config, |g.samples|)
    ensures |m.pending| >= m.config.fft
    ensures ProduceRow(m, g.source).1 ==>
              (RowsFit(m.config, g, j, m.board.nextSequence) <==> RowsFit(m.config, g, j + 1, m.board.nextSequence + 1))
    ensures !ProduceRow(m, g.source).1 ==>
              && !RowsFit(m.config, g, j, m.board.nextSequence)
              && (ProduceRow(m, g.source).0.board.nextSequence == U64_MAX
                  || !MicrosFit(m.config, g, j, RowCount(m.config, |g.samples|)))
    ensures !MicrosFit(m.config, g, j + 1, RowCount(m.config, |g.samples|)) ==>
              !MicrosFit(m.config, g, j, RowCount(m.config, |g.samples|))
  {
    RowStep(m, g, j);
    var n := RowCount(m.config, |g.samples|);
    ProductMonotone(j, n - 1, m.config.Hop());
    MicrosMonotone(g.source.slotStartUtc, g.origin + j * m.config.Hop(), g.origin + (n - 1) * m.config.Hop());
    hide Micros, AddRow, MarkPublication, RowCount;
  }

  lemma {:induction false} DrainClosed(m: Model, g: Segment, j: nat, produced: nat)
    requires At(m, g, j) && j <= RowCount(m.config, |g.samples|)
    requires produced + (RowCount(m.config, |g.samples|) - j) <= MAX_ROWS_PER_PUSH
    ensures var (after, r) := Drain(m, g.source, produced);
            if RowsFit(m.config, g, j, m.board.nextSequence)
            then r == Ok(produced + RowCount(m.config, |g.samples|) - j) && Drained(m, g, j, after)
            else r == Err(SpectrumOverflow) && after.config == m.config && |after.pending| >= m.config.fft
                 && after.cursor == m.cursor
                 && (after.board.nextSequence == U64_MAX || !MicrosFit(m.config, g, j, RowCount(m.config, |g.samples|)))
    decreases RowCount(m.config, |g.samples|) - j
  {
    hide RowCount, ProduceRow, SegmentRow, At, RowsFit, MicrosFit, Config.Valid;
    AtConfig(m, g, j);
    RowStep(m, g, j);
    if j < RowCount(m.config, |g.samples|) {
      RowFits(m, g, j);
      FailedRowKeepsPending(m, g.source);
      if ProduceRow(m, g.source).1 {
        DrainClosed(ProduceRow(m, g.source).0, g, j + 1, produced + 1);
        RowsFitNumbered(m.config, g, j, m.board.nextSequence);
      }
    } else {
      NothingDue(m.config, g, j, m.board.nextSequence);
    }
  }

  lemma AtConfig(m: Model, g: Segment, j: nat)
    requires At(m, g, j)
    ensures m.config.Valid()
  {
  }

  lemma NothingDue(config: Config, g: Segment, j: nat, sequence: u64)
    requires config.Valid() && j == RowCount(config, |g.samples|)
    ensures RowsFit(config, g, j, sequence)
  {
  }

  lemma RowsFitNumbered(config: Config, g: Segment, j: nat, sequence: nat)
    requires config.Valid() && j <= RowCount(config, |g.samples|)
    ensures RowsFit(config, g, j, sequence) ==> sequence + (RowCount(config, |g.samples|) - j) <= U64_MAX
  {
  }

  lemma FailedRowKeepsPending(m: Model, source: Source)
    requires m.config.Valid() && |m.pending| >= m.config.fft
    ensures !ProduceRow(m, source).1 ==>
              ProduceRow(m, source).0 == m.(board := ProduceRow(m, source).0.board)
  {
  }

  // ---------------------------------------------------------------------
  // One push
  // ---------------------------------------------------------------------

  /** What the model holds between pushes: nothing, or one segment whose due rows are out. */
  predicate Holds(m: Model, held: Option<Segment>) {
    match held
    case None => m.config.Valid() && m.cursor.None? && m.pending == []
    case Some(g) => InStep(m, g)
  }

  /** The chunk continues the held segment. */
  predicate Continues(held: Option<Segment>, c: Chunk) {
    && held.Some? && c.reason.None? && c.source == held.value.source
    && c.start == held.value.origin + |held.value.samples|
  }

  function NextSegment(held: Option<Segment>, c: Chunk): Segment {
    if Continues(held, c) then held.value.(samples := held.value.samples + c.samples)
    else Segment(c.source, c.start, c.samples)
  }

  /** Rows of the next segment that are already out. */
  function RowsOut(config: Config, held: Option<Segment>, c: Chunk): nat
    requires config.Valid()
  {
    if Continues(held, c) then RowCount(config, |held.value.samples|) else 0
  }

  lemma RowCountMonotone(config: Config, m: nat, n: nat)
    requires config.Valid() && m <= n
    ensures RowCount(config, m) <= RowCount(config, n)
  {
    if RowCount(config, m) > 0 {
      RowDue(config, m, RowCount(config, m) - 1);
      RowDue(config, n, RowCount(config, m) - 1);
    }
  }

  /** One chunk makes at most 64 rows due, so the run-time work limit is never reached. */
  lemma RowsPerChunk(config: Config, m: nat, n: nat)
    requires config.Valid() && m <= n <= m + MAX_CHUNK
    ensures RowCount(config, m) <= RowCount(config, n) <= RowCount(config, m) + MAX_ROWS_PER_PUSH
    ensures RowCount(config, MAX_CHUNK) <= MAX_ROWS_PER_PUSH
  {
    RowCountMonotone(config, m, n);
    var k := RowCount(config, m);
    var hop := config.Hop();
    assert hop >= 64;
    RowDue(config, m, k);
    RowDue(config, n, k + 64);
    ProductDifference(k + 64, k, hop);
    RowDue(config, MAX_CHUNK, 64);
  }

  lemma HeldPending(m: Model, held: Option<Segment>)
    requires Holds(m, held)
    ensures |m.pending| < m.config.fft
  {
    if held.Some? {
      RowDue(m.config, |held.value.samples|, RowCount(m.config, |held.value.samples|));
    }
  }

  /** Before the rows are produced, the pending samples are the tail of the next segment. */
  lemma ExtendHolds(m: Model, held: Option<Segment>, c: Chunk)
    requires Holds(m, held)
    ensures var (ready, ok) := Prepare(m, c);
            && ready.config == m.config
            && (ok ==> At(Extend(ready, c), NextSegment(held, c), RowsOut(m.config, held, c)))
            && (!ok ==> ready == m)
  {
    hide RowCount;
    var (ready, ok) := Prepare(m, c);
    if Continues(held, c) {
      var (g, k) := (held.value, RowCount(m.config, |held.value.samples|) * m.config.Hop());
      assert (g.samples + c.samples)[k..] == g.samples[k..] + c.samples;
    } else if ok {
      var nothing: seq<i16> := [];
      assert ready.pending + c.samples == c.samples;
      assert c.samples[0..] == c.samples;
    }
  }

  /** A push extends the segment the chunk continues, or begins a new one, and produces exactly the rows
      that this makes due.  It fails only when the slot after the last has no representable start or a
      due row cannot be numbered or timed. */
  lemma PushClosed(m: Model, held: Option<Segment>, c: Chunk)
    requires Holds(m, held)
    ensures var g := NextSegment(held, c);
            var from := RowsOut(m.config, held, c);
            var ready := Prepare(m, c).0;
            var (after, r) := Push(m, c);
            && from <= RowCount(m.config, |g.samples|)
            && if !Prepare(m, c).1 then r == Err(SpectrumOverflow) && after == m
               else if RowsFit(m.config, g, from, m.board.nextSequence) then
                 && r == Ok(RowCount(m.config, |g.samples|) - from)
                 && Holds(after, Some(g))
                 && after.board.nextSequence == m.board.nextSequence + RowCount(m.config, |g.samples|) - from
                 && after.board.reason == (if from < RowCount(m.config, |g.samples|) then None else ready.board.reason)
                 && after.board.emitted
                    == m.board.emitted
                       + SegmentRows(m.config, g, from, RowCount(m.config, |g.samples|), m.board.nextSequence, ready.board.reason)
               else r == Err(SpectrumOverflow) && |after.pending| >= m.config.fft
                    && (after.board.nextSequence == U64_MAX
                        || !MicrosFit(m.config, g, from, RowCount(m.config, |g.samples|)))
  {
    hide RowCount, Prepare, Drain, At, SegmentRows, RowsFit, MicrosFit, Extend, Config.Valid;
    var g := NextSegment(held, c);
    var from := RowsOut(m.config, held, c);
    ExtendHolds(m, held, c);
    PrepareKeepsHistory(m, c);
    RowsDue(m, held, c);
    if Prepare(m, c).1 {
      var full := Extend(Prepare(m, c).0, c);
      ExtendKeepsBoard(Prepare(m, c).0, c);
      DrainClosed(full, g, from, 0);
      if Drain(full, c.source, 0).1.Ok? {
        AtIgnoresCursor(Drain(full, c.source, 0).0, Some(Cursor(c.source, c.start + |c.samples|)), g);
      }
    }
  }

  lemma AtIgnoresCursor(m: Model, cursor: Option<Cursor>, g: Segment)
    requires m.config.Valid() && At(m, g, RowCount(m.config, |g.samples|))
    ensures At(m.(cursor := cursor), g, RowCount(m.config, |g.samples|))
  {
  }

  lemma ExtendKeepsBoard(m: Model, c: Chunk)
    ensures Extend(m, c).board == m.board && Extend(m, c).config == m.config
  {
  }

  lemma RowsDue(m: Model, held: Option<Segment>, c: Chunk)
    requires Holds(m, held)
    ensures m.config.Valid()
    ensures var from := RowsOut(m.config, held, c);
            from <= RowCount(m.config, |NextSegment(held, c).samples|) <= from + MAX_ROWS_PER_PUSH
  {
    hide RowCount, At;
    if Continues(held, c) {
      RowsPerChunk(m.config, |held.value.samples|, |NextSegment(held, c).samples|);
    } else {
      RowsPerChunk(m.config, 0, 0);
      RowCountMonotone(m.config, |c.samples|, MAX_CHUNK);
    }
  }

  lemma PrepareKeepsHistory(m: Model, c: Chunk)
    ensures var ready := Prepare(m, c).0;
            ready.board.emitted == m.board.emitted && ready.board.nextSequence == m.board.nextSequence
  {
  }

  /** No due row of the chunk fails. */
  predicate PushFits(m: Model, held: Option<Segment>, c: Chunk)
    requires Holds(m, held)
  {
    ExtendHolds(m, held, c);
    PushClosed(m, held, c);
    !Prepare(m, c).1 || RowsFit(m.config, NextSegment(held, c), RowsOut(m.config, held, c), m.board.nextSequence)
  }

  lemma PushOutcome(m: Model, held: Option<Segment>, c: Chunk)
    requires Holds(m, held)
    ensures var after := Push(m, c).0;
            if PushFits(m, held, c) then Holds(after, if Prepare(m, c).1 then Some(NextSegment(held, c)) else held)
            else |after.pending| >= after.config.fft
  {
    PushClosed(m, held, c);
    PushKeepsConfig(m, c);
    hide Push, RowsFit, RowCount, Prepare, SegmentRows;
  }

  lemma DrainKeepsConfig(m: Model, source: Source, produced: nat)
    requires m.config.Valid()
    ensures Drain(m, source, produced).0.config == m.config
    decreases |m.pending|
  {
    hide AddRow, MarkPublication, Micros;
    if |m.pending| >= m.config.fft && produced < MAX_ROWS_PER_PUSH && ProduceRow(m, source).1 {
      DrainKeepsConfig(ProduceRow(m, source).0, source, produced + 1);
    }
  }

  lemma PushKeepsConfig(m: Model, c: Chunk)
    requires m.config.Valid()
    ensures Push(m, c).0.config == m.config
  {
    hide Drain;
    DrainKeepsConfig(Extend(Prepare(m, c).0, c), c.source, 0);
  }

  /** The model stays in step, with some segment or none, exactly when no due row fails; after such a
      failure the samples of the failed chunk stay pending. */
  lemma InStepIffRowsFit(m: Model, held: Option<Segment>, c: Chunk)
    requires Holds(m, held)
    ensures (exists next :: Holds(Push(m, c).0, next)) <==> PushFits(m, held, c)
  {
    assert m.config.Valid();
    hide Push, PushFits, Prepare, Holds;
    PushOutcome(m, held, c);
    if exists next :: Holds(Push(m, c).0, next) {
      var next :| Holds(Push(m, c).0, next);
      HeldPending(Push(m, c).0, next);
    }
  }

  /** What then goes wrong: the next chunk, even of another slot, is appended to the stale samples.  Its
      first row is made of them alone and its second spans both chunks, under the new chunk's label. */
  lemma StaleRowAfterFailure(m: Model, c: Chunk, d: Chunk)
    requires Holds(m, None) && c.reason.None? && d.reason.None?
    requires |c.samples| == m.config.fft && |d.samples| >= m.config.Hop() && m.board.nextSequence < U64_MAX - 2
    requires !FitsI64(Micros(c.source.slotStartUtc, c.start))
    requires FitsI64(Micros(d.source.slotStartUtc, c.start + m.config.Hop()))
    ensures var (hop, n) := (m.config.Hop(), |m.board.emitted|);
            var emitted := Push(Push(m, c).0, d).0.board.emitted;
            && Push(m, c).1 == Err(SpectrumOverflow)
            && |emitted| >= n + 2 && emitted[n].source == emitted[n + 1].source == d.source
            && emitted[n].samples == c.samples
            && emitted[n + 1].samples == c.samples[hop..] + d.samples[..hop]
  {
    FailedChunkStays(m, c);
    var failed := Push(m, c).0;
    hide Push, Micros, ProduceRow, Drain;
    var (hop, ready) := (m.config.Hop(), Extend(failed, d));
    assert ready.pending == c.samples + d.samples;
    assert ready.pending[..m.config.fft] == c.samples;
    assert ready.pending[hop..][..m.config.fft] == c.samples[hop..] + d.samples[..hop];
    MicrosMonotone(d.source.slotStartUtc, c.start, c.start + hop);
    PushUncursored(failed, d);
    RowProduced(ready, d.source);
    var first := ProduceRow(ready, d.source).0;
    RowProduced(first, d.source);
    TwoRows(ready, d.source);
  }

  /** Without a cursor a chunk is appended to whatever is pending. */
  lemma PushUncursored(m: Model, c: Chunk)
    requires m.config.Valid() && m.cursor.None? && c.reason.None?
    ensures Push(m, c).0.board == Drain(Extend(m, c), c.source, 0).0.board
  {
    hide Drain;
  }

  lemma RowProduced(m: Model, source: Source)
    requires m.config.Valid() && |m.pending| >= m.config.fft && m.board.nextSequence < U64_MAX
    requires FitsI64(Micros(source.slotStartUtc, m.start))
    ensures var (next, ok) := ProduceRow(m, source);
            && ok && next.config == m.config && next.pending == m.pending[m.config.Hop()..]
            && next.start == m.start + m.config.Hop() && next.board.nextSequence == m.board.nextSequence + 1
            && |next.board.emitted| == |m.board.emitted| + 1 && m.board.emitted <= next.board.emitted
            && next.board.emitted[|m.board.emitted|].samples == m.pending[..m.config.fft]
            && next.board.emitted[|m.board.emitted|].source == source
  {
    hide Micros;
  }

  /** Two due rows that can be produced are the first two of the push. */
  lemma TwoRows(m: Model, source: Source)
    requires m.config.Valid() && |m.pending| >= m.config.fft && ProduceRow(m, source).1
    requires var first := ProduceRow(m, source).0;
             first.config == m.config && |first.pending| >= m.config.fft && ProduceRow(first, source).1
             && ProduceRow(first, source).0.config == m.config
    ensures ProduceRow(ProduceRow(m, source).0, source).0.board.emitted <= Drain(m, source, 0).0.board.emitted
  {
    hide ProduceRow;
    var first := ProduceRow(m, source).0;
    var second := ProduceRow(first, source).0;
    assert Drain(m, source, 0).0 == Drain(first, source, 1).0;
    assert Drain(first, source, 1).0 == Drain(second, source, 2).0;
    DrainExtends(second, source, 2);
  }

  lemma FailedChunkStays(m: Model, c: Chunk)
    requires Holds(m, None) && c.reason.None? && |c.samples| == m.config.fft && m.board.nextSequence < U64_MAX
    requires !FitsI64(Micros(c.source.slotStartUtc, c.start))
    ensures Push(m, c).1 == Err(SpectrumOverflow)
    ensures var failed := Push(m, c).0;
            && failed.pending == c.samples && failed.start == c.start && failed.cursor.None? && failed.config == m.config
            && failed.board == m.board.(nextSequence := m.board.nextSequence + 1)
  {
    assert m.pending + c.samples == c.samples;
  }

  lemma DrainExtends(m: Model, source: Source, produced: nat)
    requires m.config.Valid()
    ensures m.board.emitted <= Drain(m, source, produced).0.board.emitted
    decreases |m.pending|
  {
    if |m.pending| >= m.config.fft && produced < MAX_ROWS_PER_PUSH {
      var (next, ok) := ProduceRow(m, source);
      assert m.board.emitted <= next.board.emitted;
      hide ProduceRow;
      if ok { DrainExtends(next, source, produced + 1); }
    }
  }

  // ---------------------------------------------------------------------
  // Independence of the cuts
  // ---------------------------------------------------------------------

  function PushAll(m: Model, chunks: seq<Chunk>): Model
    requires m.config.Valid()
    ensures PushAll(m, chunks).config == m.config
  {
    if chunks == [] then m
    else
      var before := PushAll(m, chunks[..|chunks| - 1]);
      PushKeepsConfig(before, chunks[|chunks| - 1]);
      Push(before, chunks[|chunks| - 1]).0
  }

  function Joined(chunks: seq<Chunk>): seq<i16> {
    if chunks == [] then [] else Joined(chunks[..|chunks| - 1]) + chunks[|chunks| - 1].samples
  }

  /** The chunks are consecutive pieces of one slot, without a reset between them. */
  predicate OneRun(source: Source, origin: nat, chunks: seq<Chunk>) {
    forall i | 0 <= i < |chunks| ::
      && chunks[i].source == source && chunks[i].start == origin + |Joined(chunks[..i])|
      && (i > 0 ==> chunks[i].reason.None?)
  }

  lemma RowStable(config: Config, g: Segment, more: seq<i16>, j: nat, sequence: u64, reason: Option<Reason>)
    requires config.Valid() && j < RowCount(config, |g.samples|)
    ensures j < RowCount(config, |g.samples + more|)
    ensures SegmentRow(config, g.(samples := g.samples + more), j, sequence, reason)
         == SegmentRow(config, g, j, sequence, reason)
  {
    RowDue(config, |g.samples|, j);
    RowCountMonotone(config, |g.samples|, |g.samples + more|);
    ProductMonotone(0, j, config.Hop());
    var at := j * config.Hop();
    assert (g.samples + more)[at..at + config.fft] == g.samples[at..at + config.fft];
  }

  /** Rows already out, then the rows a longer segment adds, are the rows of the longer segment. */
  lemma {:induction false} RowsJoin(
    config: Config, g: Segment, more: seq<i16>, from: nat, k: nat, sequence: nat, reason: Option<Reason>)
    requires config.Valid() && from <= k == RowCount(config, |g.samples|)
    requires var n := RowCount(config, |g.samples + more|); k <= n && sequence + (n - from) <= U64_MAX
    ensures var all := g.(samples := g.samples + more);
            var n := RowCount(config, |all.samples|);
            SegmentRows(config, g, from, k, sequence, reason)
            + SegmentRows(config, all, k, n, sequence + (k - from), if from < k then None else reason)
            == SegmentRows(config, all, from, n, sequence, reason)
    decreases k - from
  {
    hide RowCount, SegmentRow;
    if from < k {
      RowStable(config, g, more, from, sequence, reason);
      RowsJoin(config, g, more, from + 1, k, sequence + 1, None);
    }
  }

  lemma PrepareContinues(m: Model, g: Segment, c: Chunk)
    requires Holds(m, Some(g)) && Continues(Some(g), c)
    ensures Prepare(m, c) == (m, true)
  {
  }

  /** The rows of the whole run from `j` on fit; then so do those of a part, and what remains. */
  lemma FitsPart(config: Config, g: Segment, more: seq<i16>, j: nat, sequence: nat)
    requires config.Valid() && j <= RowCount(config, |g.samples|) && j <= RowCount(config, |g.samples + more|)
    requires RowsFit(config, g.(samples := g.samples + more), j, sequence)
    ensures RowCount(config, |g.samples|) <= RowCount(config, |g.samples + more|)
    ensures RowsFit(config, g, j, sequence)
    ensures RowsFit(config, g.(samples := g.samples + more), RowCount(config, |g.samples|),
                    sequence + (RowCount(config, |g.samples|) - j))
  {
    RowCountMonotone(config, |g.samples|, |g.samples + more|);
    var (k, n) := (RowCount(config, |g.samples|), RowCount(config, |g.samples + more|));
    hide RowCount;
    if j < k {
      ProductMonotone(k - 1, n - 1, config.Hop());
      MicrosMonotone(g.source.slotStartUtc, g.origin + (k - 1) * config.Hop(), g.origin + (n - 1) * config.Hop());
    }
  }

  /** `after` holds the segment `g`, and the rows produced since `m` are exactly those of `g`. */
  ghost predicate WholeSegment(m: Model, reason: Option<Reason>, g: Segment, after: Model)
    requires m.config.Valid() && RowsFit(m.config, g, 0, m.board.nextSequence)
  {
    var n := RowCount(m.config, |g.samples|);
    && Holds(after, Some(g)) && after.config == m.config && after.board.nextSequence == m.board.nextSequence + n
    && after.board.reason == (if 0 < n then None else reason)
    && after.board.emitted == m.board.emitted + SegmentRows(m.config, g, 0, n, m.board.nextSequence, reason)
  }

  lemma SegmentGrows(m: Model, reason: Option<Reason>, g: Segment, middle: Model, c: Chunk)
    requires m.config.Valid() && RowsFit(m.config, g.(samples := g.samples + c.samples), 0, m.board.nextSequence)
    requires RowsFit(m.config, g, 0, m.board.nextSequence) && WholeSegment(m, reason, g, middle)
    requires Continues(Some(g), c)
    ensures WholeSegment(m, reason, g.(samples := g.samples + c.samples), Push(middle, c).0) && Push(middle, c).1.Ok?
  {
    hide RowCount, SegmentRows, Push, InStep, Prepare, RowsFit;
    FitsPart(m.config, g, c.samples, 0, m.board.nextSequence);
    PushKeepsConfig(middle, c);
    PushClosed(middle, Some(g), c);
    PrepareContinues(middle, g, c);
    RowsFitNumbered(m.config, g.(samples := g.samples + c.samples), 0, m.board.nextSequence);
    var k := RowCount(m.config, |g.samples|);
    RowsJoin(m.config, g, c.samples, 0, k, m.board.nextSequence, reason);
    SeqAssociative(m.board.emitted, SegmentRows(m.config, g, 0, k, m.board.nextSequence, reason), middle.board.emitted,
                   Push(middle, c).0.board.emitted,
                   SegmentRows(m.config, g.(samples := g.samples + c.samples), k,
                               RowCount(m.config, |g.samples + c.samples|), m.board.nextSequence + k,
                               if 0 < k then None else reason));
  }

  lemma SeqAssociative(start: seq<Row>, one: seq<Row>, middle: seq<Row>, end: seq<Row>, two: seq<Row>)
    requires middle == start + one && end == middle + two
    ensures end == start + (one + two)
  {
  }

  /**
   However one run of samples is cut into chunks, the rows are those of the whole run: they start at the
   origin, one hop apart, and each is made of exactly the samples at its offset.
   */
  lemma {:induction false} RowsIndependentOfCuts(
    m: Model, held: Option<Segment>, source: Source, origin: nat, chunks: seq<Chunk>)
    requires Holds(m, held) && chunks != [] && OneRun(source, origin, chunks)
    requires !Continues(held, chunks[0]) && Prepare(m, chunks[0]).1
    requires RowsFit(m.config, Segment(source, origin, Joined(chunks)), 0, m.board.nextSequence)
    ensures WholeSegment(m, Prepare(m, chunks[0]).0.board.reason, Segment(source, origin, Joined(chunks)), PushAll(m, chunks))
    ensures Push(PushAll(m, chunks[..|chunks| - 1]), chunks[|chunks| - 1]).1.Ok?
  {
    var k := |chunks| - 1;
    var (before, c) := (chunks[..k], chunks[k]);
    if before == [] {
      FirstChunk(m, held, source, origin, chunks);
    } else {
      var g := Segment(source, origin, Joined(before));
      FitsPart(m.config, g, c.samples, 0, m.board.nextSequence);
      OneRunPrefix(source, origin, chunks);
      RowsIndependentOfCuts(m, held, source, origin, before);
      hide RowCount, Push, RowsFit, Prepare, WholeSegment;
      SegmentGrows(m, Prepare(m, chunks[0]).0.board.reason, g, PushAll(m, before), c);
    }
  }

  lemma FirstChunk(m: Model, held: Option<Segment>, source: Source, origin: nat, chunks: seq<Chunk>)
    requires Holds(m, held) && |chunks| == 1 && OneRun(source, origin, chunks) && !Continues(held, chunks[0])
    ensures PushAll(m, chunks) == Push(m, chunks[0]).0
    ensures NextSegment(held, chunks[0]) == Segment(source, origin, Joined(chunks))
    ensures Prepare(m, chunks[0]).1 && RowsFit(m.config, Segment(source, origin, Joined(chunks)), 0, m.board.nextSequence) ==>
              && WholeSegment(m, Prepare(m, chunks[0]).0.board.reason, Segment(source, origin, Joined(chunks)), PushAll(m, chunks))
              && Push(PushAll(m, chunks[..0]), chunks[0]).1.Ok?
  {
    assert chunks[..0] == [];
    var nothing: seq<i16> := [];
    assert nothing + chunks[0].samples == chunks[0].samples;
    assert Joined(chunks) == chunks[0].samples;
    assert PushAll(m, chunks[..0]) == m;
    hide RowCount, SegmentRows, Push, RowsFit, InStep, Prepare;
    PushClosed(m, held, chunks[0]);
    PushKeepsConfig(m, chunks[0]);
  }

  lemma OneRunPrefix(source: Source, origin: nat, chunks: seq<Chunk>)
    requires |chunks| > 1 && OneRun(source, origin, chunks)
    ensures var k := |chunks| - 1;
            && OneRun(source, origin, chunks[..k])
            && chunks[k].reason.None? && chunks[k].source == source && chunks[k].start == origin + |Joined(chunks[..k])|
            && chunks[..k][0] == chunks[0]
  {
    hide Joined;
    var k := |chunks| - 1;
    forall i | 0 <= i < k
      ensures chunks[..k][..i] == chunks[..i]
    {
    }
  }

  // ---------------------------------------------------------------------
  // A whole window
  // ---------------------------------------------------------------------

  /** The chunks in which the coordinator passes a window on. */
  function CutWindow(source: Source, samples: seq<i16>): (chunks: seq<Chunk>)
    requires |samples| == WINDOW_SAMPLES
    ensures |chunks| == 44
  {
    seq<Chunk>(44, (i: nat) requires i < 44 => WindowChunk(source, samples, i))
  }

  function WindowChunk(source: Source, samples: seq<i16>, i: nat): Chunk
    requires |samples| == WINDOW_SAMPLES && i < 44
  {
    Chunk(source, i * MAX_CHUNK, None, samples[i * MAX_CHUNK..Min((i + 1) * MAX_CHUNK, WINDOW_SAMPLES)])
  }

  /** How many samples the first `i` chunks carry. */
  function CutEnd(i: nat): (n: nat)
    ensures n <= WINDOW_SAMPLES
  {
    Min(i * MAX_CHUNK, WINDOW_SAMPLES)
  }

  lemma {:induction false} CutJoins(source: Source, samples: seq<i16>, n: nat)
    requires |samples| == WINDOW_SAMPLES && n <= 44
    ensures Joined(CutWindow(source, samples)[..n]) == samples[..CutEnd(n)]
  {
    if n > 0 {
      CutJoins(source, samples, n - 1);
      var chunks := CutWindow(source, samples)[..n];
      assert chunks[..n - 1] == CutWindow(source, samples)[..n - 1];
    }
  }

  lemma CutIsOneRun(source: Source, samples: seq<i16>, n: nat)
    requires |samples| == WINDOW_SAMPLES && n <= 44
    ensures OneRun(source, 0, CutWindow(source, samples)[..n])
  {
    var chunks := CutWindow(source, samples)[..n];
    forall i | 0 <= i < n
      ensures chunks[i].start == |Joined(chunks[..i])|
    {
      CutJoins(source, samples, i);
      assert chunks[..i] == CutWindow(source, samples)[..i];
    }
  }

  /** While its rows can be numbered and timed, a window never fails, and its rows are those of its
      180,000 samples: they start with the slot, and none reaches into another slot. */
  lemma WindowRows(m: Model, held: Option<Segment>, source: Source, samples: seq<i16>, n: nat)
    requires |samples| == WINDOW_SAMPLES && Holds(m, held) && (held.Some? ==> held.value.source != source)
    requires Prepare(m, CutWindow(source, samples)[0]).1
    requires RowsFit(m.config, Segment(source, 0, samples), 0, m.board.nextSequence)
    requires 0 < n <= 44
    ensures var chunks := CutWindow(source, samples);
            var g := Segment(source, 0, samples[..CutEnd(n)]);
            && Push(PushAll(m, chunks[..n - 1]), chunks[n - 1]).1.Ok?
            && RowsFit(m.config, g, 0, m.board.nextSequence)
            && WholeSegment(m, Prepare(m, chunks[0]).0.board.reason, g, PushAll(m, chunks[..n]))
  {
    hide *;
    HeldConfig(m, held);
    FirstOfWindow(source, samples);
    var chunks := CutWindow(source, samples);
    CutIsOneRun(source, samples, n);
    CutJoins(source, samples, n);
    PartFits(m.config, source, samples, CutEnd(n), m.board.nextSequence);
    FirstChunks(chunks, n);
    NotContinued(held, chunks[0]);
    RowsIndependentOfCuts(m, held, source, 0, chunks[..n]);
  }

  lemma NotContinued(held: Option<Segment>, c: Chunk)
    requires held.Some? ==> held.value.source != c.source
    ensures !Continues(held, c)
  {
  }

  lemma PartFits(config: Config, source: Source, samples: seq<i16>, k: nat, sequence: nat)
    requires config.Valid() && k <= |samples| && RowsFit(config, Segment(source, 0, samples), 0, sequence)
    ensures RowsFit(config, Segment(source, 0, samples[..k]), 0, sequence)
  {
    hide RowsFit, RowCount;
    assert samples == samples[..k] + samples[k..];
    FitsPart(config, Segment(source, 0, samples[..k]), samples[k..], 0, sequence);
  }

  lemma FirstChunks(chunks: seq<Chunk>, n: nat)
    requires 0 < n <= |chunks|
    ensures var first := chunks[..n];
            first[0] == chunks[0] && first[..n - 1] == chunks[..n - 1] && first[n - 1] == chunks[n - 1]
  {
  }

  lemma HeldConfig(m: Model, held: Option<Segment>)
    requires Holds(m, held)
    ensures m.config.Valid()
  {
  }

  lemma FirstOfWindow(source: Source, samples: seq<i16>)
    requires |samples| == WINDOW_SAMPLES
    ensures CutWindow(source, samples)[0].source == source
  {
  }

  // ---------------------------------------------------------------------
  // The windows of a stream
  // ---------------------------------------------------------------------

  /** Pushes the chunks of a window from number `i` on, until one fails. */
  function PushWindow(m: LiveModel, source: Source, samples: seq<i16>, i: nat): (LiveModel, bool)
    requires |samples| == WINDOW_SAMPLES && i <= 44
    decreases 44 - i
  {
    PushKeepsConfig(m, WindowChunk(source, samples, if i < 44 then i else 0));
    if i == 44 then (m, true)
    else
      var pushed := Push(m, WindowChunk(source, samples, i));
      if pushed.1.Err? then (pushed.0, false) else PushWindow(pushed.0, source, samples, i + 1)
  }

  /** The model is in step, with nothing or with a slot no later than `last`. */
  ghost predicate Usable(m: LiveModel, last: int) {
    exists held :: Holds(m, held) && (held.Some? ==> held.value.source.slotStartUtc <= last)
  }

  /** No row of a slot after `last` can be numbered and timed. */
  predicate Broken(m: LiveModel, last: int) {
    m.board.nextSequence == U64_MAX || (last + SLOT_MILLIS) * 1_000 > I64_MAX
  }

  /** The part of a window that its first `i` chunks carry. */
  function WindowPart(source: Source, samples: seq<i16>, i: nat): Segment
    requires |samples| == WINDOW_SAMPLES
  {
    Segment(source, 0, samples[..CutEnd(i)])
  }

  lemma PartGrows(source: Source, samples: seq<i16>, i: nat)
    requires |samples| == WINDOW_SAMPLES && i < 44
    ensures WindowPart(source, samples, i + 1).samples
         == WindowPart(source, samples, i).samples + WindowChunk(source, samples, i).samples
    ensures WindowChunk(source, samples, i).start == |WindowPart(source, samples, i).samples|
  {
  }

  /** A row of the window that cannot be timed leaves no slot after it that could. */
  lemma UntimedBreaks(config: Config, g: Segment, from: nat)
    requires config.Valid() && g.origin == 0 && |g.samples| <= WINDOW_SAMPLES
    requires !MicrosFit(config, g, from, RowCount(config, |g.samples|))
    ensures (g.source.slotStartUtc + SLOT_MILLIS) * 1_000 > I64_MAX
  {
    var n := RowCount(config, |g.samples|);
    RowDue(config, |g.samples|, n - 1);
    var at := (n - 1) * config.Hop();
    ProductMonotone(0, n - 1, config.Hop());
    hide RowCount;
    assert at <= WINDOW_SAMPLES;
    MicrosMonotone(g.source.slotStartUtc, at, WINDOW_SAMPLES);
  }

  /** What one chunk of a window does to a model that holds the chunks before it. */
  ghost predicate ChunkEffect(m: LiveModel, source: Source, samples: seq<i16>, i: nat, from: nat)
    requires |samples| == WINDOW_SAMPLES && i < 44
  {
    var (after, r) := Push(m, WindowChunk(source, samples, i));
    var g := WindowPart(source, samples, i + 1);
    && from <= RowCount(m.config, |g.samples|)
    && (r.Ok? ==>
          && Holds(after, Some(g)) && after.config == m.config
          && after.board.nextSequence == m.board.nextSequence + RowCount(m.config, |g.samples|) - from)
    && (r.Err? ==> after.config == m.config && Broken(after, source.slotStartUtc))
    && (RowsFit(m.config, g, from, m.board.nextSequence) ==> r.Ok?)
  }

  lemma ChunkStep(m: LiveModel, held: Option<Segment>, source: Source, samples: seq<i16>, i: nat)
    requires |samples| == WINDOW_SAMPLES && i < 44 && Holds(m, held)
    requires Prepare(m, WindowChunk(source, samples, i)).1
    requires NextSegment(held, WindowChunk(source, samples, i)) == WindowPart(source, samples, i + 1)
    ensures ChunkEffect(m, source, samples, i, RowsOut(m.config, held, WindowChunk(source, samples, i)))
  {
    var c := WindowChunk(source, samples, i);
    var from := RowsOut(m.config, held, c);
    var g := WindowPart(source, samples, i + 1);
    PushClosed(m, held, c);
    PushKeepsConfig(m, c);
    hide Push, Prepare, RowCount, MicrosFit, SegmentRows, Holds, RowsOut, NextSegment, RowsFit;
    if !MicrosFit(m.config, g, from, RowCount(m.config, |g.samples|)) {
      UntimedBreaks(m.config, g, from);
    }
  }

  /** How pushing the rest of a window ends: with the whole window held, or broken for good; it holds if
      the remaining rows fit. */
  ghost predicate WindowEffect(m: LiveModel, source: Source, samples: seq<i16>, from: nat, result: (LiveModel, bool))
    requires |samples| == WINDOW_SAMPLES
  {
    var g := Segment(source, 0, samples);
    && result.0.config == m.config && from <= RowCount(m.config, WINDOW_SAMPLES)
    && (result.1 ==>
          && Holds(result.0, Some(g))
          && result.0.board.nextSequence == m.board.nextSequence + RowCount(m.config, WINDOW_SAMPLES) - from)
    && (!result.1 ==> Broken(result.0, source.slotStartUtc))
    && (RowsFit(m.config, g, from, m.board.nextSequence) ==> result.1)
  }

  /** One chunk that worked, then the rest. */
  lemma EffectsCompose(
    m: LiveModel, source: Source, samples: seq<i16>, i: nat, from: nat, middle: LiveModel, result: (LiveModel, bool))
    requires |samples| == WINDOW_SAMPLES && i < 44 && ChunkEffect(m, source, samples, i, from)
    requires Push(m, WindowChunk(source, samples, i)).1.Ok? && Push(m, WindowChunk(source, samples, i)).0 == middle
    requires WindowEffect(middle, source, samples, RowCount(m.config, CutEnd(i + 1)), result)
    ensures WindowEffect(m, source, samples, from, result)
  {
    var g := WindowPart(source, samples, i + 1);
    assert |g.samples| == CutEnd(i + 1);
    RowCountMonotone(m.config, CutEnd(i + 1), WINDOW_SAMPLES);
    assert samples == g.samples + samples[CutEnd(i + 1)..];
    hide Push, RowCount, RowsFit, Holds;
    if RowsFit(m.config, Segment(source, 0, samples), from, m.board.nextSequence) {
      FitsPart(m.config, g, samples[CutEnd(i + 1)..], from, m.board.nextSequence);
    }
  }

  /** One chunk that failed. */
  lemma RestFails(m: LiveModel, source: Source, samples: seq<i16>, i: nat, from: nat)
    requires |samples| == WINDOW_SAMPLES && i < 44 && ChunkEffect(m, source, samples, i, from)
    requires Push(m, WindowChunk(source, samples, i)).1.Err?
    ensures WindowEffect(m, source, samples, from, (Push(m, WindowChunk(source, samples, i)).0, false))
  {
    var g := WindowPart(source, samples, i + 1);
    assert |g.samples| == CutEnd(i + 1);
    RowCountMonotone(m.config, CutEnd(i + 1), WINDOW_SAMPLES);
    assert samples == g.samples + samples[CutEnd(i + 1)..];
    hide Push, RowCount, RowsFit, Holds;
    if RowsFit(m.config, Segment(source, 0, samples), from, m.board.nextSequence) {
      FitsPart(m.config, g, samples[CutEnd(i + 1)..], from, m.board.nextSequence);
    }
  }

  lemma {:induction false} WindowRest(m: LiveModel, source: Source, samples: seq<i16>, i: nat)
    requires |samples| == WINDOW_SAMPLES && 0 < i <= 44 && Holds(m, Some(WindowPart(source, samples, i)))
    ensures WindowEffect(m, source, samples, RowCount(m.config, CutEnd(i)), PushWindow(m, source, samples, i))
    decreases 44 - i
  {
    if i == 44 {
      assert samples[..CutEnd(44)] == samples;
    } else {
      var (g, c) := (WindowPart(source, samples, i), WindowChunk(source, samples, i));
      PartGrows(source, samples, i);
      PrepareContinues(m, g, c);
      ChunkStep(m, Some(g), source, samples, i);
      var pushed := Push(m, c);
      hide Push, RowCount, Prepare, Holds, RowsFit;
      if pushed.1.Ok? {
        WindowRest(pushed.0, source, samples, i + 1);
        EffectsCompose(m, source, samples, i, RowCount(m.config, CutEnd(i)), pushed.0, PushWindow(m, source, samples, i));
      } else {
        RestFails(m, source, samples, i, RowCount(m.config, CutEnd(i)));
      }
    }
  }

  /** A later window on a model in step: the whole window held, or the model broken for good. */
  lemma UsableWindow(m: LiveModel, last: int, source: Source, samples: seq<i16>)
    requires |samples| == WINDOW_SAMPLES && Usable(m, last) && source.slotStartUtc >= last + SLOT_MILLIS
    ensures WindowEffect(m, source, samples, 0, PushWindow(m, source, samples, 0))
  {
    var held :| Holds(m, held) && (held.Some? ==> held.value.source.slotStartUtc <= last);
    FirstChunkBegins(m, held, source, samples);
    ChunkStep(m, held, source, samples, 0);
    var pushed := Push(m, WindowChunk(source, samples, 0));
    hide Push, RowCount, Prepare, Holds, RowsFit;
    if pushed.1.Ok? {
      WindowRest(pushed.0, source, samples, 1);
      EffectsCompose(m, source, samples, 0, 0, pushed.0, PushWindow(m, source, samples, 0));
    } else {
      RestFails(m, source, samples, 0, 0);
    }
  }

  lemma FirstChunkBegins(m: LiveModel, held: Option<Segment>, source: Source, samples: seq<i16>)
    requires |samples| == WINDOW_SAMPLES && Holds(m, held)
    requires held.Some? ==> held.value.source.slotStartUtc + SLOT_MILLIS <= source.slotStartUtc
    ensures var c := WindowChunk(source, samples, 0);
            && Prepare(m, c).1 && NextSegment(held, c) == WindowPart(source, samples, 1) && RowsOut(m.config, held, c) == 0
  {
    hide RowCount, At;
  }

  /** Once broken, every later window fails, and the model stays broken. */
  lemma BrokenWindow(m: LiveModel, last: int, source: Source, samples: seq<i16>)
    requires |samples| == WINDOW_SAMPLES && Broken(m, last) && source.slotStartUtc >= last + SLOT_MILLIS
    ensures var (after, ok) := PushWindow(m, source, samples, 0); !ok && Broken(after, source.slotStartUtc)
  {
    var c := WindowChunk(source, samples, 0);
    var (ready, ok) := Prepare(m, c);
    PrepareKeepsHistory(m, c);
    assert ready.config == m.config;
    hide Prepare;
    MicrosMonotone(source.slotStartUtc, 0, Extend(ready, c).start);
    assert Micros(source.slotStartUtc, 0) == source.slotStartUtc * 1_000;
    hide Micros, AddRow, MarkPublication;
  }

  /** A window whose end is representable, on a model that has not counted to the end, fits. */
  lemma EarlyWindowFits(config: ValidConfig, source: Source, samples: seq<i16>, sequence: nat)
    requires |samples| == WINDOW_SAMPLES && sequence + MAX_WINDOW_ROWS <= U64_MAX
    requires (source.slotStartUtc + SLOT_MILLIS) * 1_000 <= I64_MAX
    ensures RowCount(config, WINDOW_SAMPLES) <= MAX_WINDOW_ROWS
    ensures RowsFit(config, Segment(source, 0, samples), 0, sequence)
  {
    var g := Segment(source, 0, samples);
    RowDue(config, WINDOW_SAMPLES, MAX_WINDOW_ROWS);
    ProductMonotone(64, config.Hop(), MAX_WINDOW_ROWS);
    if !MicrosFit(config, g, 0, RowCount(config, WINDOW_SAMPLES)) {
      UntimedBreaks(config, g, 0);
    }
    hide MicrosFit, RowCount;
  }

  lemma PublishKeeps(m: LiveModel)
    ensures Publish(m).0.config == m.config && Publish(m).0.board.nextSequence == m.board.nextSequence
    ensures forall held :: Holds(m, held) ==> Holds(Publish(m).0, held)
  {
    hide RowCount;
  }

  lemma ResetUsable(m: LiveModel, reason: Reason, last: int)
    ensures Reset(m, reason).config == m.config && Usable(Reset(m, reason), last)
    ensures Reset(m, reason).board.nextSequence == m.board.nextSequence
  {
    assert Holds(Reset(m, reason), None);
  }

  lemma NewUsable(config: ValidConfig, last: int)
    ensures Usable(NewModel(config), last)
  {
    assert Holds(NewModel(config), None);
  }

  /** Exhausting the row numbers breaks a model for good, but replacing it does not: the one way in which
      a window can be shown after an earlier one of its stream was not. */
  lemma ReplacementRestores(m: LiveModel, config: ValidConfig, last: int, source: Source, samples: seq<i16>)
    requires |samples| == WINDOW_SAMPLES && m.board.nextSequence == U64_MAX && source.slotStartUtc >= last + SLOT_MILLIS
    requires (source.slotStartUtc + SLOT_MILLIS) * 1_000 <= I64_MAX
    ensures !PushWindow(m, source, samples, 0).1 && PushWindow(NewModel(config), source, samples, 0).1
  {
    hide PushWindow;
    BrokenWindow(m, last, source, samples);
    NewUsable(config, last);
    UsableWindow(NewModel(config), last, source, samples);
    EarlyWindowFits(config, source, samples, 0);
  }

  lemma RowShrinks(m: Model, source: Source)
    requires m.config.Valid() && |m.pending| >= m.config.fft
    ensures ProduceRow(m, source).1 ==> |ProduceRow(m, source).0.pending| < |m.pending|
    ensures ProduceRow(m, source).0.config == m.config
  {
    hide Micros, AddRow, MarkPublication;
  }
}
