/**
 The spectrum object, which updates its deques and counters in place, proved against the functions of
 `Spectrum`.
 */
module SpectrumObject {
  import opened Numeric
  import opened Audio
  import opened Spectrum

  class SpectrumModel {
    const config: Config
    var pending: seq<i16>
    var start: nat
    var cursor: Option<Cursor>
    var rows: seq<Row>
    var reason: Option<Reason>
    var nextSequence: u64
    var lastPublication: Option<int>
    var publicationPending: bool
    var coalesced: u64
    var evicted: u64
    ghost var emitted: seq<Row>
    ghost var resetAt: nat
    ghost var published: seq<int>
    ghost var tally: Tally

    ghost function Abs(): Model
      reads this
    {
      Model(config, pending, start, cursor,
            Board(rows, nextSequence, reason, lastPublication, publicationPending, coalesced, evicted,
                  emitted, resetAt, published, tally))
    }

    constructor (config: Config)
      ensures Abs() == NewModel(config)
    {
      this.config := config;
      pending, start, cursor := [], 0, None;
      rows, reason, nextSequence := [], None, 0;
      lastPublication, publicationPending := None, false;
      coalesced, evicted := 0, 0;
      emitted, resetAt, published, tally := [], 0, [], Tally(0, 0, 0, 0);
    }

    method ResetModel(why: Reason)
      modifies this
      ensures Abs() == Reset(old(Abs()), why)
    {
      ghost var (was, counts) := (Abs(), Withdraw(Abs().board));
      assert Reset(was, why) == Model(config, [], start, None,
                                      Board([], nextSequence, Some(why), None, false, coalesced, evicted,
                                            emitted, |emitted|, [], counts));
      hide Withdraw, Reset;
      pending := [];
      cursor := None;
      rows := [];
      reason := Some(why);
      lastPublication := None;
      publicationPending := false;
      resetAt, published, tally := |emitted|, [], counts;
    }

    method PrepareChunk(c: Chunk) returns (ok: bool)
      modifies this
      ensures (Abs(), ok) == Prepare(old(Abs()), c)
    {
      if c.reason.Some? {
        ResetModel(c.reason.value);
      }
      if cursor.None? {
        return true;
      }
      var last := cursor.value;
      if last.source.process != c.source.process {
        ResetModel(ProcessChanged);
        return true;
      }
      if last.source.stream != c.source.stream {
        ResetModel(StreamChanged);
        return true;
      }
      if last.source.slotStartUtc == c.source.slotStartUtc && last.next == c.start {
        return true;
      }
      if !FitsI64(last.source.slotStartUtc + SLOT_MILLIS) {
        return false;
      }
      if last.next == WINDOW_SAMPLES && c.start == 0
         && c.source.slotStartUtc == last.source.slotStartUtc + SLOT_MILLIS
      {
        pending := [];
        start := 0;
        return true;
      }
      ResetModel(TimelineBroken);
      return true;
    }

    method Mark(micros: int)
      modifies this`coalesced, this`publicationPending, this`lastPublication, this`published, this`tally
      ensures Abs() == old(Abs()).(board := MarkPublication(old(Abs()).board, config, micros))
    {
      if lastPublication.None? || SaturatingSubI64(micros, lastPublication.value) >= config.publicationMillis * 1_000 {
        if publicationPending {
          coalesced := SaturatingAdd(coalesced, 1);
        }
        publicationPending := true;
        lastPublication := Some(micros);
        published := published + [micros];
        tally := tally.(due := tally.due + 1);
      }
    }

    /** Retains a row, evicting the oldest when full. */
    method Keep(row: Row)
      requires config.Valid()
      modifies this`rows, this`evicted, this`reason, this`emitted
      ensures Abs() == old(Abs()).(board := AddRow(old(Abs()).board, config, row))
    {
      if |rows| == config.capacity {
        rows := rows[1..];
        evicted := SaturatingAdd(evicted, 1);
      }
      rows := rows + [row];
      reason := None;
      emitted := emitted + [row];
    }

    method ProduceOne(source: Source) returns (ok: bool)
      requires config.Valid() && |pending| >= config.fft
      modifies this
      ensures (Abs(), ok) == ProduceRow(old(Abs()), source)
    {
      hide MarkPublication, Micros, AddRow;
      if nextSequence == U64_MAX {
        return false;
      }
      var sequence := nextSequence;
      nextSequence := nextSequence + 1;
      var micros := Micros(source.slotStartUtc, start);
      if !FitsI64(micros) {
        return false;
      }
      Keep(Row(sequence, source, start, micros, reason, pending[..config.fft]));
      Mark(micros);
      pending := pending[config.Hop()..];
      start := start + config.Hop();
      ok := true;
    }

    /** One bounded chunk; the result is the number of rows produced. */
    method PushChunk(c: Chunk) returns (r: Result<nat, SpectrumError>)
      requires config.Valid()
      modifies this
      ensures (Abs(), r) == Push(old(Abs()), c)
    {
      hide ProduceRow, Prepare;
      var ready := PrepareChunk(c);
      if !ready {
        return Err(SpectrumOverflow);
      }
      if pending == [] {
        start := c.start;
      }
      pending := pending + c.samples;
      ghost var full := Abs();
      var produced := 0;
      while |pending| >= config.fft
        invariant Drain(Abs(), c.source, produced) == Drain(full, c.source, 0)
        decreases |pending|
      {
        if produced >= MAX_ROWS_PER_PUSH {
          return Err(CpuBoundExceeded);
        }
        RowShrinks(Abs(), c.source);
        var ok := ProduceOne(c.source);
        if !ok {
          return Err(SpectrumOverflow);
        }
        produced := produced + 1;
      }
      cursor := Some(Cursor(c.source, c.start + |c.samples|));
      r := Ok(produced);
    }

    /** The latest rows, only when a publication is due; taking it clears the token. */
    method TakeSnapshot() returns (s: Option<Snapshot>)
      modifies this`publicationPending, this`tally
      ensures (Abs(), s) == Publish(old(Abs()))
    {
      if !publicationPending {
        return None;
      }
      publicationPending := false;
      tally := tally.(taken := tally.taken + 1);
      s := Some(Snapshot(config, rows, coalesced, evicted));
    }
  }
}
