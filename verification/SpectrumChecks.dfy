/**
 What a spectrum configuration, a chunk and a row must satisfy, in the units of the source.
 */
module SpectrumChecks {
  import opened Numeric
  import opened Audio
  import opened Spectrum

  // ---------------------------------------------------------------------
  // Configurations
  // ---------------------------------------------------------------------

  lemma {:induction false} PowerVerdict(n: nat, p: nat)
    requires PowerOfTwo(p) && p <= n < 2 * p
    ensures PowerOfTwo(n) <==> n == p
    decreases p
  {
    if p > 1 && n % 2 == 0 {
      PowerVerdict(n / 2, p / 2);
    }
  }

  /** Transform lengths. */
  predicate Length(fft: nat) { fft == 256 || fft == 512 || fft == 1_024 || fft == 2_048 || fft == 4_096 }

  lemma LengthVerdict(fft: nat)
    ensures 256 <= fft <= 4_096 && PowerOfTwo(fft) <==> Length(fft)
  {
    assert PowerOfTwo(8) && PowerOfTwo(16) && PowerOfTwo(32) && PowerOfTwo(64) && PowerOfTwo(128) && PowerOfTwo(256);
    assert PowerOfTwo(512) && PowerOfTwo(1_024);
    assert PowerOfTwo(2_048) && PowerOfTwo(4_096);
    if 256 <= fft <= 4_096 {
      PowerVerdict(fft, if fft < 512 then 256 else if fft < 1_024 then 512 else if fft < 2_048 then 1_024 else if fft < 4_096 then 2_048 else 4_096);
    }
    hide PowerOfTwo;
  }

  /** Bin `k` of a transform of 12 kHz samples has its centre between the two frequencies. */
  predicate Inside(fft: nat, minHz: nat, maxHz: nat, k: nat) { minHz * fft <= 12_000 * k <= maxHz * fft }

  /** The bins inside are exactly `first` to `last`. */
  ghost predicate Passband(fft: nat, minHz: nat, maxHz: nat, first: nat, last: nat) {
    first <= last && forall k: nat :: first <= k <= last <==> Inside(fft, minHz, maxHz, k)
  }

  lemma BinEnds(fft: nat, minHz: nat, maxHz: nat, k: nat)
    ensures Inside(fft, minHz, maxHz, k) <==> CeilDiv(minHz * fft, 12_000) <= k <= Quotient(maxHz * fft, 12_000)
  {
    QuotientBound(minHz * fft + 11_999, 12_000, k + 1);
    QuotientBound(maxHz * fft, 12_000, k);
  }

  /** The checks in their order; an accepted configuration keeps exactly the bins inside the passband. */
  lemma ConfigVerdict(fft: nat, overlap: nat, minHz: nat, maxHz: nat, capacity: nat, publicationMillis: nat)
    ensures var r := NewConfig(fft, overlap, minHz, maxHz, capacity, publicationMillis);
            if !Length(fft) then r == Err(InvalidFftSize)
            else if 4 * overlap > 3 * fft then r == Err(InvalidOverlap)
            else if minHz >= maxHz || maxHz > 6_000 then r == Err(InvalidPassband)
            else if capacity < 1 || capacity > 120 then r == Err(InvalidRowCapacity)
            else if publicationMillis < 50 || publicationMillis > 2_000 then r == Err(InvalidPublicationCadence)
            else if forall k :: !Inside(fft, minHz, maxHz, k) then r == Err(InvalidPassband)
            else exists first: nat, last: nat ::
              && Passband(fft, minHz, maxHz, first, last)
              && r == if capacity * (16 * (last - first + 1) + 128) + 64 * fft > 2_097_152 then Err(MemoryBoundExceeded)
                      else Ok(Config(fft, overlap, first, last, capacity, publicationMillis))
  {
    hide NewConfig, Inside, CeilDiv, Quotient, Length;
    if Length(fft) && 4 * overlap <= 3 * fft && minHz < maxHz <= 6_000 && 1 <= capacity <= 120 && 50 <= publicationMillis <= 2_000 {
      var (first, last) := (CeilDiv(minHz * fft, 12_000), Quotient(maxHz * fft, 12_000));
      forall k: nat
        ensures Inside(fft, minHz, maxHz, k) <==> first <= k <= last
      {
        BinEnds(fft, minHz, maxHz, k);
      }
      BinsAccepted(fft, overlap, minHz, maxHz, capacity, publicationMillis, first, last);
      if first <= last {
        assert Inside(fft, minHz, maxHz, first);
        assert Passband(fft, minHz, maxHz, first, last);
      }
    } else {
      RefusedEarly(fft, overlap, minHz, maxHz, capacity, publicationMillis);
    }
  }

  lemma RefusedEarly(fft: nat, overlap: nat, minHz: nat, maxHz: nat, capacity: nat, publicationMillis: nat)
    ensures var r := NewConfig(fft, overlap, minHz, maxHz, capacity, publicationMillis);
            if !Length(fft) then r == Err(InvalidFftSize)
            else if 4 * overlap > 3 * fft then r == Err(InvalidOverlap)
            else if minHz >= maxHz || maxHz > 6_000 then r == Err(InvalidPassband)
            else if capacity < 1 || capacity > 120 then r == Err(InvalidRowCapacity)
            else publicationMillis < 50 || publicationMillis > 2_000 ==> r == Err(InvalidPublicationCadence)
  {
    LengthVerdict(fft);
    hide CeilDiv, Quotient, PowerOfTwo;
  }

  /** With everything else in order, the bins and the memory decide. */
  lemma BinsAccepted(
    fft: nat, overlap: nat, minHz: nat, maxHz: nat, capacity: nat, publicationMillis: nat, first: nat, last: nat)
    requires Length(fft) && 4 * overlap <= 3 * fft && minHz < maxHz <= 6_000
    requires 1 <= capacity <= 120 && 50 <= publicationMillis <= 2_000
    requires first == CeilDiv(minHz * fft, 12_000) && last == Quotient(maxHz * fft, 12_000)
    ensures NewConfig(fft, overlap, minHz, maxHz, capacity, publicationMillis)
         == if last < first then Err(InvalidPassband)
            else if capacity * (16 * (last - first + 1) + 128) + 64 * fft > 2_097_152 then Err(MemoryBoundExceeded)
            else Ok(Config(fft, overlap, first, last, capacity, publicationMillis))
  {
    LengthVerdict(fft);
    FewBins(fft, maxHz);
    RowsOfLargestChunk(fft - overlap);
    hide CeilDiv, Quotient, PowerOfTwo;
    if first <= last {
      assert (last - first + 1) * 16 + 128 == 16 * (last - first + 1) + 128;
    }
  }

  lemma FewBins(fft: nat, maxHz: nat)
    requires fft <= 4_096 && maxHz <= 6_000
    ensures Quotient(maxHz * fft, 12_000) <= 2_048
  {
    ProductMonotone(maxHz, 6_000, fft);
    QuotientBound(maxHz * fft, 12_000, 2_049);
  }

  // ---------------------------------------------------------------------
  // Chunks
  // ---------------------------------------------------------------------

  /** Nothing is left but the reason, the settings and the counters. */
  predicate Cleared(m: Model, after: Model, reason: Reason) {
    && after.pending == [] && after.cursor.None? && after.config == m.config
    && after.board.rows == [] && after.board.reason == Some(reason)
    && after.board.lastPublication.None? && !after.board.publicationPending
    && after.board.nextSequence == m.board.nextSequence
    && after.board.coalesced == m.board.coalesced && after.board.evicted == m.board.evicted
  }

  lemma ResetVerdict(m: Model, reason: Reason)
    ensures Cleared(m, Reset(m, reason), reason)
  {
  }

  /** A chunk clears the waterfall for its own reason, a new process, a new stream or a break in the slot; it keeps
      it as its continuation, or at the start of the next slot, where only the tail of the last one is dropped. */
  lemma PrepareVerdict(m: Model, c: Chunk)
    ensures var (after, ok) := Prepare(m, c);
            if c.reason.Some? then ok && Cleared(m, after, c.reason.value)
            else if m.cursor.None? then ok && after == m
            else
              var (last, slot) := (m.cursor.value, m.cursor.value.source.slotStartUtc);
              if last.source.process != c.source.process then ok && Cleared(m, after, ProcessChanged)
              else if last.source.stream != c.source.stream then ok && Cleared(m, after, StreamChanged)
              else if slot == c.source.slotStartUtc && last.next == c.start then ok && after == m
              else if slot > 0x7fff_ffff_ffff_ffff - 15_000 then !ok && after == m
              else if last.next == 180_000 && c.start == 0 && c.source.slotStartUtc == slot + 15_000 then
                ok && after == m.(pending := [], start := after.start)
              else ok && Cleared(m, after, TimelineBroken)
  {
  }

  // ---------------------------------------------------------------------
  // Rows
  // ---------------------------------------------------------------------

  /** Twelve samples take a millisecond; a row's time is rounded down to microseconds. */
  lemma TimeVerdict(slot: SlotStart, offset: nat)
    ensures var late := Micros(slot, offset) - 1_000 * slot;
            12 * late <= 1_000 * offset < 12 * (late + 1)
  {
    DivisionIdentity(offset * 1_000_000, OUTPUT_RATE_HZ);
  }

  /** A row holds its `fft` samples of the segment from where it starts. */
  lemma RowPlace(config: Config, g: Segment, j: nat, sequence: u64, reason: Option<Reason>)
    requires config.Valid() && j < RowCount(config, |g.samples|)
    ensures var (row, at) := (SegmentRow(config, g, j, sequence, reason), j * (config.fft - config.overlap));
            && 0 <= at && at + config.fft <= |g.samples|
            && row.source == g.source && row.start == g.origin + at && row.samples == g.samples[at..at + config.fft]
  {
    RowDue(config, |g.samples|, j);
    ProductMonotone(0, j, config.Hop());
    hide RowCount, Micros;
  }

  /** The next row begins with the last `overlap` samples of a row. */
  lemma RowVerdict(config: Config, g: Segment, j: nat, sequence: u64, reason: Option<Reason>)
    requires config.Valid() && j + 1 < RowCount(config, |g.samples|)
    ensures var (row, next) := (SegmentRow(config, g, j, sequence, reason), SegmentRow(config, g, j + 1, sequence, reason));
            && |row.samples| == |next.samples| == config.fft
            && next.start == row.start + config.fft - config.overlap
            && next.samples[..config.overlap] == row.samples[config.fft - config.overlap..]
  {
    RowPlace(config, g, j, sequence, reason);
    RowPlace(config, g, j + 1, sequence, reason);
    var hop := config.fft - config.overlap;
    ProductDifference(j + 1, j, hop);
    hide RowCount, SegmentRow;
    SlidOn(g.samples, j * hop, hop, config.fft);
  }

  lemma SlidOn(samples: seq<i16>, at: nat, hop: nat, fft: nat)
    requires hop <= fft && at + hop + fft <= |samples|
    ensures samples[at + hop..at + hop + fft][..fft - hop] == samples[at..at + fft][hop..]
  {
  }

  /** The first row begins with the segment. */
  lemma FirstRowVerdict(config: Config, g: Segment, sequence: u64, reason: Option<Reason>)
    requires config.Valid() && |g.samples| >= config.fft
    ensures RowCount(config, |g.samples|) > 0 && SegmentRow(config, g, 0, sequence, reason).start == g.origin
  {
    RowDue(config, |g.samples|, 0);
  }

  /** A snapshot is taken exactly when one is due; it shows the waterfall and leaves it as it is. */
  lemma PublishVerdict(m: Model)
    ensures var (after, snapshot) := Publish(m);
            && (snapshot.Some? <==> m.board.publicationPending) && !after.board.publicationPending
            && after == m.(board := m.board.(publicationPending := false, tally := after.board.tally))
            && (snapshot.Some? ==>
                  && snapshot.value.rows == m.board.rows && snapshot.value.config == m.config
                  && snapshot.value.coalesced == m.board.coalesced && snapshot.value.evicted == m.board.evicted)
  {
  }
}
