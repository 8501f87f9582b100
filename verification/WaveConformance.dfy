/**
 Exactly which byte strings decode, and to what, and the bytes an encoded buffer consists of.
 */
module WaveConformance {
  import opened Numeric
  import opened Audio
  import opened WaveFile

  // ---------------------------------------------------------------------
  // Bytes
  // ---------------------------------------------------------------------

  /** The four characters of `s` stand at offset `at`. */
  predicate Text(b: seq<byte>, at: nat, s: string)
    requires |s| == 4
  {
    && at + 4 <= |b|
    && b[at] == s[0] as int && b[at + 1] == s[1] as int && b[at + 2] == s[2] as int && b[at + 3] == s[3] as int
  }

  /** The low byte of `x` stands at offset `at`. */
  predicate Number16(b: seq<byte>, at: nat, x: int) {
    at + 2 <= |b| && x == (b[at] as int) + 0x100 * (b[at + 1] as int)
  }

  predicate Number32(b: seq<byte>, at: nat, x: int) {
    at + 4 <= |b| && x == (b[at] as int) + 0x100 * (b[at + 1] as int) + 0x1_0000 * (b[at + 2] as int) + 0x100_0000 * (b[at + 3] as int)
  }

  /** The 16-bit pattern of a sample in two's complement. */
  function Pattern(x: i16): int { if x < 0 then (x as int) + 0x1_0000 else x as int }

  /** Two bytes a sample. */
  predicate Samples(data: seq<byte>, samples: seq<i16>) {
    && |data| == 2 * |samples|
    && forall k | 0 <= k < |samples| :: Number16(data, 2 * k, Pattern(samples[k]))
  }

  lemma NumberRead(b: seq<byte>, at: nat)
    requires at + 2 <= |b|
    ensures Number16(b, at, ReadU16(b, at))
    ensures at + 4 <= |b| ==> Number32(b, at, ReadU32(b, at))
  {
  }

  lemma NumberWritten(x: u32, y: u16)
    ensures |LE32(x)| == 4 && Number32(LE32(x), 0, x) && |LE16(y)| == 2 && Number16(LE16(y), 0, y)
  {
  }

  lemma NumberLies(b: seq<byte>, at: nat, x: u32)
    requires Lies(b, at, LE32(x))
    ensures Number32(b, at, x)
  {
    ReadLying32(b, at, x);
    NumberRead(b, at);
  }

  lemma {:induction false} ParsedSamples(data: seq<byte>, n: nat)
    requires 2 * n <= |data|
    ensures Samples(data[..2 * n], Parsed(data, n))
  {
    if n > 0 {
      ParsedSamples(data, n - 1);
      var (before, all) := (Parsed(data, n - 1), Parsed(data, n));
      NumberRead(data, 2 * (n - 1));
      hide ReadU16;
      forall k | 0 <= k < n
        ensures Number16(data[..2 * n], 2 * k, Pattern(all[k]))
      {
        if k < n - 1 {
          assert all[k] == before[k];
          assert Number16(data[..2 * (n - 1)], 2 * k, Pattern(before[k]));
        } else {
          assert all[k] == SampleAt(data, 2 * k);
        }
      }
    }
  }

  /** The bytes determine the samples. */
  lemma SamplesUnique(data: seq<byte>, one: seq<i16>, two: seq<i16>)
    requires Samples(data, one) && Samples(data, two)
    ensures one == two
  {
    forall k | 0 <= k < |one|
      ensures one[k] == two[k]
    {
    }
  }

  // ---------------------------------------------------------------------
  // Chunks
  // ---------------------------------------------------------------------

  /** A format chunk of 16-bit integer samples with format `f`. */
  predicate IsFormat(p: seq<byte>, f: Format) {
    && |p| >= 16
    && Number16(p, 0, 1) && Number16(p, 2, f.channels) && Number32(p, 4, f.rate)
    && Number32(p, 8, 2 * f.channels * f.rate) && Number16(p, 12, 2 * f.channels) && Number16(p, 14, 16)
    && 1 <= f.channels <= 8 && 1 <= f.rate <= 384_000
  }

  /** The five fields agree with one another. */
  predicate Coherent(p: seq<byte>, channels: int, rate: int) {
    && Number16(p, 0, 1) && Number32(p, 8, 2 * channels * rate) && Number16(p, 12, 2 * channels) && Number16(p, 14, 16)
  }

  /** A format chunk is read exactly when it is one; otherwise it is too short, incoherent or out of range. */
  lemma FormatVerdict(p: seq<byte>)
    ensures var r := ParseFormat(p);
            && (forall f :: r == Ok(f) <==> IsFormat(p, f))
            && (|p| < 16 ==> r == Err(Truncated))
            && (forall channels, rate | |p| >= 16 && Number16(p, 2, channels) && Number32(p, 4, rate) ::
                  && (!Coherent(p, channels, rate) ==> r == Err(UnsupportedFormat))
                  && (Coherent(p, channels, rate) && !(1 <= channels <= 8 && 1 <= rate <= 384_000) ==> r == Err(InvalidPcm)))
  {
    if |p| >= 16 {
      NumberRead(p, 0);
      NumberRead(p, 2);
      NumberRead(p, 4);
      NumberRead(p, 8);
      NumberRead(p, 12);
      NumberRead(p, 14);
      assert ByteRate(ReadU32(p, 4), ReadU16(p, 2)) == 2 * ReadU16(p, 2) * ReadU32(p, 4);
      hide ReadU16, ReadU32, ByteRate;
    }
  }

  /** The chunks with a given identifier, in order. */
  function Tagged(chunks: seq<Chunk>, tag: string): seq<Chunk>
    requires |tag| == 4
  {
    if chunks == [] then [] else (if Text(chunks[0].id, 0, tag) then [chunks[0]] else []) + Tagged(chunks[1..], tag)
  }

  lemma Tags(id: seq<byte>)
    requires |id| == 4
    ensures (id == FMT <==> Text(id, 0, "fmt ")) && (id == DATA <==> Text(id, 0, "data"))
    ensures !(Text(id, 0, "fmt ") && Text(id, 0, "data"))
  {
  }

  /** The format known after chunks of which `tagged` are format chunks. */
  ghost predicate FormatGathered(had: Option<Format>, tagged: seq<Chunk>, now: Option<Format>) {
    if tagged == [] then now == had
    else had.None? && |tagged| == 1 && now.Some? && IsFormat(tagged[0].payload, now.value)
  }

  ghost predicate DataGathered(had: Option<seq<byte>>, tagged: seq<Chunk>, now: Option<seq<byte>>) {
    if tagged == [] then now == had else had.None? && |tagged| == 1 && now == Some(tagged[0].payload)
  }

  /** One chunk is refused as a duplicate, for its format, or taken. */
  lemma TakeVerdict(parts: Parts, c: Chunk)
    ensures var r := TakeChunk(parts, c.id, c.payload);
            if Text(c.id, 0, "fmt ") then
              if parts.format.Some? then r == Err(MissingOrDuplicateChunk)
              else (forall f :: IsFormat(c.payload, f) <==> r == Ok(parts.(format := Some(f))))
                   && (r.Ok? <==> exists f :: IsFormat(c.payload, f))
                   && (r.Err? ==> ParseFormat(c.payload) == Err(r.error))
            else if Text(c.id, 0, "data") then
              if parts.data.Some? then r == Err(MissingOrDuplicateChunk) else r == Ok(parts.(data := Some(c.payload)))
            else r == Ok(parts)
  {
    Tags(c.id);
    FormatVerdict(c.payload);
    hide ParseFormat, IsFormat, Text;
    var r := TakeChunk(parts, c.id, c.payload);
    if c.id == FMT && parts.format.None? && r.Ok? {
      assert IsFormat(c.payload, ParseFormat(c.payload).value);
    }
  }

  /** Chunks are gathered exactly when there is no second format or data chunk and the format is one. */
  lemma {:induction false} MeaningVerdict(parts: Parts, chunks: seq<Chunk>, after: Parts)
    requires FormatValid(parts)
    ensures Meaning(parts, chunks) == Ok(after) <==>
              && FormatGathered(parts.format, Tagged(chunks, "fmt "), after.format)
              && DataGathered(parts.data, Tagged(chunks, "data"), after.data)
    decreases |chunks|
  {
    if chunks != [] {
      var c := chunks[0];
      TakeVerdict(parts, c);
      Tags(c.id);
      MeaningThrough(parts, chunks);
      var taken := TakeChunk(parts, c.id, c.payload);
      hide TakeChunk, IsFormat, Text, Meaning, FormatValid;
      if taken.Ok? {
        MeaningVerdict(taken.value, chunks[1..], after);
      }
    }
  }

  /** The samples of the data chunk must be whole frames, and not too many. */
  lemma FinishVerdict(parts: Parts, p: PcmBuffer)
    requires FormatValid(parts)
    ensures Finish(parts) == Ok(p) <==>
              && parts.format == Some(p.format) && parts.data.Some? && Samples(parts.data.value, p.samples)
              && |p.samples| <= 24_000_000 && |p.samples| % p.format.channels == 0
    ensures (parts.format.None? || parts.data.None?) ==> Finish(parts) == Err(MissingOrDuplicateChunk)
    ensures parts.format.Some? && parts.data.Some? ==>
              var n := |parts.data.value|;
              if n % 2 == 1 || n > 48_000_000 then Finish(parts) == Err(FileTooLarge)
              else if n / 2 % parts.format.value.channels != 0 then Finish(parts) == Err(InvalidPcm)
              else Finish(parts).Ok?
  {
    if parts.format.Some? && parts.data.Some? {
      var data := parts.data.value;
      if |data| % 2 == 0 {
        var n := |data| / 2;
        ParsedSamples(data, n);
        assert data[..2 * n] == data;
        if Samples(data, p.samples) {
          SamplesUnique(data, p.samples, Parsed(data, n));
        }
        hide Parsed, Samples;
      }
    }
  }

  // ---------------------------------------------------------------------
  // Files
  // ---------------------------------------------------------------------

  /** The layout of a file: tags, the RIFF size and the chunks, each with its size. */
  ghost predicate IsFile(b: seq<byte>, chunks: seq<Chunk>) {
    && Text(b, 0, "RIFF") && Text(b, 8, "WAVE") && Number32(b, 4, 4 + |Body(chunks)|)
    && 12 + |Body(chunks)| <= |b| && b[12..12 + |Body(chunks)|] == Body(chunks)
  }

  /** A chunk is its identifier, its size, its payload and a filler byte after an odd one. */
  lemma LayoutVerdict(c: Chunk)
    ensures var b := Layout(c);
            && |b| == 8 + |c.payload| + |c.payload| % 2
            && b[..4] == c.id && Number32(b, 4, |c.payload|) && b[8..8 + |c.payload|] == c.payload
  {
    NumberWritten(|c.payload|, 0);
    var b := Layout(c);
    hide LE32;
    assert b[4] == LE32(|c.payload|)[0] && b[5] == LE32(|c.payload|)[1];
    assert b[6] == LE32(|c.payload|)[2] && b[7] == LE32(|c.payload|)[3];
  }

  lemma HeaderTags(b: seq<byte>)
    requires |b| >= 12
    ensures (b[..4] == RIFF <==> Text(b, 0, "RIFF")) && (b[8..12] == WAVE <==> Text(b, 8, "WAVE"))
  {
    var (riff, wave) := (b[..4], b[8..12]);
    assert riff[0] == b[0] && riff[1] == b[1] && riff[2] == b[2] && riff[3] == b[3];
    assert wave[0] == b[8] && wave[1] == b[9] && wave[2] == b[10] && wave[3] == b[11];
  }

  /** Whatever a scan took in was laid out as chunks. */
  lemma {:induction false} ScannedChunks(b: seq<byte>, size: nat, at: nat, parts: Parts) returns (chunks: seq<Chunk>)
    requires at <= size <= |b| && FormatValid(parts) && Scan(b, size, at, parts).Ok?
    ensures b[at..size] == Body(chunks) && Meaning(parts, chunks) == Scan(b, size, at, parts)
    decreases size - at
  {
    hide TakeChunk, ReadU32, ReadChunk, Layout, Meaning, Body, Scan;
    if at == size {
      chunks := [];
      NothingSaid(chunks, parts);
      ScanNothing(b, at, chunks, parts);
    } else {
      var c, next := ReadWhole(b, size, at, parts);
      var rest := ScannedChunks(b, size, next, TakeChunk(parts, c.id, c.payload).value);
      chunks := [c] + rest;
      assert chunks[0] == c && chunks[1..] == rest;
      MeaningThrough(parts, chunks);
      BodyFirst(chunks);
      assert b[at..size] == b[at..next] + b[next..size];
    }
  }

  lemma BodyFirst(chunks: seq<Chunk>)
    requires chunks != []
    ensures Body(chunks) == Layout(chunks[0]) + Body(chunks[1..])
  {
  }

  /** A scan that goes on has read a whole chunk. */
  lemma ReadWhole(b: seq<byte>, size: nat, at: nat, parts: Parts) returns (c: Chunk, next: nat)
    requires at < size <= |b| && FormatValid(parts) && Scan(b, size, at, parts).Ok?
    ensures at < next <= size && b[at..next] == Layout(c)
    ensures var taken := TakeChunk(parts, c.id, c.payload);
            taken.Ok? && FormatValid(taken.value) && Scan(b, size, at, parts) == Scan(b, size, next, taken.value)
  {
    hide TakeChunk, ReadU32;
    var length := ReadU32(b, at + 4);
    next := at + 8 + length + length % 2;
    c := Chunk(b[at..at + 4], b[at + 8..at + 8 + length], if length % 2 == 1 then b[at + 8 + length] else 0);
    ReadIsLayout(b, at, next, c);
  }

  lemma ReadIsLayout(b: seq<byte>, at: nat, next: nat, c: Chunk)
    requires next <= |b| && next == at + 8 + |c.payload| + |c.payload| % 2
    requires b[at..at + 4] == c.id && ReadU32(b, at + 4) == |c.payload| && b[at + 8..at + 8 + |c.payload|] == c.payload
    requires |c.payload| % 2 == 1 ==> b[at + 8 + |c.payload|] == c.pad
    ensures b[at..next] == Layout(c)
  {
    var n := |c.payload|;
    Rewritten(b, at + 4);
    hide LE32, ReadU32;
    var pad: seq<byte> := if n % 2 == 1 then [c.pad] else [];
    assert b[at + 8 + n..next] == pad;
    Quarters(b, at, at + 4, at + 8, at + 8 + n, next);
  }

  lemma Quarters(b: seq<byte>, i: nat, j: nat, k: nat, l: nat, m: nat)
    requires i <= j <= k <= l <= m <= |b|
    ensures b[i..m] == b[i..j] + b[j..k] + b[k..l] + b[l..m]
  {
    assert b[i..m] == b[i..l] + b[l..m];
    assert b[i..l] == b[i..k] + b[k..l];
    assert b[i..k] == b[i..j] + b[j..k];
  }

  lemma Rewritten(b: seq<byte>, at: nat)
    requires at + 4 <= |b|
    ensures LE32(ReadU32(b, at)) == b[at..at + 4]
  {
    var (low, high) := (ReadU16(b, at), ReadU16(b, at + 2));
    assert ReadU32(b, at) % 65_536 == low && ReadU32(b, at) / 65_536 == high;
    assert LE16(low) == b[at..at + 2] && LE16(high) == b[at + 2..at + 4];
    assert b[at..at + 4] == b[at..at + 2] + b[at + 2..at + 4];
  }

  /** The header decides first: too short, wrong tags, a size beyond the bytes, a size below the header. */
  lemma HeaderVerdict(b: seq<byte>, declared: int)
    requires |b| >= 8 ==> Number32(b, 4, declared)
    ensures |b| < 12 ==> Decode(b) == Err(Truncated)
    ensures |b| >= 12 && !(Text(b, 0, "RIFF") && Text(b, 8, "WAVE")) ==> Decode(b) == Err(InvalidStructure)
    ensures |b| >= 12 && Text(b, 0, "RIFF") && Text(b, 8, "WAVE") && declared + 8 > |b| ==> Decode(b) == Err(Truncated)
    ensures |b| >= 12 && Text(b, 0, "RIFF") && Text(b, 8, "WAVE") && declared < 4 ==> Decode(b) == Err(InvalidStructure)
  {
    if |b| >= 12 {
      HeaderTags(b);
      NumberRead(b, 4);
      hide Text, ReadU32, Scan;
    }
  }

  /** What an accepted file says: one format chunk, one data chunk, whole frames. */
  ghost predicate Says(chunks: seq<Chunk>, p: Pcm) {
    var (formats, data) := (Tagged(chunks, "fmt "), Tagged(chunks, "data"));
    && |formats| == 1 && |data| == 1
    && IsFormat(formats[0].payload, p.format) && Samples(data[0].payload, p.samples)
    && |p.samples| <= 24_000_000 && |p.samples| % p.format.channels == 0
  }

  /** Bytes decode to a buffer exactly when they are laid out as a file whose chunks say that buffer. */
  lemma DecodesExactly(b: seq<byte>, p: PcmBuffer)
    ensures Decode(b) == Ok(p) <==> exists chunks :: IsFile(b, chunks) && Says(chunks, p)
  {
    if Decode(b) == Ok(p) {
      AcceptedFile(b, p);
    }
    if chunks :| IsFile(b, chunks) && Says(chunks, p) {
      FileDecodes(b, chunks, p);
    }
  }

  lemma AcceptedFile(b: seq<byte>, p: PcmBuffer)
    requires Decode(b) == Ok(p)
    ensures exists chunks :: IsFile(b, chunks) && Says(chunks, p)
  {
    HeaderTags(b);
    NumberRead(b, 4);
    hide ReadU32, Text, Finish, Scan;
    var (start, size) := (Parts(None, None), ReadU32(b, 4) + 8);
    var after := Scan(b, size, 12, start).value;
    var chunks := ScannedChunks(b, size, 12, start);
    MeaningVerdict(start, chunks, after);
    FinishVerdict(after, p);
    hide Samples, IsFormat, Tagged, Body;
    assert IsFile(b, chunks) && Says(chunks, p);
  }

  lemma FileDecodes(b: seq<byte>, chunks: seq<Chunk>, p: PcmBuffer)
    requires IsFile(b, chunks) && Says(chunks, p)
    ensures Decode(b) == Ok(p)
  {
    FileHeader(b, chunks);
    var start := Parts(None, None);
    var after := Parts(Some(p.format), Some(Tagged(chunks, "data")[0].payload));
    MeaningVerdict(start, chunks, after);
    hide ReadU32, Finish, Scan, Samples, IsFormat, Tagged, Body, IsFile, Lies;
    ScanBody(b, 12, chunks, start);
    FinishVerdict(after, p);
  }

  lemma FileHeader(b: seq<byte>, chunks: seq<Chunk>)
    requires IsFile(b, chunks)
    ensures |b| >= 12 && b[..4] == RIFF && b[8..12] == WAVE
    ensures ReadU32(b, 4) + 8 == 12 + |Body(chunks)| <= |b| && Lies(b, 12, Body(chunks))
  {
    HeaderTags(b);
    NumberRead(b, 4);
    hide Body, Text, ReadU32;
  }

  /** Chunks at the front of what is left are taken in, then the scan goes on behind them. */
  lemma {:induction false} ScanFront(b: seq<byte>, size: nat, at: nat, chunks: seq<Chunk>, parts: Parts)
    requires FormatValid(parts) && Lies(b, at, Body(chunks)) && at + |Body(chunks)| <= size <= |b|
    ensures Scan(b, size, at, parts)
         == match Meaning(parts, chunks) case Err(e) => Err(e) case Ok(q) => Scan(b, size, at + |Body(chunks)|, q)
    decreases |chunks|
  {
    hide Layout, TakeChunk, Body, Lies, Scan, Meaning;
    if chunks == [] {
      NothingSaid(chunks, parts);
    } else {
      var c := chunks[0];
      BodySplit(b, at, chunks);
      MeaningThrough(parts, chunks);
      var taken := TakeChunk(parts, c.id, c.payload);
      ScanThrough(b, size, at, c, parts);
      if taken.Ok? {
        ScanFront(b, size, at + |Layout(c)|, chunks[1..], taken.value);
      }
    }
  }

  lemma NothingSaid(chunks: seq<Chunk>, parts: Parts)
    requires chunks == [] && FormatValid(parts)
    ensures Body(chunks) == [] && Meaning(parts, chunks) == Ok(parts)
  {
  }

  /** The bytes `rest` begin no whole chunk: its header or its payload is cut off. */
  predicate CutOff(rest: seq<byte>) {
    rest != [] && (|rest| < 8 || exists n | 0 <= n <= U32_MAX :: Number32(rest, 4, n) && 8 + n > |rest|)
  }

  /** The bytes declare chunks followed by `rest`. */
  ghost predicate Declares(b: seq<byte>, chunks: seq<Chunk>, rest: seq<byte>) {
    var size := |Body(chunks)| + |rest|;
    && Text(b, 0, "RIFF") && Text(b, 8, "WAVE") && Number32(b, 4, 4 + size)
    && Lies(b, 12, Body(chunks)) && Lies(b, 12 + |Body(chunks)|, rest)
  }

  lemma RestRefused(b: seq<byte>, chunks: seq<Chunk>, rest: seq<byte>, error: WaveError)
    requires Declares(b, chunks, rest) && rest != []
    requires var (r, at) := (Meaning(Parts(None, None), chunks), 12 + |Body(chunks)|);
             r.Ok? ==> FormatValid(r.value) && at + |rest| <= |b| && ReadChunk(b, at + |rest|, at, r.value) == Err(error)
    ensures var r := Meaning(Parts(None, None), chunks);
            Decode(b) == Err(if r.Err? then r.error else error)
  {
    hide Body, Text, Finish, Meaning, ReadU32, ReadChunk, Lies, Declares;
    DeclaredHeader(b, chunks, rest);
    ScanFront(b, 12 + |Body(chunks)| + |rest|, 12, chunks, Parts(None, None));
  }

  lemma DeclaredHeader(b: seq<byte>, chunks: seq<Chunk>, rest: seq<byte>)
    requires Declares(b, chunks, rest)
    ensures |b| >= 12 && b[..4] == RIFF && b[8..12] == WAVE
    ensures ReadU32(b, 4) + 8 == 12 + |Body(chunks)| + |rest| <= |b| && Lies(b, 12, Body(chunks))
  {
    HeaderTags(b);
    NumberRead(b, 4);
    hide Body, Text, ReadU32;
  }

  /** A file whose last chunk is cut off is refused as truncated, unless an earlier chunk is refused first. */
  lemma CutOffRefused(b: seq<byte>, chunks: seq<Chunk>, rest: seq<byte>)
    requires Declares(b, chunks, rest) && CutOff(rest)
    ensures var r := Meaning(Parts(None, None), chunks);
            Decode(b) == Err(if r.Err? then r.error else Truncated)
  {
    var (r, at) := (Meaning(Parts(None, None), chunks), 12 + |Body(chunks)|);
    hide Body, Text, Meaning, TakeChunk, Decode;
    if |rest| >= 8 {
      NumberRead(b, at + 4);
      assert b[at..at + |rest|] == rest;
      assert rest[4] == b[at + 4] && rest[5] == b[at + 5] && rest[6] == b[at + 6] && rest[7] == b[at + 7];
    }
    hide ReadU32;
    assert r.Ok? ==> ReadChunk(b, at + |rest|, at, r.value) == Err(Truncated);
    RestRefused(b, chunks, rest, Truncated);
  }

  /** So is one whose last chunk lacks the filler byte of its odd payload, unless that chunk is refused first. */
  lemma UnfilledRefused(b: seq<byte>, chunks: seq<Chunk>, c: Chunk)
    requires |c.payload| % 2 == 1 && |Layout(c)| >= 8 + |c.payload| && Declares(b, chunks, Layout(c)[..8 + |c.payload|])
    ensures var r := Meaning(Parts(None, None), chunks + [c]);
            Decode(b) == Err(if r.Err? then r.error else Truncated)
  {
    hide Body, Text, TakeChunk, Layout, Meaning, ReadChunk, Decode, Lies, Number32, Declares;
    var (start, rest) := (Parts(None, None), Layout(c)[..8 + |c.payload|]);
    MeaningAppend(start, chunks, [c]);
    var r := Meaning(start, chunks);
    if r.Ok? {
      OneSaid(r.value, c);
      var taken := TakeChunk(r.value, c.id, c.payload);
      UnfilledLies(b, chunks, c);
      ReadUnfilled(b, 12 + |Body(chunks)|, r.value, c);
      RestRefused(b, chunks, rest, if taken.Err? then taken.error else Truncated);
    } else {
      RestRefused(b, chunks, rest, Truncated);
    }
  }

  lemma UnfilledLies(b: seq<byte>, chunks: seq<Chunk>, c: Chunk)
    requires |Layout(c)| >= 8 + |c.payload| && Declares(b, chunks, Layout(c)[..8 + |c.payload|])
    ensures 12 + |Body(chunks)| + 8 + |c.payload| <= |b| && Lies(b, 12 + |Body(chunks)|, Layout(c)[..8 + |c.payload|])
  {
  }

  lemma OneSaid(parts: Parts, c: Chunk)
    requires FormatValid(parts)
    ensures Meaning(parts, [c]) == TakeChunk(parts, c.id, c.payload)
  {
    assert [c][1..] == [];
    TakeKeepsValid(parts, c.id, c.payload);
    hide TakeChunk;
  }

  lemma ReadUnfilled(b: seq<byte>, at: nat, parts: Parts, c: Chunk)
    requires FormatValid(parts) && |c.payload| % 2 == 1 && |Layout(c)| >= 8 + |c.payload|
    requires Lies(b, at, Layout(c)[..8 + |c.payload|])
    ensures var taken := TakeChunk(parts, c.id, c.payload);
            ReadChunk(b, at + 8 + |c.payload|, at, parts) == Err(if taken.Err? then taken.error else Truncated)
  {
    LayoutVerdict(c);
    var (all, rest) := (Layout(c), Layout(c)[..8 + |c.payload|]);
    hide Layout, TakeChunk;
    NumberRead(b, at + 4);
    assert b[at..at + 8 + |c.payload|] == rest;
    assert rest[4] == all[4] == b[at + 4] && rest[5] == all[5] == b[at + 5];
    assert rest[6] == all[6] == b[at + 6] && rest[7] == all[7] == b[at + 7];
    assert b[at..at + 4] == rest[..4] == c.id;
    assert b[at + 8..at + 8 + |c.payload|] == rest[8..] == c.payload;
    assert ReadU32(b, at + 4) == |c.payload|;
    hide ReadU32;
  }

  /** A tag, a number and what follows, wherever they lie. */
  lemma PartBytes(b: seq<byte>, at: nat, tag: seq<byte>, x: u32, rest: seq<byte>)
    requires Lies(b, at, tag + LE32(x) + rest) && |tag| == 4
    ensures Lies(b, at, tag) && Number32(b, at + 4, x) && Lies(b, at + 8, rest)
  {
    LengthLE32(x);
    hide LE32;
    LiesSplit(b, at, tag + LE32(x), rest);
    LiesSplit(b, at, tag, LE32(x));
    NumberLies(b, at + 4, x);
  }

  lemma LyingTag(b: seq<byte>, at: nat, tag: seq<byte>, s: string)
    requires Lies(b, at, tag) && |s| == 4 && Text(tag, 0, s)
    ensures Text(b, at, s)
  {
    assert b[at..at + |tag|][0] == b[at] && b[at..at + |tag|][1] == b[at + 1];
    assert b[at..at + |tag|][2] == b[at + 2] && b[at..at + |tag|][3] == b[at + 3];
  }

  /** The bytes of an encoded buffer: a 44-byte header, then two bytes a sample. */
  lemma EncodedBytes(b: PcmBuffer)
    ensures 4 + |Body(ChunksOf(b))| <= U32_MAX
    ensures var (bytes, n) := (File(ChunksOf(b)), |b.samples|);
            && |bytes| == 44 + 2 * n
            && Text(bytes, 0, "RIFF") && Number32(bytes, 4, 36 + 2 * n) && Text(bytes, 8, "WAVE")
            && Text(bytes, 12, "fmt ") && Number32(bytes, 16, 16) && IsFormat(bytes[20..36], b.format)
            && Text(bytes, 36, "data") && Number32(bytes, 40, 2 * n) && Samples(bytes[44..], b.samples)
  {
    EncodedLayout(b);
    FormatRoundTrip(b.format);
    SamplesRoundTrip(b.samples);
    ParsedSamples(Serialized(b.samples), |b.samples|);
    FormatVerdict(FormatPayload(b.format));
    var (bytes, data, payload, n) := (File(ChunksOf(b)), Serialized(b.samples), FormatPayload(b.format), |b.samples|);
    assert data[..2 * n] == data;
    hide Samples, IsFormat, Body, ChunksOf, Number32, File, Text, FormatPayload, Serialized, LE32;
    HeadBytes(bytes, n, payload, data);
  }

  lemma HeadBytes(bytes: seq<byte>, n: nat, payload: seq<byte>, data: seq<byte>)
    requires 36 + 2 * n <= U32_MAX && |payload| == 16 && |data| == 2 * n
    requires bytes == (RIFF + LE32(36 + 2 * n) + WAVE) + (FMT + LE32(16) + payload) + (DATA + LE32(2 * n)) + data
    ensures |bytes| == 44 + 2 * n && bytes[20..36] == payload && bytes[44..] == data
    ensures Text(bytes, 0, "RIFF") && Number32(bytes, 4, 36 + 2 * n) && Text(bytes, 8, "WAVE")
    ensures Text(bytes, 12, "fmt ") && Number32(bytes, 16, 16) && Text(bytes, 36, "data") && Number32(bytes, 40, 2 * n)
  {
    LengthLE32(36 + 2 * n);
    LengthLE32(16);
    LengthLE32(2 * n);
    hide LE32, Number32;
    var (one, two, three) := (RIFF + LE32(36 + 2 * n) + WAVE, FMT + LE32(16) + payload, DATA + LE32(2 * n) + []);
    assert DATA + LE32(2 * n) == three;
    assert bytes[0..|bytes|] == bytes;
    assert Lies(bytes, 0, one + two + three + data);
    hide Lies;
    LiesSplit(bytes, 0, one + two + three, data);
    LiesSplit(bytes, 0, one + two, three);
    LiesSplit(bytes, 0, one, two);
    PartBytes(bytes, 0, RIFF, 36 + 2 * n, WAVE);
    PartBytes(bytes, 12, FMT, 16, payload);
    PartBytes(bytes, 36, DATA, 2 * n, []);
    LyingTag(bytes, 0, RIFF, "RIFF");
    LyingTag(bytes, 8, WAVE, "WAVE");
    LyingTag(bytes, 12, FMT, "fmt ");
    LyingTag(bytes, 36, DATA, "data");
  }
}
