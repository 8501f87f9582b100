/**
 Bounded in-memory RIFF/WAVE files, following the "Waveform Audio File Format (WAVE)" section of the
 IBM/Microsoft Multimedia Programming Interface and Data Specifications 1.0.  Sizes are those of a 64-bit
 platform.
 */
module WaveFile {
  import opened Numeric
  import opened Audio

  const MAX_PCM_SAMPLES: nat := 24_000_000

  type byte = x: int | 0 <= x < 256

  datatype Format = Format(rate: nat, channels: nat) {
    predicate Valid() { 1 <= rate <= 384_000 && 1 <= channels <= 8 }
  }

  datatype Pcm = Pcm(format: Format, samples: seq<i16>) {
    predicate Valid() {
      format.Valid() && |samples| <= MAX_PCM_SAMPLES && |samples| % format.channels == 0
    }
  }

  type PcmBuffer = b: Pcm | b.Valid() witness Pcm(Format(1, 1), [])

  datatype WaveError =
    | FileTooLarge | Truncated | InvalidStructure | MissingOrDuplicateChunk | UnsupportedFormat | InvalidPcm

  function NewBuffer(format: Format, samples: seq<i16>): Result<PcmBuffer, WaveError>
    requires format.Valid()
  {
    if |samples| > MAX_PCM_SAMPLES || |samples| % format.channels != 0 then Err(InvalidPcm)
    else Ok(Pcm(format, samples))
  }

  // ---------------------------------------------------------------------
  // Little-endian integers
  // ---------------------------------------------------------------------

  type u16 = x: int | 0 <= x < 65_536

  function LE16(x: u16): seq<byte> { [x % 256, x / 256] }

  function LE32(x: u32): seq<byte> { LE16(x % 65_536) + LE16(x / 65_536) }

  function ReadU16(b: seq<byte>, at: nat): u16
    requires at + 2 <= |b|
  {
    (b[at] as int) + 256 * (b[at + 1] as int)
  }

  function ReadU32(b: seq<byte>, at: nat): u32
    requires at + 4 <= |b|
  {
    (ReadU16(b, at) as int) + 65_536 * (ReadU16(b, at + 2) as int)
  }

  /** `i16::to_le_bytes`: two's complement. */
  function SampleBytes(x: i16): seq<byte> { LE16(if x < 0 then x + 65_536 else x) }

  function SampleAt(b: seq<byte>, at: nat): i16
    requires at + 2 <= |b|
  {
    var u := ReadU16(b, at);
    if u >= 32_768 then u - 65_536 else u
  }

  function Serialized(samples: seq<i16>): (b: seq<byte>)
    ensures |b| == 2 * |samples|
  {
    if samples == [] then [] else Serialized(samples[..|samples| - 1]) + SampleBytes(samples[|samples| - 1])
  }

  /** The first `n` samples of raw data. */
  function Parsed(data: seq<byte>, n: nat): (s: seq<i16>)
    requires 2 * n <= |data|
    ensures |s| == n
  {
    if n == 0 then [] else Parsed(data, n - 1) + [SampleAt(data, 2 * (n - 1))]
  }

  lemma ParsedPrefix(data: seq<byte>, more: seq<byte>, n: nat)
    requires 2 * n <= |data|
    ensures Parsed(data + more, n) == Parsed(data, n)
  {
  }

  /** Samples survive serialization. */
  lemma {:induction false} SamplesRoundTrip(samples: seq<i16>)
    ensures Parsed(Serialized(samples), |samples|) == samples
  {
    if samples != [] {
      var n := |samples| - 1;
      var (before, last) := (samples[..n], SampleBytes(samples[n]));
      SamplesRoundTrip(before);
      ParsedPrefix(Serialized(before), last, n);
      assert SampleAt(Serialized(before) + last, 2 * n) == samples[n];
    }
  }

  // ---------------------------------------------------------------------
  // Chunks
  // ---------------------------------------------------------------------

  const RIFF: seq<byte> := [82, 73, 70, 70]
  const WAVE: seq<byte> := [87, 65, 86, 69]
  const FMT: seq<byte> := [102, 109, 116, 32]
  const DATA: seq<byte> := [100, 97, 116, 97]

  /** What has been read so far. */
  datatype Parts = Parts(format: Option<Format>, data: Option<seq<byte>>)

  function ByteRate(rate: nat, channels: nat): nat { rate * (channels * 2) }

  lemma ByteRateFits(f: Format)
    requires f.Valid()
    ensures ByteRate(f.rate, f.channels) <= U32_MAX
  {
    ProductMonotone(f.rate, 384_000, f.channels * 2);
  }

  function ParseFormat(b: seq<byte>): (r: Result<Format, WaveError>)
    ensures r.Ok? ==> r.value.Valid()
  {
    if |b| < 16 then Err(Truncated)
    else
      var channels := ReadU16(b, 2);
      var rate := ReadU32(b, 4);
      if channels * 2 >= 65_536 || ByteRate(rate, channels) > U32_MAX then Err(UnsupportedFormat)
      else if ReadU16(b, 0) != 1 || ReadU16(b, 14) != 16 || ReadU16(b, 12) != channels * 2
              || ReadU32(b, 8) != ByteRate(rate, channels) then Err(UnsupportedFormat)
      else if !Format(rate, channels).Valid() then Err(InvalidPcm)
      else Ok(Format(rate, channels))
  }

  /** The effect of one chunk on what has been read. */
  function TakeChunk(parts: Parts, id: seq<byte>, payload: seq<byte>): (r: Result<Parts, WaveError>) {
    if id == FMT then
      if parts.format.Some? then Err(MissingOrDuplicateChunk)
      else
        var format := ParseFormat(payload);
        if format.Err? then Err(format.error) else Ok(parts.(format := Some(format.value)))
    else if id == DATA then
      if parts.data.Some? then Err(MissingOrDuplicateChunk) else Ok(parts.(data := Some(payload)))
    else Ok(parts)
  }

  predicate FormatValid(parts: Parts) { parts.format.Some? ==> parts.format.value.Valid() }

  function Finish(parts: Parts): Result<PcmBuffer, WaveError>
    requires FormatValid(parts)
  {
    if parts.format.None? || parts.data.None? then Err(MissingOrDuplicateChunk)
    else
      var data := parts.data.value;
      if |data| % 2 != 0 || |data| / 2 > MAX_PCM_SAMPLES then Err(FileTooLarge)
      else NewBuffer(parts.format.value, Parsed(data, |data| / 2))
  }

  /** Reads the chunk at `at`: where the next one starts, and what has been read then. */
  function ReadChunk(b: seq<byte>, size: nat, at: nat, parts: Parts): (r: Result<(nat, Parts), WaveError>)
    requires at < size <= |b| && FormatValid(parts)
    ensures r.Ok? ==> at < r.value.0 <= size && FormatValid(r.value.1)
  {
    if at + 8 > size then Err(Truncated)
    else
      var length := ReadU32(b, at + 4);
      if at + 8 + length > size then Err(Truncated)
      else
        var taken := TakeChunk(parts, b[at..at + 4], b[at + 8..at + 8 + length]);
        if taken.Err? then Err(taken.error)
        else
          var next := at + 8 + length + length % 2;
          if next > size then Err(Truncated) else Ok((next, taken.value))
  }

  /** Reads chunks from `at` to the end of the RIFF form. */
  function Scan(b: seq<byte>, size: nat, at: nat, parts: Parts): (r: Result<Parts, WaveError>)
    requires at <= size <= |b| && FormatValid(parts)
    ensures r.Ok? ==> FormatValid(r.value)
    decreases size - at
  {
    if at == size then Ok(parts)
    else
      var step := ReadChunk(b, size, at, parts);
      if step.Err? then Err(step.error) else Scan(b, size, step.value.0, step.value.1)
  }

  function Decode(b: seq<byte>): Result<PcmBuffer, WaveError> {
    if |b| < 12 then Err(Truncated)
    else if b[..4] != RIFF || b[8..12] != WAVE then Err(InvalidStructure)
    else
      var size := ReadU32(b, 4) + 8;
      if size > |b| then Err(Truncated)
      else if size < 12 then Err(InvalidStructure)
      else
        var parts := Scan(b, size, 12, Parts(None, None));
        if parts.Err? then Err(parts.error) else Finish(parts.value)
  }

  /** The parsing loop; it is total on all byte strings. */
  method DecodePcmWave(b: seq<byte>) returns (r: Result<PcmBuffer, WaveError>)
    ensures r == Decode(b)
  {
    hide ReadU32, TakeChunk, Finish;
    if |b| < 12 {
      return Err(Truncated);
    }
    if b[..4] != RIFF || b[8..12] != WAVE {
      return Err(InvalidStructure);
    }
    var size := ReadU32(b, 4) + 8;
    if size > |b| {
      return Err(Truncated);
    }
    if size < 12 {
      return Err(InvalidStructure);
    }
    var at := 12;
    var parts := Parts(None, None);
    while at < size
      invariant 12 <= at <= size && FormatValid(parts)
      invariant Scan(b, size, at, parts) == Scan(b, size, 12, Parts(None, None))
      decreases size - at
    {
      if at + 8 > size {
        return Err(Truncated);
      }
      var length := ReadU32(b, at + 4);
      if at + 8 + length > size {
        return Err(Truncated);
      }
      TakeKeepsValid(parts, b[at..at + 4], b[at + 8..at + 8 + length]);
      var taken := TakeChunk(parts, b[at..at + 4], b[at + 8..at + 8 + length]);
      if taken.Err? {
        return Err(taken.error);
      }
      parts := taken.value;
      at := at + 8 + length + length % 2;
      if at > size {
        return Err(Truncated);
      }
    }
    r := Finish(parts);
  }

  // ---------------------------------------------------------------------
  // Files as sequences of chunks
  // ---------------------------------------------------------------------

  /** One chunk; `pad` is the filler after an odd payload and has no meaning. */
  datatype RawChunk = Chunk(id: seq<byte>, payload: seq<byte>, pad: byte) {
    predicate Valid() { |id| == 4 && |payload| <= U32_MAX }
  }

  type Chunk = c: RawChunk | c.Valid() witness Chunk([0, 0, 0, 0], [], 0)

  function Layout(c: Chunk): seq<byte> {
    c.id + LE32(|c.payload|) + c.payload + if |c.payload| % 2 == 1 then [c.pad] else []
  }

  function Body(chunks: seq<Chunk>): seq<byte> {
    if chunks == [] then [] else Layout(chunks[0]) + Body(chunks[1..])
  }

  /** A file whose RIFF size counts exactly its chunks. */
  function File(chunks: seq<Chunk>): seq<byte>
    requires 4 + |Body(chunks)| <= U32_MAX
  {
    RIFF + LE32(4 + |Body(chunks)|) + WAVE + Body(chunks)
  }

  /** What a sequence of chunks says. */
  function Meaning(parts: Parts, chunks: seq<Chunk>): (r: Result<Parts, WaveError>)
    requires FormatValid(parts)
    ensures r.Ok? ==> FormatValid(r.value)
    decreases |chunks|
  {
    if chunks == [] then Ok(parts)
    else
      var taken := TakeChunk(parts, chunks[0].id, chunks[0].payload);
      if taken.Err? then Err(taken.error) else Meaning(taken.value, chunks[1..])
  }

  /** The bytes `part` lie at offset `at` of `b`. */
  predicate Lies(b: seq<byte>, at: nat, part: seq<byte>) { at + |part| <= |b| && b[at..at + |part|] == part }

  lemma LiesSplit(b: seq<byte>, at: nat, one: seq<byte>, two: seq<byte>)
    requires Lies(b, at, one + two)
    ensures Lies(b, at, one) && Lies(b, at + |one|, two)
  {
    assert b[at..at + |one|] == b[at..at + |one + two|][..|one|];
    assert b[at + |one|..at + |one| + |two|] == b[at..at + |one + two|][|one|..];
  }

  lemma ReadLying32(b: seq<byte>, at: nat, x: u32)
    requires Lies(b, at, LE32(x))
    ensures at + 4 <= |b| && ReadU32(b, at) == x
  {
    var part := b[at..at + 4];
    assert part == LE32(x);
    assert part[0] == b[at] && part[1] == b[at + 1] && part[2] == b[at + 2] && part[3] == b[at + 3];
  }

  lemma ReadLying16(b: seq<byte>, at: nat, x: u16)
    requires Lies(b, at, LE16(x))
    ensures at + 2 <= |b| && ReadU16(b, at) == x
  {
    var part := b[at..at + 2];
    assert part == LE16(x);
    assert part[0] == b[at] && part[1] == b[at + 1];
  }

  lemma ChunkFields(b: seq<byte>, at: nat, c: Chunk)
    requires Lies(b, at, Layout(c))
    ensures |Layout(c)| == 8 + |c.payload| + |c.payload| % 2
    ensures at + 8 + |c.payload| <= |b|
    ensures b[at..at + 4] == c.id && ReadU32(b, at + 4) == |c.payload|
    ensures b[at + 8..at + 8 + |c.payload|] == c.payload
  {
    hide LE32, ReadU32;
    LengthLE32(|c.payload|);
    var pad: seq<byte> := if |c.payload| % 2 == 1 then [c.pad] else [];
    LiesSplit(b, at, c.id + LE32(|c.payload|) + c.payload, pad);
    LiesSplit(b, at, c.id + LE32(|c.payload|), c.payload);
    LiesSplit(b, at, c.id, LE32(|c.payload|));
    ReadLying32(b, at + 4, |c.payload|);
  }

  /** Scanning the bytes of a chunk takes that chunk. */
  lemma ScanChunk(b: seq<byte>, size: nat, at: nat, c: Chunk, parts: Parts)
    requires FormatValid(parts) && Lies(b, at, Layout(c)) && at + |Layout(c)| <= size <= |b|
    ensures |Layout(c)| >= 8
    ensures var taken := TakeChunk(parts, c.id, c.payload);
            ReadChunk(b, size, at, parts)
            == if taken.Err? then Err(taken.error) else Ok((at + |Layout(c)|, taken.value))
  {
    ChunkFields(b, at, c);
    hide Layout, ReadU32, TakeChunk, Lies;
  }

  lemma LengthLE32(x: u32)
    ensures |LE32(x)| == 4
  {
  }

  /** Scanning the bytes of a chunk, then the rest. */
  lemma ScanThrough(b: seq<byte>, size: nat, at: nat, c: Chunk, parts: Parts)
    requires FormatValid(parts) && Lies(b, at, Layout(c)) && at + |Layout(c)| <= size <= |b|
    ensures var taken := TakeChunk(parts, c.id, c.payload);
            && (taken.Ok? ==> FormatValid(taken.value))
            && Scan(b, size, at, parts)
               == if taken.Err? then Err(taken.error) else Scan(b, size, at + |Layout(c)|, taken.value)
  {
    hide Layout, TakeChunk, ReadChunk, Lies;
    TakeKeepsValid(parts, c.id, c.payload);
    ScanChunk(b, size, at, c, parts);
  }

  lemma {:induction false} ScanBody(b: seq<byte>, at: nat, chunks: seq<Chunk>, parts: Parts)
    requires FormatValid(parts) && Lies(b, at, Body(chunks)) && at + |Body(chunks)| <= |b|
    ensures Scan(b, at + |Body(chunks)|, at, parts) == Meaning(parts, chunks)
    decreases |chunks|
  {
    hide Layout, TakeChunk, Body, Lies, Scan, Meaning;
    if chunks == [] {
      ScanNothing(b, at, chunks, parts);
    } else {
      var c := chunks[0];
      BodySplit(b, at, chunks);
      ScanThrough(b, at + |Body(chunks)|, at, c, parts);
      MeaningThrough(parts, chunks);
      var taken := TakeChunk(parts, c.id, c.payload);
      if taken.Ok? {
        ScanBody(b, at + |Layout(c)|, chunks[1..], taken.value);
      }
    }
  }

  lemma ScanNothing(b: seq<byte>, at: nat, chunks: seq<Chunk>, parts: Parts)
    requires chunks == [] && FormatValid(parts) && at <= |b|
    ensures Body(chunks) == [] && Scan(b, at, at, parts) == Ok(parts) == Meaning(parts, chunks)
  {
  }

  lemma MeaningThrough(parts: Parts, chunks: seq<Chunk>)
    requires chunks != [] && FormatValid(parts)
    ensures var taken := TakeChunk(parts, chunks[0].id, chunks[0].payload);
            && (taken.Ok? ==> FormatValid(taken.value))
            && Meaning(parts, chunks)
               == if taken.Err? then Err(taken.error) else Meaning(taken.value, chunks[1..])
  {
    TakeKeepsValid(parts, chunks[0].id, chunks[0].payload);
    hide TakeChunk;
  }

  lemma BodySplit(b: seq<byte>, at: nat, chunks: seq<Chunk>)
    requires chunks != [] && Lies(b, at, Body(chunks))
    ensures |Body(chunks)| == |Layout(chunks[0])| + |Body(chunks[1..])|
    ensures Lies(b, at, Layout(chunks[0])) && Lies(b, at + |Layout(chunks[0])|, Body(chunks[1..]))
    ensures at + |Body(chunks)| <= |b|
  {
    hide Layout;
    LiesSplit(b, at, Layout(chunks[0]), Body(chunks[1..]));
  }

  lemma TakeKeepsValid(parts: Parts, id: seq<byte>, payload: seq<byte>)
    requires FormatValid(parts)
    ensures TakeChunk(parts, id, payload).Ok? ==> FormatValid(TakeChunk(parts, id, payload).value)
  {
  }

  /** Decoding a file is reading its chunks in order; bytes after the RIFF form do not matter. */
  lemma DecodeFile(chunks: seq<Chunk>, trailing: seq<byte>)
    requires 4 + |Body(chunks)| <= U32_MAX
    ensures Decode(File(chunks) + trailing) ==
              var parts := Meaning(Parts(None, None), chunks);
              if parts.Err? then Err(parts.error) else Finish(parts.value)
  {
    var b := File(chunks) + trailing;
    var size := 4 + |Body(chunks)|;
    LengthLE32(size);
    hide LE32, ReadU32, Body, Scan, Meaning, Finish;
    assert Lies(b, 0, File(chunks));
    LiesSplit(b, 0, RIFF + LE32(size) + WAVE, Body(chunks));
    LiesSplit(b, 0, RIFF + LE32(size), WAVE);
    LiesSplit(b, 0, RIFF, LE32(size));
    ReadLying32(b, 4, size);
    ScanBody(b, 12, chunks, Parts(None, None));
  }

  // ---------------------------------------------------------------------
  // Round trip and insensitivity to layout
  // ---------------------------------------------------------------------

  function FormatPayload(f: Format): seq<byte>
    requires f.Valid()
  {
    ByteRateFits(f);
    LE16(1) + LE16(f.channels) + LE32(f.rate) + LE32(ByteRate(f.rate, f.channels)) + LE16(f.channels * 2) + LE16(16)
  }

  lemma FormatRoundTrip(f: Format)
    requires f.Valid()
    ensures |FormatPayload(f)| == 16 && ParseFormat(FormatPayload(f)) == Ok(f)
  {
    ByteRateFits(f);
    var b := FormatPayload(f);
    var byteRate := ByteRate(f.rate, f.channels);
    LengthLE32(f.rate);
    LengthLE32(byteRate);
    assert |LE16(1)| == |LE16(f.channels)| == |LE16(f.channels * 2)| == |LE16(16)| == 2;
    hide LE16, LE32, ReadU16, ReadU32, ByteRate;
    var four := LE16(1) + LE16(f.channels);
    var eight := four + LE32(f.rate);
    var twelve := eight + LE32(byteRate);
    var fourteen := twelve + LE16(f.channels * 2);
    assert Lies(b, 0, fourteen + LE16(16));
    LiesSplit(b, 0, fourteen, LE16(16));
    LiesSplit(b, 0, twelve, LE16(f.channels * 2));
    LiesSplit(b, 0, eight, LE32(byteRate));
    LiesSplit(b, 0, four, LE32(f.rate));
    LiesSplit(b, 0, LE16(1), LE16(f.channels));
    ReadLying16(b, 0, 1);
    ReadLying16(b, 2, f.channels);
    ReadLying32(b, 4, f.rate);
    ReadLying32(b, 8, byteRate);
    ReadLying16(b, 12, f.channels * 2);
    ReadLying16(b, 14, 16);
    hide Lies, FormatPayload;
  }

  /** The two chunks that the encoder writes. */
  function ChunksOf(b: PcmBuffer): seq<Chunk> {
    FormatRoundTrip(b.format);
    [Chunk(FMT, FormatPayload(b.format), 0), Chunk(DATA, Serialized(b.samples), 0)]
  }

  lemma EncodedSize(b: PcmBuffer)
    ensures |Body(ChunksOf(b))| == 32 + 2 * |b.samples|
  {
    FormatRoundTrip(b.format);
    var (f, d) := (ChunksOf(b)[0], ChunksOf(b)[1]);
    hide FormatPayload, Serialized, LE32;
    LengthLE32(16);
    LengthLE32(2 * |b.samples|);
    assert ChunksOf(b)[1..] == [d] && [d][1..] == [];
    assert |Layout(f)| == 24 && |Layout(d)| == 8 + 2 * |b.samples|;
    assert Body([d]) == Layout(d) + [];
  }

  /** Decoding an encoded buffer gives the buffer back, whatever follows it. */
  lemma WaveRoundTrip(b: PcmBuffer, trailing: seq<byte>)
    ensures 4 + |Body(ChunksOf(b))| <= U32_MAX
    ensures Decode(File(ChunksOf(b)) + trailing) == Ok(b)
  {
    hide Body, File, Decode, Meaning, Finish, ChunksOf;
    EncodedSize(b);
    DecodeFile(ChunksOf(b), trailing);
    EncodedMeaning(b);
    EncodedFinish(b);
  }

  lemma EncodedMeaning(b: PcmBuffer)
    ensures Meaning(Parts(None, None), ChunksOf(b)) == Ok(Parts(Some(b.format), Some(Serialized(b.samples))))
  {
    FormatRoundTrip(b.format);
    hide FormatPayload, Serialized, ParseFormat;
    var (f, d) := (Chunk(FMT, FormatPayload(b.format), 0), Chunk(DATA, Serialized(b.samples), 0));
    assert ChunksOf(b) == [f, d] && [f, d][1..] == [d] && [d][1..] == [];
    var one := Parts(Some(b.format), None);
    assert TakeChunk(Parts(None, None), f.id, f.payload) == Ok(one);
    assert FMT[0] != DATA[0];
    assert Meaning(one, [d]) == Ok(one.(data := Some(d.payload)));
  }

  lemma EncodedFinish(b: PcmBuffer)
    ensures Finish(Parts(Some(b.format), Some(Serialized(b.samples)))) == Ok(b)
  {
    SamplesRoundTrip(b.samples);
    hide Serialized, Parsed;
  }

  /** The encoder; it never fails on a valid buffer. */
  method EncodePcmWave(b: PcmBuffer) returns (bytes: seq<byte>)
    ensures 4 + |Body(ChunksOf(b))| <= U32_MAX && bytes == File(ChunksOf(b))
    ensures Decode(bytes) == Ok(b)
  {
    var sampleBytes := 2 * |b.samples|;
    var riffSize := 36 + sampleBytes;
    var blockAlign := b.format.channels * 2;
    ByteRateFits(b.format);
    var byteRate := ByteRate(b.format.rate, b.format.channels);
    bytes := RIFF + LE32(riffSize) + WAVE;
    bytes := bytes + (FMT + LE32(16)
                      + (LE16(1) + LE16(b.format.channels) + LE32(b.format.rate) + LE32(byteRate) + LE16(blockAlign) + LE16(16)));
    bytes := bytes + (DATA + LE32(sampleBytes));
    assert bytes == Head(b);
    hide LE16, LE32, Head, File, Body, ChunksOf, Decode;
    for i := 0 to |b.samples|
      invariant bytes == Head(b) + Serialized(b.samples[..i])
    {
      bytes := bytes + SampleBytes(b.samples[i]);
      assert b.samples[..i + 1][..i] == b.samples[..i];
    }
    assert b.samples[..|b.samples|] == b.samples;
    EncodedLayout(b);
    WaveRoundTrip(b, []);
    assert File(ChunksOf(b)) + [] == File(ChunksOf(b));
  }

  /** Everything before the samples. */
  ghost function Head(b: PcmBuffer): seq<byte> {
    (RIFF + LE32(36 + 2 * |b.samples|) + WAVE) + (FMT + LE32(16) + FormatPayload(b.format))
    + (DATA + LE32(2 * |b.samples|))
  }

  lemma Join(h: seq<byte>, f: seq<byte>, d: seq<byte>, s: seq<byte>)
    ensures h + (f + (d + s)) == h + f + d + s
  {
  }

  lemma EncodedLayout(b: PcmBuffer)
    ensures 4 + |Body(ChunksOf(b))| <= U32_MAX
    ensures File(ChunksOf(b)) == Head(b) + Serialized(b.samples)
  {
    EncodedSize(b);
    FormatRoundTrip(b.format);
    var (f, d) := (Chunk(FMT, FormatPayload(b.format), 0), Chunk(DATA, Serialized(b.samples), 0));
    assert ChunksOf(b) == [f, d];
    BodyOfTwo(f, d);
    EvenLayout(f);
    EvenLayout(d);
    hide Layout, FormatPayload, Serialized, LE32, ChunksOf, Body;
    Join(RIFF + LE32(36 + 2 * |b.samples|) + WAVE, FMT + LE32(16) + f.payload, DATA + LE32(2 * |b.samples|), d.payload);
  }

  lemma BodyOfTwo(f: Chunk, d: Chunk)
    ensures Body([f, d]) == Layout(f) + Layout(d)
  {
    hide Layout;
    assert [f, d][1..] == [d] && [d][1..] == [];
    assert Body([d]) == Layout(d) + Body([]);
  }

  lemma EvenLayout(c: Chunk)
    requires |c.payload| % 2 == 0
    ensures Layout(c) == c.id + LE32(|c.payload|) + c.payload
  {
    hide LE32;
  }

  /** A chunk with another identifier says nothing. */
  predicate Unknown(c: Chunk) { c.id != FMT && c.id != DATA }

  lemma {:induction false} MeaningAppend(parts: Parts, one: seq<Chunk>, two: seq<Chunk>)
    requires FormatValid(parts)
    ensures Meaning(parts, one + two) ==
              var first := Meaning(parts, one);
              if first.Err? then first else Meaning(first.value, two)
    decreases |one|
  {
    hide TakeChunk;
    if one == [] {
      assert one + two == two;
    } else {
      assert (one + two)[1..] == one[1..] + two;
      TakeKeepsValid(parts, one[0].id, one[0].payload);
      var taken := TakeChunk(parts, one[0].id, one[0].payload);
      if taken.Ok? {
        MeaningAppend(taken.value, one[1..], two);
      }
    }
  }

  /** Inserting an unknown chunk anywhere, of odd or even size, with the RIFF size adjusted, does not
      change what a file decodes to, not even which error. */
  lemma UnknownChunkIgnored(one: seq<Chunk>, c: Chunk, two: seq<Chunk>, trailing: seq<byte>)
    requires Unknown(c) && 4 + |Body(one + [c] + two)| <= U32_MAX && 4 + |Body(one + two)| <= U32_MAX
    ensures Decode(File(one + [c] + two) + trailing) == Decode(File(one + two) + trailing)
  {
    hide Body, File, Decode, Finish;
    var start := Parts(None, None);
    DecodeFile(one + [c] + two, trailing);
    DecodeFile(one + two, trailing);
    MeaningAppend(start, one + [c], two);
    MeaningAppend(start, one, [c]);
    MeaningAppend(start, one, two);
    var first := Meaning(start, one);
    hide Meaning;
    if first.Ok? {
      UnknownSaysNothing(first.value, c);
    }
  }

  lemma UnknownSaysNothing(parts: Parts, c: Chunk)
    requires Unknown(c) && FormatValid(parts)
    ensures Meaning(parts, [c]) == Ok(parts)
  {
    assert [c][1..] == [];
  }

  /** Swapping a format chunk with the data chunk beside it does not change what a file decodes to; only
      in a file that already had a data chunk, which is refused either way, can the error differ. */
  lemma FormatAndDataCommute(one: seq<Chunk>, f: Chunk, d: Chunk, two: seq<Chunk>, trailing: seq<byte>)
    requires f.id == FMT && d.id == DATA
    requires 4 + |Body(one + [f, d] + two)| <= U32_MAX && 4 + |Body(one + [d, f] + two)| <= U32_MAX
    ensures var (a, b) := (Decode(File(one + [f, d] + two) + trailing), Decode(File(one + [d, f] + two) + trailing));
            a == b || (a.Err? && b.Err? && exists c :: c in one && c.id == DATA)
  {
    hide Body, File, Decode, Finish;
    var start := Parts(None, None);
    DecodeFile(one + [f, d] + two, trailing);
    DecodeFile(one + [d, f] + two, trailing);
    MeaningAppend(start, one + [f, d], two);
    MeaningAppend(start, one + [d, f], two);
    MeaningAppend(start, one, [f, d]);
    MeaningAppend(start, one, [d, f]);
    DataSeen(start, one);
    var first := Meaning(start, one);
    hide Meaning;
    if first.Ok? {
      PairCommutes(first.value, f, d);
    }
  }

  lemma DataSeen(parts: Parts, chunks: seq<Chunk>)
    requires FormatValid(parts) && parts.data.None?
    ensures Meaning(parts, chunks).Ok? && Meaning(parts, chunks).value.data.Some? ==> exists c :: c in chunks && c.id == DATA
    decreases |chunks|
  {
    if chunks != [] && (forall c | c in chunks :: c.id != DATA) {
      MeaningThrough(parts, chunks);
      var taken := TakeChunk(parts, chunks[0].id, chunks[0].payload);
      if taken.Ok? {
        DataSeen(taken.value, chunks[1..]);
      }
    }
  }

  lemma PairCommutes(parts: Parts, f: Chunk, d: Chunk)
    requires FormatValid(parts) && f.id == FMT && d.id == DATA
    ensures if parts.data.None? then Meaning(parts, [f, d]) == Meaning(parts, [d, f])
            else Meaning(parts, [f, d]).Err? && Meaning(parts, [d, f]).Err?
  {
    assert [f, d][1..] == [d] && [d, f][1..] == [f] && [d][1..] == [] && [f][1..] == [];
    assert FMT[0] != DATA[0];
    hide ParseFormat;
  }

  /** Every complete receive window is a valid mono buffer for the decoder. */
  lemma WindowIsPcm(w: ReceiveWindow)
    requires w.Valid()
    ensures NewBuffer(Format(OUTPUT_RATE_HZ, 1), w.samples) == Ok(Pcm(Format(OUTPUT_RATE_HZ, 1), w.samples))
  {
  }
}
