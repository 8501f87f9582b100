/**
 Values exchanged between capture, timeline and coordinator.

 A type whose Rust constructor validates its fields, and whose fields no caller
 can set otherwise, is a subset type here.
 */
module Audio {
  import opened Numeric

  const OUTPUT_RATE_HZ: int := 12_000
  const WINDOW_SAMPLES: int := 180_000
  const SLOT_MILLIS: int := 15_000
  const TICKS_PER_MILLI: int := 12
  const MAX_BATCH_FRAMES: int := 8_192
  const MIN_RATE_HZ: int := 8_000
  const MAX_RATE_HZ: int := 384_000
  const MAX_CHANNELS: int := 32
  const MAX_CALLBACK_DELAY_MILLIS: int := 60_000

  datatype Option<+T> = None | Some(value: T)

  datatype Result<+T, +E> = Ok(value: T) | Err(error: E)

  type Rate = r: int | MIN_RATE_HZ <= r <= MAX_RATE_HZ witness MIN_RATE_HZ

  type Generation = g: int | 0 < g <= U64_MAX witness 1

  datatype SampleFormat =
    | Signed8 | Signed16 | Signed24 | Signed32 | Signed64
    | Unsigned8 | Unsigned16 | Unsigned24 | Unsigned32 | Unsigned64
    | Float32 | Float64

  datatype Configuration = Configuration(
    rate: Rate, channels: nat, format: SampleFormat, selectedChannel: nat)
  {
    predicate Valid() { 1 <= channels <= MAX_CHANNELS && selectedChannel < channels }
  }

  type InputConfiguration = c: Configuration | c.Valid()
    witness Configuration(MIN_RATE_HZ, 1, Signed16, 0)

  /** Simultaneous source-frame position, UTC and monotonic time; UTC is never negative. */
  datatype Evidence = Evidence(position: u64, utc: i64, monotonic: u64)

  type TimeEvidence = e: Evidence | e.utc >= 0 witness Evidence(0, 0, 0)

  datatype DiscontinuityKind = Overflow | BackendGap | StreamRestart | ClockRemapped

  datatype Discontinuity = Discontinuity(at: u64, kind: DiscontinuityKind, droppedFrames: u64)

  datatype Batch = Batch(
    processGeneration: Generation,
    streamGeneration: Generation,
    configuration: InputConfiguration,
    first: TimeEvidence,
    discontinuity: Option<Discontinuity>,
    clippedSamples: u32,
    callbackDelayMillis: u32,
    samples: seq<i16>)
  {
    predicate Valid() {
      && 1 <= |samples| <= MAX_BATCH_FRAMES
      && (discontinuity.Some? ==> discontinuity.value.at == first.position)
      && clippedSamples <= |samples|
      && callbackDelayMillis <= MAX_CALLBACK_DELAY_MILLIS
    }

    /** Position immediately after the batch; `None` when it leaves `u64`. */
    function EndPosition(): Option<u64> {
      if FitsU64(first.position + |samples|) then Some(first.position + |samples|) else None
    }
  }

  type CaptureBatch = b: Batch | b.Valid()
    witness Batch(1, 1, Configuration(MIN_RATE_HZ, 1, Signed16, 0), Evidence(0, 0, 0), None, 0, 0, [0])

  /** One complete decoder input. */
  datatype ReceiveWindow = ReceiveWindow(
    processGeneration: Generation,
    streamGeneration: Generation,
    slotStartUtc: int,
    mapping: TimeEvidence,
    samples: seq<i16>)
  {
    /** What the checked constructor of a window demands. */
    predicate Valid() {
      0 <= slotStartUtc <= I64_MAX && slotStartUtc % SLOT_MILLIS == 0 && |samples| == WINDOW_SAMPLES
    }
  }

  datatype IncompleteReason = CaptureStartedLate | TimelineInvalidated

  datatype IncompleteSlot = IncompleteSlot(
    slotStartUtc: int, reason: IncompleteReason, accumulatedSamples: nat)

  datatype TimelineEvent = Window(window: ReceiveWindow) | Incomplete(slot: IncompleteSlot)
}
