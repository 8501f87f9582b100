/**
 The callback-to-worker buffer pool as a state machine of atomic steps.

 Each queue operation, flag store and counter update is one step; the callback,
 the worker and the backend's error handler take steps in any order.  A run is an
 arbitrary sequence of steps, so every interleaving is a run.
 */
module CapturePool {
  import opened Numeric
  import opened Audio

  const MIN_QUEUE: nat := 2
  const MAX_QUEUE: nat := 128

  /** One normalized native value; `None` stands for a value that cannot be normalized. */
  datatype Norm = Norm(sample: i16, clipped: bool)

  type Native = Option<Norm>

  /** Callback timing; the delay has already been capped at one minute. */
  datatype Timing = Timing(utc: i64, monotonic: u64, delay: u32)

  type CallbackTiming = t: Timing | t.delay <= MAX_CALLBACK_DELAY_MILLIS witness Timing(0, 0, 0)

  /** One callback: interleaved native values and their timing. */
  datatype Call = Call(data: seq<Native>, timing: CallbackTiming)

  /** A filled buffer on its way to the worker. */
  datatype Raw = Raw(
    buffer: nat, samples: seq<i16>, first: TimeEvidence, discontinuity: Option<Discontinuity>,
    clipped: nat, delay: u32)
  {
    function End(): nat { first.position + |samples| }
  }

  /** The frames of the current callback that have not been disposed of yet. */
  datatype Work = Work(rest: seq<Native>, timing: CallbackTiming, offset: nat) {
    function Length(): nat { Min(|rest|, MAX_BATCH_FRAMES) }

    function Chunk(): seq<Native> { rest[..Length()] }

    /** Back to the loop head, or out of the callback when nothing is left. */
    function Next(): Callback {
      if Length() == |rest| then Idle else AtHead(Work(rest[Length()..], timing, offset + Length()))
    }
  }

  /** Where the callback stands. */
  datatype Callback =
    | Idle
    | AtHead(work: Work)
    | Holding(buffer: nat, work: Work)
    | Starved(work: Work)
    | Moving(work: Work, dropped: bool)
    | Refused(buffer: nat, work: Work)
    | Aborting(buffer: nat)
    | Stopping

  /** Where the worker stands. */
  datatype Worker =
    | Waiting
    | Popping
    | Returning(raw: Raw)
    | Discarding
    | DiscardReturning(buffer: nat)

  datatype Setup = Setup(
    capacity: nat, process: Generation, stream: Generation, configuration: InputConfiguration)

  /** The two queues; `failures` counts operations that found no room. */
  datatype Queues = Queues(free: seq<nat>, ready: seq<Raw>, failures: nat)

  /** The callback's private counters. */
  datatype Progress = Progress(position: u64, pending: u64, firstBatch: bool, overflowCount: nat)

  /**
   History that specifications speak about: every callback that was not refused on entry, every frame
   it disposed of, every buffer it queued, how many of those left the queue, every batch the worker
   got, whether the worker ever discarded, and whether positions ever left `u64`.
   */
  datatype History = History(
    entered: seq<Call>, captured: seq<Native>, queued: seq<Raw>, popped: nat, returned: seq<Batch>,
    discarded: bool, exhausted: bool)

  datatype State = State(
    setup: Setup,
    queues: Queues,
    stopped: bool,
    callback: Callback,
    progress: Progress,
    worker: Worker,
    history: History)

  datatype Step =
    | CallbackEnter(data: seq<Native>, timing: CallbackTiming)
    | CallbackStep
    | WorkerPoll
    | WorkerStep
    | StopRequest
    | BackendStop

  function Initial(setup: Setup): Option<State> {
    if !(MIN_QUEUE <= setup.capacity <= MAX_QUEUE) then None
    else Some(State(setup, Queues(seq(setup.capacity, (i: nat) => i), [], 0), false, Idle,
                    Progress(0, 0, true, 0), Waiting, History([], [], [], 0, [], false, false)))
  }

  // ---------------------------------------------------------------------
  // Filling one buffer
  // ---------------------------------------------------------------------

  /** The selected channel of interleaved frames. */
  function Selected(c: InputConfiguration, data: seq<Native>): seq<Native> {
    if |data| < c.channels then []
    else [data[c.selectedChannel]] + Selected(c, data[c.channels..])
  }

  predicate Normalized(chunk: seq<Native>) { forall i | 0 <= i < |chunk| :: chunk[i].Some? }

  function Samples(chunk: seq<Native>): seq<i16>
    requires Normalized(chunk)
  {
    seq(|chunk|, i requires 0 <= i < |chunk| => chunk[i].value.sample)
  }

  function ClippedCount(chunk: seq<Native>): (n: nat)
    requires Normalized(chunk)
    ensures n <= |chunk|
  {
    if chunk == [] then 0
    else (if chunk[0].value.clipped then 1 else 0) + ClippedCount(chunk[1..])
  }

  function Flags(chunk: seq<Native>): seq<bool> {
    seq(|chunk|, i requires 0 <= i < |chunk| => chunk[i].Some? && chunk[i].value.clipped)
  }

  /** The count is how often a frame is marked as clipped. */
  lemma {:induction false} ClippedFrames(chunk: seq<Native>)
    requires Normalized(chunk)
    ensures ClippedCount(chunk) == multiset(Flags(chunk))[true]
  {
    if chunk != [] {
      ClippedFrames(chunk[1..]);
      assert Flags(chunk) == [chunk[0].value.clipped] + Flags(chunk[1..]);
    }
  }

  /** Time of the frame at `offset` in a callback, saturating as the callback does. */
  function FrameTime(c: InputConfiguration, t: CallbackTiming, offset: nat): (i64, u64) {
    var millis := Quotient(Min(offset * 1_000, U64_MAX), c.rate);
    (Min(t.utc + Min(millis, I64_MAX), I64_MAX), Min(t.monotonic + millis, U64_MAX))
  }

  /** The discontinuity that the next batch must carry. */
  function Mark(pending: u64, first: bool, position: u64): Option<Discontinuity> {
    if pending > 0 then Some(Discontinuity(position, Overflow, pending))
    else if first then Some(Discontinuity(position, StreamRestart, 0))
    else None
  }

  /** The filled buffer, or `None` when a value or a timestamp is unusable. */
  function Fill(c: InputConfiguration, p: Progress, buffer: nat, w: Work): Option<Raw> {
    var (utc, monotonic) := FrameTime(c, w.timing, w.offset);
    if !Normalized(w.Chunk()) || utc < 0 then None
    else Some(Raw(buffer, Samples(w.Chunk()), Evidence(p.position, utc, monotonic),
                  Mark(p.pending, p.firstBatch, p.position), ClippedCount(w.Chunk()), w.timing.delay))
  }

  function ToBatch(s: Setup, raw: Raw): Batch {
    Batch(s.process, s.stream, s.configuration, raw.first, raw.discontinuity, Min(raw.clipped, U32_MAX),
          raw.delay, raw.samples)
  }

  // ---------------------------------------------------------------------
  // Steps
  // ---------------------------------------------------------------------

  function PushFree(q: Queues, capacity: nat, buffer: nat): Queues {
    if |q.free| < capacity then q.(free := q.free + [buffer]) else q.(failures := q.failures + 1)
  }

  function Capture(h: History, chunk: seq<Native>): History {
    h.(captured := h.captured + chunk, exhausted := h.exhausted || |h.captured| + |chunk| > U64_MAX)
  }

  /** `process` on entry: a stopped stream and a malformed buffer are not captured. */
  function Enter(s: State, data: seq<Native>, timing: CallbackTiming): State {
    if !s.callback.Idle? || s.stopped then s
    else if data == [] || |data| % s.setup.configuration.channels != 0 then s.(callback := Stopping)
    else s.(callback := AtHead(Work(Selected(s.setup.configuration, data), timing, 0)),
            history := s.history.(entered := s.history.entered + [Call(data, timing)]))
  }

  /** `free.pop`. */
  function TakeBuffer(s: State, w: Work): State {
    if s.queues.free == [] then s.(callback := Starved(w))
    else s.(queues := s.queues.(free := s.queues.free[1..]), callback := Holding(s.queues.free[0], w))
  }

  /** Fills the buffer, clears the pending drops into its mark, then `ready.push`. */
  function QueueChunk(s: State, buffer: nat, w: Work): State {
    var raw := Fill(s.setup.configuration, s.progress, buffer, w);
    if raw.None? then s.(callback := Aborting(buffer))
    else
      var progress := s.progress.(pending := 0, firstBatch := false);
      if |s.queues.ready| < s.setup.capacity
      then s.(queues := s.queues.(ready := s.queues.ready + [raw.value]), progress := progress,
              history := Capture(s.history, w.Chunk()).(queued := s.history.queued + [raw.value]),
              callback := Moving(w, false))
      else s.(queues := s.queues.(failures := s.queues.failures + 1), progress := progress,
              callback := Refused(buffer, w))
  }

  /** `drop_frames` up to its position update. */
  function DropChunk(s: State, w: Work): State {
    s.(progress := s.progress.(pending := SaturatingAdd(s.progress.pending, w.Length()),
                               overflowCount := s.progress.overflowCount + 1),
       history := Capture(s.history, w.Chunk()),
       callback := Moving(w, true))
  }

  /** Advances the position; when it leaves `u64` the stream stops, but only the queueing path also
      leaves the loop. */
  function MoveOn(s: State, w: Work, dropped: bool): State {
    if FitsU64(s.progress.position + w.Length())
    then s.(progress := s.progress.(position := s.progress.position + w.Length()), callback := w.Next())
    else s.(stopped := true, callback := if dropped then w.Next() else Idle)
  }

  function StepCallback(s: State): State {
    match s.callback
    case Idle => s
    case AtHead(w) => TakeBuffer(s, w)
    case Holding(buffer, w) => QueueChunk(s, buffer, w)
    case Refused(buffer, w) => s.(queues := PushFree(s.queues, s.setup.capacity, buffer), callback := Starved(w))
    case Starved(w) => DropChunk(s, w)
    case Moving(w, dropped) => MoveOn(s, w, dropped)
    case Aborting(buffer) => s.(queues := PushFree(s.queues, s.setup.capacity, buffer), callback := Stopping)
    case Stopping => s.(stopped := true, callback := Idle)
  }

  /** `ready.pop`, for delivery or for discarding. */
  function PopReady(s: State, discard: bool): State {
    if s.queues.ready == [] then s.(worker := Waiting)
    else
      var raw := s.queues.ready[0];
      s.(queues := s.queues.(ready := s.queues.ready[1..]),
         history := s.history.(popped := s.history.popped + 1, discarded := s.history.discarded || discard),
         worker := if discard then DiscardReturning(raw.buffer) else Returning(raw))
  }

  /** Builds the batch, then `free.push`; either can fail. */
  function ReturnBatch(s: State, raw: Raw): State {
    var batch := ToBatch(s.setup, raw);
    if |s.queues.free| < s.setup.capacity && batch.Valid()
    then s.(queues := PushFree(s.queues, s.setup.capacity, raw.buffer), worker := Waiting,
            history := s.history.(returned := s.history.returned + [batch]))
    else s.(queues := PushFree(s.queues, s.setup.capacity, raw.buffer).(failures := s.queues.failures + 1),
            worker := Waiting)
  }

  function StepWorker(s: State): State {
    match s.worker
    case Waiting => s
    case Popping => PopReady(s, false)
    case Returning(raw) => ReturnBatch(s, raw)
    case Discarding => PopReady(s, true)
    case DiscardReturning(buffer) =>
      s.(queues := PushFree(s.queues, s.setup.capacity, buffer), worker := Discarding)
  }

  function Apply(s: State, step: Step): State {
    match step
    case CallbackEnter(data, timing) => Enter(s, data, timing)
    case CallbackStep => StepCallback(s)
    case WorkerPoll =>
      if !s.worker.Waiting? then s else s.(worker := if s.stopped then Discarding else Popping)
    case WorkerStep => StepWorker(s)
    case StopRequest =>
      if !s.worker.Waiting? || s.stopped then s else s.(stopped := true, worker := Discarding)
    case BackendStop => s.(stopped := true)
  }

  function Run(s: State, steps: seq<Step>): State {
    if steps == [] then s else Apply(Run(s, steps[..|steps| - 1]), steps[|steps| - 1])
  }

  // ---------------------------------------------------------------------
  // Conservation of buffers
  // ---------------------------------------------------------------------

  function Buffers(raws: seq<Raw>): multiset<nat> {
    if raws == [] then multiset{} else multiset{raws[0].buffer} + Buffers(raws[1..])
  }

  function HeldByCallback(c: Callback): multiset<nat> {
    if c.Holding? || c.Refused? || c.Aborting? then multiset{c.buffer} else multiset{}
  }

  function HeldByWorker(w: Worker): multiset<nat> {
    match w
    case Returning(raw) => multiset{raw.buffer}
    case DiscardReturning(buffer) => multiset{buffer}
    case _ => multiset{}
  }

  function AllBuffers(capacity: nat): multiset<nat> { multiset(seq(capacity, (i: nat) => i)) }

  /** No buffer is lost, duplicated or in two places, and no queue operation has ever failed. */
  predicate Conserved(capacity: nat, q: Queues, callback: multiset<nat>, worker: multiset<nat>) {
    && multiset(q.free) + Buffers(q.ready) + callback + worker == AllBuffers(capacity)
    && q.failures == 0
  }

  lemma BuffersCount(raws: seq<Raw>)
    ensures |Buffers(raws)| == |raws|
  {
  }

  lemma BuffersSnoc(raws: seq<Raw>, raw: Raw)
    ensures Buffers(raws + [raw]) == Buffers(raws) + multiset{raw.buffer}
  {
    if raws == [] {
      assert (raws + [raw])[1..] == [];
    } else {
      assert (raws + [raw])[1..] == raws[1..] + [raw];
      BuffersSnoc(raws[1..], raw);
    }
  }

  /** free + ready + held by callback + held by worker = capacity. */
  lemma BufferCount(capacity: nat, q: Queues, callback: multiset<nat>, worker: multiset<nat>)
    requires Conserved(capacity, q, callback, worker)
    ensures |q.free| + |q.ready| + |callback| + |worker| == capacity
  {
    BuffersCount(q.ready);
    var all := seq(capacity, (i: nat) => i);
    assert |multiset(all)| == capacity;
  }

  lemma FreePop(capacity: nat, q: Queues, worker: multiset<nat>)
    requires q.free != [] && Conserved(capacity, q, multiset{}, worker)
    ensures Conserved(capacity, q.(free := q.free[1..]), multiset{q.free[0]}, worker)
  {
    assert q.free == [q.free[0]] + q.free[1..];
  }

  lemma ReadyPush(capacity: nat, q: Queues, raw: Raw, worker: multiset<nat>)
    requires Conserved(capacity, q, multiset{raw.buffer}, worker)
    ensures |q.ready| < capacity
    ensures Conserved(capacity, q.(ready := q.ready + [raw]), multiset{}, worker)
  {
    BufferCount(capacity, q, multiset{raw.buffer}, worker);
    BuffersSnoc(q.ready, raw);
  }

  lemma ReadyPop(capacity: nat, q: Queues, callback: multiset<nat>)
    requires q.ready != [] && Conserved(capacity, q, callback, multiset{})
    ensures Conserved(capacity, q.(ready := q.ready[1..]), callback, multiset{q.ready[0].buffer})
  {
  }

  lemma FreePush(capacity: nat, q: Queues, buffer: nat, callback: multiset<nat>, worker: multiset<nat>)
    requires Conserved(capacity, q, callback + multiset{buffer}, worker)
          || Conserved(capacity, q, callback, worker + multiset{buffer})
    ensures |q.free| < capacity
    ensures Conserved(capacity, PushFree(q, capacity, buffer), callback, worker)
  {
    if Conserved(capacity, q, callback + multiset{buffer}, worker) {
      BufferCount(capacity, q, callback + multiset{buffer}, worker);
    } else {
      BufferCount(capacity, q, callback, worker + multiset{buffer});
    }
  }

  // ---------------------------------------------------------------------
  // What the queue history is
  // ---------------------------------------------------------------------

  /** End of the frames queued so far. */
  function QueuedEnd(queued: seq<Raw>): nat { if queued == [] then 0 else queued[|queued| - 1].End() }

  /** Every queued buffer makes a batch that its constructor accepts. */
  predicate WellShaped(raw: Raw) {
    && 1 <= |raw.samples| <= MAX_BATCH_FRAMES
    && raw.clipped <= |raw.samples| && raw.delay <= MAX_CALLBACK_DELAY_MILLIS
    && (raw.discontinuity.Some? ==> raw.discontinuity.value.at == raw.first.position)
  }

  /** Queued buffer `i` holds exactly the captured frames at its position, and its mark is the gap that
      separates it from its predecessor. */
  predicate Faithful(captured: seq<Native>, queued: seq<Raw>, i: nat)
    requires i < |queued|
  {
    var raw := queued[i];
    var before := QueuedEnd(queued[..i]);
    && before <= raw.first.position
    && raw.End() <= |captured|
    && var frames := captured[raw.first.position..raw.End()];
    && Normalized(frames) && raw.samples == Samples(frames) && raw.clipped == ClippedCount(frames)
    && raw.discontinuity == Mark(Min(raw.first.position - before, U64_MAX), i == 0, raw.first.position)
  }

  predicate AllFaithful(captured: seq<Native>, queued: seq<Raw>) {
    forall i | 0 <= i < |queued| :: Faithful(captured, queued, i)
  }

  predicate AllShaped(queued: seq<Raw>) { forall i | 0 <= i < |queued| :: WellShaped(queued[i]) }

  /** Frames already disposed of but not yet added to the position. */
  function InMotion(c: Callback): nat { if c.Moving? then c.work.Length() else 0 }

  /** Until positions leave `u64`: every captured frame has been queued or dropped, drops not yet marked
      are pending, and the queue history tiles the captured frames. */
  predicate Tiled(p: Progress, moving: nat, captured: seq<Native>, queued: seq<Raw>) {
    && p.position + moving == |captured| <= U64_MAX
    && p.pending == |captured| - QueuedEnd(queued)
    && p.firstBatch == (queued == [])
    && AllFaithful(captured, queued)
    && p.overflowCount <= |captured|
  }

  /** The worker receives the queued buffers in order, until it discards; it discards only once
      stopped. */
  predicate InOrder(setup: Setup, ready: seq<Raw>, stopped: bool, w: Worker, h: History) {
    && h.popped <= |h.queued|
    && ready == h.queued[h.popped..]
    && (h.discarded ==> stopped && !w.Popping? && !w.Returning?)
    && (w.Discarding? || w.DiscardReturning? ==> stopped)
    && (w.Returning? ==> 0 < h.popped && w.raw == h.queued[h.popped - 1])
    && (!h.discarded ==> h.popped == |h.returned| + if w.Returning? then 1 else 0)
    && |h.returned| <= h.popped
    && (forall i | 0 <= i < |h.returned| :: h.returned[i] == ToBatch(setup, h.queued[i]))
  }

  predicate HasChunk(c: Callback) {
    c.AtHead? || c.Holding? || c.Starved? || c.Moving? ==> c.work.rest != []
  }

  predicate Invariant(s: State) {
    && !s.callback.Refused? && HasChunk(s.callback)
    && Conserved(s.setup.capacity, s.queues, HeldByCallback(s.callback), HeldByWorker(s.worker))
    && AllShaped(s.history.queued)
    && InOrder(s.setup, s.queues.ready, s.stopped, s.worker, s.history)
    && (!s.history.exhausted ==> Tiled(s.progress, InMotion(s.callback), s.history.captured, s.history.queued))
  }

  lemma FaithfulStable(captured: seq<Native>, more: seq<Native>, queued: seq<Raw>, extra: seq<Raw>, i: nat)
    requires i < |queued| && Faithful(captured, queued, i)
    ensures Faithful(captured + more, queued + extra, i)
  {
    var raw := queued[i];
    assert (queued + extra)[..i] == queued[..i];
    assert (captured + more)[raw.first.position..raw.End()] == captured[raw.first.position..raw.End()];
  }

  lemma AllFaithfulStable(captured: seq<Native>, more: seq<Native>, queued: seq<Raw>)
    requires AllFaithful(captured, queued)
    ensures AllFaithful(captured + more, queued)
  {
    hide Faithful;
    assert queued + [] == queued;
    forall i | 0 <= i < |queued|
      ensures Faithful(captured + more, queued, i)
    {
      FaithfulStable(captured, more, queued, [], i);
    }
  }

  lemma FillShape(c: InputConfiguration, p: Progress, buffer: nat, w: Work)
    requires w.rest != [] && Fill(c, p, buffer, w).Some?
    ensures WellShaped(Fill(c, p, buffer, w).value) && Fill(c, p, buffer, w).value.buffer == buffer
  {
  }

  /** A chunk filled at the current position is faithful to the frames it was filled from. */
  lemma QueueTiles(c: InputConfiguration, p: Progress, captured: seq<Native>, queued: seq<Raw>, buffer: nat, w: Work)
    requires w.rest != [] && Fill(c, p, buffer, w).Some? && Tiled(p, 0, captured, queued)
    requires |captured| + w.Length() <= U64_MAX
    ensures Tiled(p.(pending := 0, firstBatch := false), w.Length(), captured + w.Chunk(),
                  queued + [Fill(c, p, buffer, w).value])
  {
    var raw := Fill(c, p, buffer, w).value;
    var (frames, raws) := (captured + w.Chunk(), queued + [raw]);
    assert frames[raw.first.position..raw.End()] == w.Chunk();
    assert raws[..|queued|] == queued;
    assert Faithful(frames, raws, |queued|);
    hide Fill, Faithful;
    forall i | 0 <= i < |raws|
      ensures Faithful(frames, raws, i)
    {
      if i < |queued| {
        FaithfulStable(captured, w.Chunk(), queued, [raw], i);
      }
    }
  }

  lemma DropTiles(p: Progress, captured: seq<Native>, queued: seq<Raw>, w: Work)
    requires w.rest != [] && Tiled(p, 0, captured, queued) && |captured| + w.Length() <= U64_MAX
    ensures Tiled(p.(pending := SaturatingAdd(p.pending, w.Length()), overflowCount := p.overflowCount + 1),
                  w.Length(), captured + w.Chunk(), queued)
  {
    AllFaithfulStable(captured, w.Chunk(), queued);
    hide AllFaithful;
  }

  // ---------------------------------------------------------------------
  // Every step keeps the invariant
  // ---------------------------------------------------------------------

  lemma TakeKeeps(s: State, w: Work)
    requires Invariant(s) && s.callback == AtHead(w)
    ensures Invariant(TakeBuffer(s, w))
  {
    hide Conserved, InOrder, Tiled, AllShaped, HeldByWorker;
    if s.queues.free != [] {
      FreePop(s.setup.capacity, s.queues, HeldByWorker(s.worker));
    }
  }

  lemma OrderGrows(setup: Setup, ready: seq<Raw>, stopped: bool, w: Worker, h: History, chunk: seq<Native>, raw: Raw)
    requires InOrder(setup, ready, stopped, w, h)
    ensures InOrder(setup, ready + [raw], stopped, w, Capture(h, chunk).(queued := h.queued + [raw]))
  {
    hide ToBatch;
  }

  lemma ShapesGrow(queued: seq<Raw>, raw: Raw)
    requires AllShaped(queued) && WellShaped(raw)
    ensures AllShaped(queued + [raw])
  {
    hide WellShaped;
  }

  lemma QueueKeeps(s: State, buffer: nat, w: Work)
    requires Invariant(s) && s.callback == Holding(buffer, w)
    ensures Invariant(QueueChunk(s, buffer, w))
  {
    hide Conserved, InOrder, Tiled, AllShaped, HeldByWorker, Fill, WellShaped;
    var raw := Fill(s.setup.configuration, s.progress, buffer, w);
    if raw.Some? {
      FillShape(s.setup.configuration, s.progress, buffer, w);
      ReadyPush(s.setup.capacity, s.queues, raw.value, HeldByWorker(s.worker));
      OrderGrows(s.setup, s.queues.ready, s.stopped, s.worker, s.history, w.Chunk(), raw.value);
      ShapesGrow(s.history.queued, raw.value);
      if !Capture(s.history, w.Chunk()).exhausted {
        QueueTiles(s.setup.configuration, s.progress, s.history.captured, s.history.queued, buffer, w);
      }
    }
  }

  lemma DropKeeps(s: State, w: Work)
    requires Invariant(s) && s.callback == Starved(w)
    ensures Invariant(DropChunk(s, w))
  {
    hide Conserved, Tiled, AllShaped, HeldByWorker, ToBatch;
    if !Capture(s.history, w.Chunk()).exhausted {
      DropTiles(s.progress, s.history.captured, s.history.queued, w);
    }
  }

  lemma MoveKeeps(s: State, w: Work, dropped: bool)
    requires Invariant(s) && s.callback == Moving(w, dropped)
    ensures Invariant(MoveOn(s, w, dropped))
  {
    hide Conserved, AllFaithful, AllShaped, HeldByWorker, ToBatch;
  }

  lemma AbortKeeps(s: State, buffer: nat)
    requires Invariant(s) && s.callback == Aborting(buffer)
    ensures Invariant(s.(queues := PushFree(s.queues, s.setup.capacity, buffer), callback := Stopping))
  {
    hide Conserved, Tiled, AllShaped, HeldByWorker, InOrder;
    assert multiset{} + multiset{buffer} == multiset{buffer};
    FreePush(s.setup.capacity, s.queues, buffer, multiset{}, HeldByWorker(s.worker));
  }

  lemma StopKeeps(s: State)
    requires Invariant(s)
    ensures Invariant(s.(stopped := true))
    ensures s.callback.Stopping? ==> Invariant(s.(stopped := true, callback := Idle))
  {
    hide Conserved, Tiled, AllShaped, HeldByWorker, ToBatch;
  }

  lemma NeverRefused(s: State)
    requires Invariant(s)
    ensures !s.callback.Refused?
  {
  }

  lemma CallbackKeeps(s: State)
    requires Invariant(s)
    ensures Invariant(StepCallback(s))
  {
    hide Invariant, TakeBuffer, QueueChunk, DropChunk, MoveOn;
    NeverRefused(s);
    match s.callback {
      case AtHead(w) => TakeKeeps(s, w);
      case Holding(buffer, w) => QueueKeeps(s, buffer, w);
      case Starved(w) => DropKeeps(s, w);
      case Moving(w, dropped) => MoveKeeps(s, w, dropped);
      case Aborting(buffer) => AbortKeeps(s, buffer);
      case Idle =>
      case Stopping => StopKeeps(s);
    }
  }

  lemma PopKeepsOrder(s: State, discard: bool)
    requires InOrder(s.setup, s.queues.ready, s.stopped, s.worker, s.history)
    requires s.worker == if discard then Discarding else Popping
    ensures var t := PopReady(s, discard); InOrder(t.setup, t.queues.ready, t.stopped, t.worker, t.history)
  {
    hide ToBatch;
  }

  lemma PopKeeps(s: State, discard: bool)
    requires Invariant(s) && s.worker == if discard then Discarding else Popping
    ensures Invariant(PopReady(s, discard))
  {
    hide Conserved, Tiled, AllShaped, HeldByCallback, InOrder;
    if s.queues.ready != [] {
      ReadyPop(s.setup.capacity, s.queues, HeldByCallback(s.callback));
    }
    PopKeepsOrder(s, discard);
  }

  /** A batch on its way back was queued, so its constructor accepts it. */
  lemma ReturnedValid(setup: Setup, ready: seq<Raw>, stopped: bool, raw: Raw, h: History)
    requires InOrder(setup, ready, stopped, Returning(raw), h) && AllShaped(h.queued)
    ensures ToBatch(setup, raw).Valid()
  {
    assert WellShaped(h.queued[h.popped - 1]);
  }

  lemma ReturnKeepsOrder(setup: Setup, ready: seq<Raw>, stopped: bool, raw: Raw, h: History)
    requires InOrder(setup, ready, stopped, Returning(raw), h)
    ensures InOrder(setup, ready, stopped, Waiting, h.(returned := h.returned + [ToBatch(setup, raw)]))
  {
    hide ToBatch;
  }

  lemma ReturnKeeps(s: State, raw: Raw)
    requires Invariant(s) && s.worker == Returning(raw)
    ensures Invariant(ReturnBatch(s, raw))
  {
    hide Conserved, AllShaped, HeldByCallback, ToBatch, Tiled, InOrder, Batch.Valid;
    ReturnedValid(s.setup, s.queues.ready, s.stopped, raw, s.history);
    ReturnKeepsOrder(s.setup, s.queues.ready, s.stopped, raw, s.history);
    assert multiset{} + multiset{raw.buffer} == multiset{raw.buffer};
    FreePush(s.setup.capacity, s.queues, raw.buffer, HeldByCallback(s.callback), multiset{});
  }

  lemma DiscardKeeps(s: State, buffer: nat)
    requires Invariant(s) && s.worker == DiscardReturning(buffer)
    ensures Invariant(s.(queues := PushFree(s.queues, s.setup.capacity, buffer), worker := Discarding))
  {
    hide Conserved, Tiled, AllShaped, HeldByCallback, ToBatch;
    assert multiset{} + multiset{buffer} == multiset{buffer};
    FreePush(s.setup.capacity, s.queues, buffer, HeldByCallback(s.callback), multiset{});
  }

  lemma WorkerKeeps(s: State)
    requires Invariant(s)
    ensures Invariant(StepWorker(s))
  {
    hide Invariant, PopReady, ReturnBatch;
    match s.worker {
      case Waiting =>
      case Popping => PopKeeps(s, false);
      case Discarding => PopKeeps(s, true);
      case Returning(raw) => ReturnKeeps(s, raw);
      case DiscardReturning(buffer) => DiscardKeeps(s, buffer);
    }
  }

  lemma EnterKeeps(s: State, data: seq<Native>, timing: CallbackTiming)
    requires Invariant(s)
    ensures Invariant(Enter(s, data, timing))
  {
    hide Conserved, Tiled, AllShaped, HeldByWorker, ToBatch;
    var c := s.setup.configuration;
    assert data != [] && |data| % c.channels == 0 ==> Selected(c, data) != [];
  }

  lemma PollKeeps(s: State, discard: bool)
    requires Invariant(s) && s.worker.Waiting? && (discard <==> s.stopped)
    ensures Invariant(s.(worker := if discard then Discarding else Popping))
  {
    hide Conserved, Tiled, AllShaped, HeldByCallback, ToBatch;
  }

  lemma StepKeepsInvariant(s: State, step: Step)
    requires Invariant(s)
    ensures Invariant(Apply(s, step))
  {
    StopKeeps(s);
    hide Invariant;
    match step {
      case CallbackEnter(data, timing) => EnterKeeps(s, data, timing);
      case CallbackStep => CallbackKeeps(s);
      case WorkerPoll => if s.worker.Waiting? { PollKeeps(s, s.stopped); }
      case WorkerStep => WorkerKeeps(s);
      case StopRequest => if s.worker.Waiting? { PollKeeps(s.(stopped := true), true); }
      case BackendStop =>
    }
  }

  lemma SetupFixed(s: State, step: Step)
    ensures Apply(s, step).setup == s.setup
  {
    hide Fill, ToBatch, Selected;
  }

  lemma InitialInvariant(setup: Setup)
    requires Initial(setup).Some?
    ensures Invariant(Initial(setup).value)
  {
  }

  /** In every interleaving of callback, worker and backend steps. */
  lemma {:induction false} InvariantAlways(setup: Setup, steps: seq<Step>)
    requires Initial(setup).Some?
    ensures Invariant(Run(Initial(setup).value, steps))
    ensures Run(Initial(setup).value, steps).setup == setup
  {
    if steps == [] {
      InitialInvariant(setup);
    } else {
      hide Apply, Invariant, Initial;
      InvariantAlways(setup, steps[..|steps| - 1]);
      StepKeepsInvariant(Run(Initial(setup).value, steps[..|steps| - 1]), steps[|steps| - 1]);
      SetupFixed(Run(Initial(setup).value, steps[..|steps| - 1]), steps[|steps| - 1]);
    }
  }

  // ---------------------------------------------------------------------
  // What callers can rely on
  // ---------------------------------------------------------------------

  /** In every interleaving each buffer is in exactly one place, so neither queue ever refuses one, no
      batch construction fails, and the path that would lose a cleared drop count is never taken. */
  lemma BuffersConserved(setup: Setup, steps: seq<Step>)
    requires Initial(setup).Some?
    ensures var s := Run(Initial(setup).value, steps);
            && multiset(s.queues.free) + Buffers(s.queues.ready) + HeldByCallback(s.callback) + HeldByWorker(s.worker)
               == AllBuffers(setup.capacity)
            && |s.queues.free| + |s.queues.ready| + |HeldByCallback(s.callback)| + |HeldByWorker(s.worker)|
               == setup.capacity
            && s.queues.failures == 0
            && !s.callback.Refused?
  {
    InvariantAlways(setup, steps);
    var s := Run(Initial(setup).value, steps);
    hide Run, Tiled, InOrder, AllShaped;
    BufferCount(setup.capacity, s.queues, HeldByCallback(s.callback), HeldByWorker(s.worker));
  }

  /** Position after the first `i` batches. */
  function StreamEnd(batches: seq<Batch>, i: nat): nat
    requires i <= |batches|
  {
    if i == 0 then 0 else batches[i - 1].first.position + |batches[i - 1].samples|
  }

  /** Batch `i` of a stream is well formed, is exactly the captured frames at its position, and carries
      an overflow mark for exactly the frames missing before it (the first batch of a gap-free stream
      carries the restart mark, every other batch none). */
  predicate StreamBatch(setup: Setup, captured: seq<Native>, batches: seq<Batch>, i: nat)
    requires i < |batches|
  {
    var b := batches[i];
    var start := b.first.position;
    && b.Valid()
    && b.processGeneration == setup.process && b.streamGeneration == setup.stream
    && b.configuration == setup.configuration
    && StreamEnd(batches, i) <= start && start + |b.samples| <= |captured| <= U64_MAX
    && var frames := captured[start..start + |b.samples|];
    && Normalized(frames) && b.samples == Samples(frames) && b.clippedSamples == ClippedCount(frames)
    && b.discontinuity == Mark(start - StreamEnd(batches, i), i == 0, start)
  }

  predicate FaithfulStream(setup: Setup, captured: seq<Native>, batches: seq<Batch>) {
    forall i | 0 <= i < |batches| :: StreamBatch(setup, captured, batches, i)
  }

  lemma QueuedIsStreamBatch(setup: Setup, captured: seq<Native>, queued: seq<Raw>, batches: seq<Batch>, i: nat)
    requires i < |batches| <= |queued| && |captured| <= U64_MAX
    requires Faithful(captured, queued, i) && WellShaped(queued[i])
    requires batches[i] == ToBatch(setup, queued[i])
    requires i > 0 ==> batches[i - 1] == ToBatch(setup, queued[i - 1])
    ensures StreamBatch(setup, captured, batches, i)
  {
    hide Normalized, Samples, Mark;
    if i > 0 {
      assert queued[..i][i - 1] == queued[i - 1];
    }
  }

  /** What the worker receives, in every interleaving, is a faithful stream of the captured frames. */
  lemma WorkerReceivesFaithfulStream(setup: Setup, steps: seq<Step>)
    requires Initial(setup).Some?
    ensures var s := Run(Initial(setup).value, steps);
            !s.history.exhausted ==> FaithfulStream(setup, s.history.captured, s.history.returned)
  {
    InvariantAlways(setup, steps);
    var s := Run(Initial(setup).value, steps);
    hide Run, Conserved, ToBatch, Faithful, WellShaped, StreamBatch, HasChunk, Initial;
    var h := s.history;
    if !h.exhausted {
      forall i | 0 <= i < |h.returned|
        ensures StreamBatch(setup, h.captured, h.returned, i)
      {
        QueuedIsStreamBatch(setup, h.captured, h.queued, h.returned, i);
      }
    }
  }

  function MarkedDrops(queued: seq<Raw>): nat {
    if queued == [] then 0
    else
      var last := queued[|queued| - 1];
      MarkedDrops(queued[..|queued| - 1])
      + if last.discontinuity.Some? then last.discontinuity.value.droppedFrames else 0
  }

  function QueuedFrames(queued: seq<Raw>): nat {
    if queued == [] then 0 else QueuedFrames(queued[..|queued| - 1]) + |queued[|queued| - 1].samples|
  }

  lemma {:induction false} MarksMeasureGaps(captured: seq<Native>, queued: seq<Raw>)
    requires AllFaithful(captured, queued) && |captured| <= U64_MAX
    ensures MarkedDrops(queued) + QueuedFrames(queued) == QueuedEnd(queued)
  {
    if queued != [] {
      var n := |queued| - 1;
      assert Faithful(captured, queued, n);
      forall i | 0 <= i < n
        ensures Faithful(captured, queued[..n], i)
      {
        assert Faithful(captured, queued, i);
        assert queued[..n][..i] == queued[..i];
      }
      hide Normalized, Samples;
      MarksMeasureGaps(captured, queued[..n]);
    }
  }

  /** Every captured frame is either queued or dropped; every dropped frame is either in a mark or still
      pending. */
  lemma DropsAccounted(setup: Setup, steps: seq<Step>)
    requires Initial(setup).Some?
    ensures var s := Run(Initial(setup).value, steps);
            !s.history.exhausted ==>
              |s.history.captured| == QueuedFrames(s.history.queued) + MarkedDrops(s.history.queued) + s.progress.pending
  {
    InvariantAlways(setup, steps);
    var s := Run(Initial(setup).value, steps);
    hide Run, Conserved, InOrder;
    if !s.history.exhausted {
      MarksMeasureGaps(s.history.captured, s.history.queued);
    }
  }
}
