/**
 Where the captured frames and their times come from: the selected channel of the callbacks' interleaved data, and
 the callbacks' own clock readings.
 */
module CaptureSource {
  import opened Numeric
  import opened Audio
  import opened CapturePool

  // ---------------------------------------------------------------------
  // The selected channel
  // ---------------------------------------------------------------------

  /** The selected channel of interleaved data has one value per whole frame, the value at that channel. */
  lemma {:induction false} SelectedFrames(c: InputConfiguration, data: seq<Native>)
    ensures |Selected(c, data)| == |data| / c.channels
    ensures forall f | 0 <= f < |Selected(c, data)| ::
              0 <= f * c.channels + c.selectedChannel < |data|
              && Selected(c, data)[f] == data[f * c.channels + c.selectedChannel]
    decreases |data|
  {
    var (n, k) := (c.channels, c.selectedChannel);
    if |data| >= n {
      var rest := data[n..];
      SelectedFrames(c, rest);
      OneFrameLess(|data|, n);
      forall f | 0 <= f < |Selected(c, data)|
        ensures 0 <= f * n + k < |data| && Selected(c, data)[f] == data[f * n + k]
      {
        if f > 0 {
          ProductStep(f - 1, n);
          assert Selected(c, data)[f] == Selected(c, rest)[f - 1] == rest[(f - 1) * n + k];
        }
      }
    } else {
      NoWholeFrame(|data|, n);
    }
  }

  lemma OneFrameLess(x: nat, n: nat)
    requires 0 < n <= x
    ensures x / n == (x - n) / n + 1 && x % n == (x - n) % n
  {
    DivisionIdentity(x - n, n);
    ProductStep((x - n) / n, n);
    DivisionUnique(x, n, (x - n) / n + 1, (x - n) % n);
  }

  lemma DivisionUnique(x: nat, n: nat, q: nat, r: nat)
    requires x == q * n + r && r < n
    ensures x / n == q && x % n == r
  {
    QuotientBound(x, n, q);
    QuotientBound(x, n, q + 1);
    ProductStep(q, n);
    DivisionIdentity(x, n);
  }

  lemma NoWholeFrame(x: nat, n: nat)
    requires x < n
    ensures x / n == 0 && x % n == x
  {
  }

  lemma {:induction false} SelectedJoin(c: InputConfiguration, one: seq<Native>, two: seq<Native>)
    requires |one| % c.channels == 0
    ensures Selected(c, one + two) == Selected(c, one) + Selected(c, two)
    decreases |one|
  {
    var n := c.channels;
    if one == [] {
      assert one + two == two;
    } else {
      WholeFrames(|one|, n);
      OneFrameLess(|one|, n);
      SelectedJoin(c, one[n..], two);
      assert (one + two)[n..] == one[n..] + two;
    }
  }

  lemma WholeFrames(x: nat, n: nat)
    requires 0 < n && 0 < x && x % n == 0
    ensures n <= x
  {
  }

  /** All interleaved values that the callbacks brought, in order. */
  function Offered(entered: seq<Call>): seq<Native> {
    if entered == [] then [] else Offered(entered[..|entered| - 1]) + entered[|entered| - 1].data
  }

  /** Frames that the callbacks before number `j` brought. */
  function FramesBefore(c: InputConfiguration, entered: seq<Call>, j: nat): nat
    requires j <= |entered|
  {
    |Offered(entered[..j])| / c.channels
  }

  /** Every callback brought whole frames, at least one. */
  predicate Whole(c: InputConfiguration, entered: seq<Call>) {
    forall j | 0 <= j < |entered| :: entered[j].data != [] && |entered[j].data| % c.channels == 0
  }

  lemma {:induction false} OfferedWhole(c: InputConfiguration, entered: seq<Call>)
    requires Whole(c, entered)
    ensures |Offered(entered)| % c.channels == 0
  {
    if entered == [] {
      NoWholeFrame(0, c.channels);
    } else {
      var (before, last) := (entered[..|entered| - 1], entered[|entered| - 1]);
      OfferedWhole(c, before);
      assert |last.data| % c.channels == 0;
      hide Whole;
      WholeSum(|Offered(before)|, |last.data|, c.channels);
      assert |Offered(entered)| == |Offered(before)| + |last.data|;
    }
  }

  lemma WholeSum(x: nat, y: nat, n: nat)
    requires 0 < n && x % n == 0 && y % n == 0
    ensures (x + y) % n == 0 && (x + y) / n == x / n + y / n
  {
    DivisionIdentity(x, n);
    DivisionIdentity(y, n);
    SumTimes(x / n, y / n, n);
    DivisionUnique(x + y, n, x / n + y / n, 0);
  }

  lemma SumTimes(a: nat, b: nat, n: nat)
    ensures (a + b) * n == a * n + b * n
  {
  }

  /** One more callback. */
  lemma OfferedGrows(c: InputConfiguration, entered: seq<Call>, call: Call)
    requires Whole(c, entered) && call.data != [] && |call.data| % c.channels == 0
    ensures var all := entered + [call];
            && Whole(c, all) && Offered(all) == Offered(entered) + call.data
            && Selected(c, Offered(all)) == Selected(c, Offered(entered)) + Selected(c, call.data)
            && FramesBefore(c, all, |entered|) == |Selected(c, Offered(entered))|
  {
    var all := entered + [call];
    assert all[..|entered|] == entered;
    OfferedWhole(c, entered);
    SelectedJoin(c, Offered(entered), call.data);
    SelectedFrames(c, Offered(entered));
  }

  // ---------------------------------------------------------------------
  // What the callback has still to dispose of
  // ---------------------------------------------------------------------

  predicate Working(cb: Callback) { cb.AtHead? || cb.Holding? || cb.Starved? || cb.Refused? || cb.Moving? }

  /** Frames of the current callback that are not captured yet. */
  function Left(cb: Callback): seq<Native> {
    if !Working(cb) then [] else if cb.Moving? then cb.work.rest[cb.work.Length()..] else cb.work.rest
  }

  /** The work is what is left of the last callback, with its timing. */
  ghost predicate Current(c: InputConfiguration, entered: seq<Call>, w: Work) {
    && entered != []
    && w.timing == entered[|entered| - 1].timing
    && w.offset + |w.rest| == |entered[|entered| - 1].data| / c.channels
  }

  /** The captured frames are a beginning of the selected channel of all callbacks; nothing is missing while a
      callback works, or between callbacks of a stream that is not stopped. */
  ghost predicate Supplied(s: State) {
    var (c, h) := (s.setup.configuration, s.history);
    var all := Selected(c, Offered(h.entered));
    && Whole(c, h.entered)
    && h.captured + Left(s.callback) <= all
    && (Working(s.callback) ==> h.captured + Left(s.callback) == all && Current(c, h.entered, s.callback.work))
    && (s.callback.Idle? && !s.stopped ==> h.captured == all)
  }

  // ---------------------------------------------------------------------
  // Times
  // ---------------------------------------------------------------------

  /** Frames taken from callback `j` carry that callback's time, moved by the whole milliseconds of the frames
      before them in it; sums saturate. */
  ghost predicate TimedBy(
    c: InputConfiguration, entered: seq<Call>, j: nat, e: TimeEvidence, frames: nat, delay: u32)
    requires j < |entered|
  {
    var start := FramesBefore(c, entered, j);
    && start <= e.position && e.position + frames <= start + |entered[j].data| / c.channels
    && e.utc == Min(entered[j].timing.utc + Min((e.position - start) * 1_000, U64_MAX) / c.rate, I64_MAX)
    && e.monotonic == Min(entered[j].timing.monotonic + Min((e.position - start) * 1_000, U64_MAX) / c.rate, U64_MAX)
    && delay == entered[j].timing.delay
  }

  ghost predicate Timed(c: InputConfiguration, entered: seq<Call>, e: TimeEvidence, frames: nat, delay: u32) {
    exists j | 0 <= j < |entered| :: TimedBy(c, entered, j, e, frames, delay)
  }

  ghost predicate AllTimed(c: InputConfiguration, h: History) {
    forall i | 0 <= i < |h.queued| :: Timed(c, h.entered, h.queued[i].first, |h.queued[i].samples|, h.queued[i].delay)
  }

  lemma TimedGrows(c: InputConfiguration, entered: seq<Call>, call: Call, e: TimeEvidence, frames: nat, delay: u32)
    requires Timed(c, entered, e, frames, delay)
    ensures Timed(c, entered + [call], e, frames, delay)
  {
    var j :| 0 <= j < |entered| && TimedBy(c, entered, j, e, frames, delay);
    assert (entered + [call])[..j] == entered[..j];
    assert TimedBy(c, entered + [call], j, e, frames, delay);
  }

  /** A buffer filled at the current position carries the time of the current callback. */
  lemma FilledTimed(c: InputConfiguration, p: Progress, buffer: nat, w: Work, h: History)
    requires Whole(c, h.entered) && Current(c, h.entered, w) && h.captured + w.rest == Selected(c, Offered(h.entered))
    requires p.position == |h.captured| && w.rest != [] && Fill(c, p, buffer, w).Some?
    ensures var raw := Fill(c, p, buffer, w).value; Timed(c, h.entered, raw.first, |raw.samples|, raw.delay)
  {
    var raw := Fill(c, p, buffer, w).value;
    var j := |h.entered| - 1;
    PlaceInCall(c, h, w);
    hide Selected, Offered, FramesBefore, Whole;
    OffsetFits(c, w.offset);
    assert TimedBy(c, h.entered, j, raw.first, |raw.samples|, raw.delay);
  }

  lemma OffsetFits(c: InputConfiguration, offset: nat)
    ensures Quotient(Min(offset * 1_000, U64_MAX), c.rate) <= I64_MAX
  {
    QuotientBound(Min(offset * 1_000, U64_MAX), c.rate, I64_MAX + 1);
    ProductMonotone(MIN_RATE_HZ, c.rate, I64_MAX + 1);
  }

  /** What is left of the current callback begins as far into it as its offset says. */
  lemma PlaceInCall(c: InputConfiguration, h: History, w: Work)
    requires Whole(c, h.entered) && Current(c, h.entered, w) && h.captured + w.rest == Selected(c, Offered(h.entered))
    requires w.rest != []
    ensures var j := |h.entered| - 1;
            && j >= 0 && FramesBefore(c, h.entered, j) + w.offset == |h.captured|
            && |w.rest| == |h.entered[j].data| / c.channels - w.offset
  {
    var j := |h.entered| - 1;
    var (before, last) := (h.entered[..j], h.entered[j]);
    assert h.entered == before + [last];
    OfferedGrows(c, before, last);
    SelectedFrames(c, last.data);
    hide Selected, Offered;
  }

  // ---------------------------------------------------------------------
  // Every step
  // ---------------------------------------------------------------------

  ghost predicate Sourced(s: State) {
    Supplied(s) && (!s.history.exhausted ==> AllTimed(s.setup.configuration, s.history))
  }

  lemma EnterSourced(s: State, data: seq<Native>, timing: CallbackTiming)
    requires Sourced(s)
    ensures Sourced(Enter(s, data, timing))
  {
    var (c, h, call) := (s.setup.configuration, s.history, Call(data, timing));
    var t := Enter(s, data, timing);
    if s.callback.Idle? && !s.stopped && t.callback.AtHead? {
      OfferedGrows(c, h.entered, call);
      SelectedFrames(c, data);
      assert Left(s.callback) == [] && h.captured + [] == h.captured;
      hide Selected, Timed, Offered;
      if !h.exhausted {
        forall i | 0 <= i < |h.queued|
          ensures Timed(c, t.history.entered, h.queued[i].first, |h.queued[i].samples|, h.queued[i].delay)
        {
          TimedGrows(c, h.entered, call, h.queued[i].first, |h.queued[i].samples|, h.queued[i].delay);
        }
      }
    }
  }

  lemma QueueSourced(s: State, buffer: nat, w: Work)
    requires Invariant(s) && Sourced(s) && s.callback == Holding(buffer, w)
    ensures Sourced(QueueChunk(s, buffer, w))
  {
    hide Selected, Fill, Timed, Offered, Supplied, Invariant, Whole, Current;
    var t := QueueChunk(s, buffer, w);
    QueueSupplied(s, buffer, w);
    if !t.history.exhausted && t.callback.Moving? {
      AtPosition(s, buffer, w);
      FilledTimed(s.setup.configuration, s.progress, buffer, w, s.history);
    }
  }

  /** A held chunk is the next to be captured. */
  lemma AtPosition(s: State, buffer: nat, w: Work)
    requires Invariant(s) && Supplied(s) && s.callback == Holding(buffer, w) && !s.history.exhausted
    ensures s.progress.position == |s.history.captured| && w.rest != []
    ensures var (c, h) := (s.setup.configuration, s.history);
            Whole(c, h.entered) && Current(c, h.entered, w) && h.captured + w.rest == Selected(c, Offered(h.entered))
  {
    hide Selected, Offered, Whole, Current, Conserved, InOrder, AllShaped, AllFaithful;
  }

  lemma QueueSupplied(s: State, buffer: nat, w: Work)
    requires Supplied(s) && s.callback == Holding(buffer, w)
    ensures Supplied(QueueChunk(s, buffer, w))
  {
    hide Selected, Fill, Offered, Whole;
    var h := s.history;
    assert w.rest == w.Chunk() + w.rest[w.Length()..];
    assert (h.captured + w.Chunk()) + w.rest[w.Length()..] == h.captured + w.rest;
    assert h.captured + [] == h.captured;
  }

  lemma DropSourced(s: State, w: Work)
    requires Sourced(s) && s.callback == Starved(w)
    ensures Sourced(DropChunk(s, w))
  {
    hide Selected, Timed, Offered;
    var h := s.history;
    assert w.rest == w.Chunk() + w.rest[w.Length()..];
    assert (h.captured + w.Chunk()) + w.rest[w.Length()..] == h.captured + w.rest;
  }

  lemma MoveSourced(s: State, w: Work, dropped: bool)
    requires Sourced(s) && s.callback == Moving(w, dropped)
    ensures Sourced(MoveOn(s, w, dropped))
  {
    hide Selected, Timed, Offered;
    assert s.history.captured + [] == s.history.captured;
  }

  lemma CallbackSourced(s: State)
    requires Invariant(s) && Sourced(s)
    ensures Sourced(StepCallback(s))
  {
    hide Selected, Timed, Offered, Invariant, Fill, QueueChunk, DropChunk, MoveOn;
    NeverRefused(s);
    match s.callback {
      case AtHead(w) =>
      case Holding(buffer, w) => QueueSourced(s, buffer, w);
      case Starved(w) => DropSourced(s, w);
      case Moving(w, dropped) => MoveSourced(s, w, dropped);
      case Aborting(buffer) =>
      case Idle =>
      case Stopping =>
    }
  }

  lemma StepSourced(s: State, step: Step)
    requires Invariant(s) && Sourced(s)
    ensures Sourced(Apply(s, step))
  {
    match step {
      case CallbackEnter(data, timing) => EnterSourced(s, data, timing);
      case CallbackStep => CallbackSourced(s);
      case _ => OtherSourced(s, step);
    }
  }

  /** The worker and a stop leave the callback's side alone. */
  lemma OtherSourced(s: State, step: Step)
    requires Sourced(s) && !step.CallbackEnter? && !step.CallbackStep?
    ensures Sourced(Apply(s, step))
  {
    OtherLeaves(s, step);
    hide Apply, Selected, Timed, Offered, Whole, Current;
  }

  lemma OtherLeaves(s: State, step: Step)
    requires !step.CallbackEnter? && !step.CallbackStep?
    ensures var t := Apply(s, step);
            && t.setup == s.setup && t.callback == s.callback && (s.stopped ==> t.stopped)
            && t.history.entered == s.history.entered && t.history.captured == s.history.captured
            && t.history.queued == s.history.queued && t.history.exhausted == s.history.exhausted
  {
    hide ToBatch, PushFree;
  }

  lemma {:induction false} SourcedAlways(setup: Setup, steps: seq<Step>)
    requires Initial(setup).Some?
    ensures Sourced(Run(Initial(setup).value, steps))
  {
    if steps == [] {
      var none: seq<Native> := [];
      assert none + none == none;
    } else {
      hide Apply, Invariant, Initial, Sourced;
      var before := steps[..|steps| - 1];
      SourcedAlways(setup, before);
      InvariantAlways(setup, before);
      StepSourced(Run(Initial(setup).value, before), steps[|steps| - 1]);
    }
  }

  // ---------------------------------------------------------------------
  // What callers can rely on
  // ---------------------------------------------------------------------

  /** Captured frame `d` is the selected channel of frame `d` of all that the callbacks brought. */
  ghost predicate OfSelectedChannel(c: InputConfiguration, h: History) {
    && |h.captured| * c.channels <= |Offered(h.entered)|
    && forall d | 0 <= d < |h.captured| ::
         0 <= d * c.channels + c.selectedChannel < |Offered(h.entered)|
         && h.captured[d] == Offered(h.entered)[d * c.channels + c.selectedChannel]
  }

  /** In every interleaving the captured frames are the first frames of the selected channel of the callbacks'
      interleaved data, and all of them between the callbacks of a stream that was not stopped. */
  lemma CapturedIsSelectedChannel(setup: Setup, steps: seq<Step>)
    requires Initial(setup).Some?
    ensures var s := Run(Initial(setup).value, steps);
            && OfSelectedChannel(setup.configuration, s.history)
            && (s.callback.Idle? && !s.stopped ==>
                  |s.history.captured| * setup.configuration.channels == |Offered(s.history.entered)|)
  {
    SourcedAlways(setup, steps);
    InvariantAlways(setup, steps);
    var s := Run(Initial(setup).value, steps);
    hide Run, Initial, Invariant, OfSelectedChannel, Timed, Selected, Offered;
    PrefixOfChannel(setup.configuration, s.history, Left(s.callback));
  }

  lemma PrefixOfChannel(c: InputConfiguration, h: History, left: seq<Native>)
    requires Whole(c, h.entered) && h.captured + left <= Selected(c, Offered(h.entered))
    ensures OfSelectedChannel(c, h)
    ensures h.captured == Selected(c, Offered(h.entered)) ==> |h.captured| * c.channels == |Offered(h.entered)|
  {
    var (offered, captured) := (Offered(h.entered), h.captured);
    SelectedFrames(c, offered);
    OfferedWhole(c, h.entered);
    DivisionIdentity(|offered|, c.channels);
    ProductMonotone(|captured|, |offered| / c.channels, c.channels);
    hide Selected, Offered, Whole;
    forall d | 0 <= d < |captured|
      ensures captured[d] == Selected(c, offered)[d]
    {
      assert (captured + left)[d] == captured[d];
    }
  }

  /** In every interleaving each batch that the worker gets carries the time of the callback its frames came from. */
  lemma ReturnedBatchesTimed(setup: Setup, steps: seq<Step>, i: nat)
    requires Initial(setup).Some?
    requires var h := Run(Initial(setup).value, steps).history; !h.exhausted && i < |h.returned|
    ensures var h := Run(Initial(setup).value, steps).history;
            var b := h.returned[i];
            Timed(setup.configuration, h.entered, b.first, |b.samples|, b.callbackDelayMillis)
  {
    SourcedAlways(setup, steps);
    InvariantAlways(setup, steps);
    hide Run, Initial, Timed, Conserved, Tiled;
    var h := Run(Initial(setup).value, steps).history;
    assert h.returned[i] == ToBatch(setup, h.queued[i]);
  }

  /** Batch `i` of the delivered ones, frame by frame: its samples and clipped frames are the captured frames at its
      position, and its discontinuity tells how many frames are missing before it, or that the stream begins. */
  ghost predicate Delivered(captured: seq<Native>, batches: seq<Batch>, i: nat)
    requires i < |batches|
  {
    var (b, d) := (batches[i], batches[i].discontinuity);
    var before := if i == 0 then 0 else batches[i - 1].first.position + |batches[i - 1].samples|;
    var missing := b.first.position - before;
    && missing >= 0 && b.first.position + |b.samples| <= |captured|
    && (forall k | 0 <= k < |b.samples| ::
          captured[b.first.position + k].Some? && b.samples[k] == captured[b.first.position + k].value.sample)
    && b.clippedSamples == multiset(Flags(captured[b.first.position..b.first.position + |b.samples|]))[true]
    && (d.Some? <==> missing > 0 || i == 0)
    && (d.Some? ==> d.value.at == b.first.position && d.value.droppedFrames == missing)
    && (d.Some? ==> d.value.kind == if missing > 0 then Overflow else StreamRestart)
  }

  /** In every interleaving the worker gets the captured frames and is told exactly which are missing. */
  lemma BatchesDelivered(setup: Setup, steps: seq<Step>, i: nat)
    requires Initial(setup).Some?
    requires var h := Run(Initial(setup).value, steps).history; !h.exhausted && i < |h.returned|
    ensures var h := Run(Initial(setup).value, steps).history; Delivered(h.captured, h.returned, i)
  {
    WorkerReceivesFaithfulStream(setup, steps);
    var h := Run(Initial(setup).value, steps).history;
    hide Run, Initial, StreamBatch, Delivered;
    assert StreamBatch(setup, h.captured, h.returned, i);
    FrameByFrame(setup, h.captured, h.returned, i);
  }

  lemma FrameByFrame(setup: Setup, captured: seq<Native>, batches: seq<Batch>, i: nat)
    requires i < |batches| && StreamBatch(setup, captured, batches, i)
    ensures Delivered(captured, batches, i)
  {
    var b := batches[i];
    var (from, to) := (b.first.position, b.first.position + |b.samples|);
    var frames := captured[from..to];
    ClippedFrames(frames);
    hide ClippedCount, Flags, Batch.Valid;
    forall k | 0 <= k < |b.samples|
      ensures captured[from + k].Some? && b.samples[k] == captured[from + k].value.sample
    {
      assert frames[k] == captured[from + k];
    }
    hide Samples, Normalized;
  }
}
