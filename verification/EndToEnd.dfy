/**
 From the capture callback to the decoder: the buffer pool, the timeline and the coordinator
 composed, in every interleaving of callback and worker steps and every sequence of coordinator calls.

 Capture timestamps and clock samples are taken to count from one monotonic origin.
 */
module EndToEnd {
  import opened Numeric
  import opened Audio
  import opened Resampling
  import opened Coordinator
  import opened CoordinatorRuns
  import P = CapturePool
  import CaptureSource
  import ReceiveClock

  /** Batches of a faithful stream that follow one another without a discontinuity are the captured
      frames from the first on. */
  lemma {:induction false} ContiguousPrefix(
    setup: Setup, pool: P.Setup, captured: seq<P.Native>, batches: seq<CaptureBatch>, stream: seq<Batch>)
    requires Contiguous(setup, pool.stream, batches)
    requires P.FaithfulStream(pool, captured, stream) && |batches| <= |stream|
    requires forall i | 0 <= i < |batches| :: batches[i] == stream[i]
    ensures var n := |FramesOf(batches)|;
            && n == P.StreamEnd(stream, |batches|) && n <= |captured|
            && P.Normalized(captured[..n]) && FramesOf(batches) == P.Samples(captured[..n])
    ensures batches != [] ==> batches[0].first.position == 0
  {
    if batches == [] {
      assert FramesOf(batches) == P.Samples(captured[..0]);
    } else {
      var m := |batches| - 1;
      var (before, b) := (batches[..m], batches[m]);
      assert Contiguous(setup, pool.stream, before) by { ContiguousTake(setup, pool.stream, batches, m); }
      ContiguousPrefix(setup, pool, captured, before, stream);
      assert Follows(setup, pool.stream, batches, m);
      assert P.StreamBatch(pool, captured, stream, m);
      NoGap(setup, pool, captured, batches, stream, m);
      SamplesJoin(captured, |FramesOf(before)|, |FramesOf(before)| + |b.samples|);
    }
  }

  lemma ContiguousTake(setup: Setup, g: Generation, batches: seq<CaptureBatch>, m: nat)
    requires Contiguous(setup, g, batches) && m <= |batches|
    ensures Contiguous(setup, g, batches[..m])
  {
    hide FramesOf;
    forall j | 0 <= j < m
      ensures Follows(setup, g, batches[..m], j)
    {
      assert Follows(setup, g, batches, j);
      assert batches[..m][..j] == batches[..j];
    }
  }

  /** A gap would have been marked, and a marked batch does not follow. */
  lemma NoGap(
    setup: Setup, pool: P.Setup, captured: seq<P.Native>, batches: seq<CaptureBatch>, stream: seq<Batch>, m: nat)
    requires m < |batches| && m < |stream| && batches[m] == stream[m]
    requires Follows(setup, pool.stream, batches, m) && P.StreamBatch(pool, captured, stream, m)
    ensures batches[m].first.position == P.StreamEnd(stream, m)
  {
    hide FramesOf, P.Normalized, P.Samples;
  }

  lemma SamplesJoin(captured: seq<P.Native>, m: nat, n: nat)
    requires m <= n <= |captured| && P.Normalized(captured[..m]) && P.Normalized(captured[m..n])
    ensures P.Normalized(captured[..n])
    ensures P.Samples(captured[..n]) == P.Samples(captured[..m]) + P.Samples(captured[m..n])
  {
    assert captured[..n] == captured[..m] + captured[m..n];
  }

  /** No queued buffer holds frame `d`: it was dropped. */
  ghost predicate Dropped(p: P.State, d: nat) {
    && d < |p.history.captured|
    && (forall i | 0 <= i < |p.history.queued| ::
          !(p.history.queued[i].first.position <= d < p.history.queued[i].End()))
  }

  /** The worker's batches are the queued buffers, in order. */
  lemma ReturnedAreQueued(pool: P.Setup, steps: seq<P.Step>)
    requires P.Initial(pool).Some?
    ensures var h := P.Run(P.Initial(pool).value, steps).history;
            && |h.returned| <= |h.queued|
            && (forall i | 0 <= i < |h.returned| :: h.returned[i] == P.ToBatch(pool, h.queued[i]))
  {
    P.InvariantAlways(pool, steps);
    hide P.Run, P.Tiled, P.Conserved, P.AllShaped, P.Initial;
  }

  /** Batch `j` begins where its predecessor ends. */
  predicate Adjoins(stream: seq<Batch>, j: nat)
    requires j < |stream|
  {
    stream[j].first.position == P.StreamEnd(stream, j)
  }

  /** Every frame before the end of a stream without gaps is in one of its batches. */
  lemma {:induction false} CoveredByBatch(stream: seq<Batch>, n: nat, d: nat) returns (i: nat)
    requires n <= |stream| && d < P.StreamEnd(stream, n)
    requires forall j | 0 <= j < n :: Adjoins(stream, j)
    ensures i < n && stream[i].first.position <= d < stream[i].first.position + |stream[i].samples|
  {
    LastEnd(stream, n);
    hide Adjoins, P.StreamEnd;
    assert Adjoins(stream, n - 1);
    if d < P.StreamEnd(stream, n - 1) {
      i := CoveredByBatch(stream, n - 1, d);
    } else {
      i := n - 1;
      AdjoinsAt(stream, i);
    }
  }

  lemma LastEnd(stream: seq<Batch>, n: nat)
    requires n <= |stream|
    ensures if n == 0 then P.StreamEnd(stream, n) == 0
            else P.StreamEnd(stream, n) == stream[n - 1].first.position + |stream[n - 1].samples|
  {
  }

  lemma AdjoinsAt(stream: seq<Batch>, j: nat)
    requires j < |stream| && Adjoins(stream, j)
    ensures stream[j].first.position == P.StreamEnd(stream, j)
  {
  }

  /** Window `w` is slot `k` of the closed-form resampling of the first `n` captured frames of a stream,
      none of which was dropped and all of which could be normalized.  The captured frames are those of the
      selected channel of the callbacks' data, and the anchor's time is that of the first frame's callback. */
  ghost predicate ResampledCapture(setup: Setup, pool: P.Setup, p: P.State, w: ReceiveWindow, n: nat, k: nat) {
    && 0 < n <= |p.history.captured| && P.Normalized(p.history.captured[..n]) && p.history.returned != []
    && (forall d: nat | Dropped(p, d) :: n <= d)
    && var anchor := p.history.returned[0].first;
       var c := Context(anchor, setup.configuration.rate, setup.process, pool.stream);
       var frames := P.Samples(p.history.captured[..n]);
       && anchor.position == 0
       && CaptureSource.OfSelectedChannel(pool.configuration, p.history)
       && CaptureSource.Timed(pool.configuration, p.history.entered, anchor, |p.history.returned[0].samples|,
                              p.history.returned[0].callbackDelayMillis)
       && k < WindowCount(c, TickCount(n, c.rate))
       && w == WindowAt(c, frames, k)
  }

  /**
   Every window that reaches the decoder, in every interleaving and every run, is the closed-form
   resampling of a gap-free run of captured frames from the first on; once a frame of the stream has
   been dropped, no later frame of that stream is ever part of a window.

   The environment's part: what the coordinator obtained from its input in generation `g` is what the
   pool of that generation returned.
   */
  lemma EveryDecodedWindowIsResampledCapture(
    setup: Setup, calls: seq<Call>, pool: P.Setup, steps: seq<P.Step>, i: nat)
    requires setup.clock.Valid() && P.Initial(pool).Some?
    requires !P.Run(P.Initial(pool).value, steps).history.exhausted
    requires i < |RunCalls(setup, calls).log.entries| && RunCalls(setup, calls).log.entries[i].stream == pool.stream
    requires var obtained := RunCalls(setup, calls).log.Of(pool.stream).obtained;
             var returned := P.Run(P.Initial(pool).value, steps).history.returned;
             |obtained| <= |returned| && forall j | 0 <= j < |obtained| :: obtained[j] == returned[j]
    ensures exists n, k :: ResampledCapture(setup, pool, P.Run(P.Initial(pool).value, steps),
                                            RunCalls(setup, calls).log.entries[i].window, n, k)
  {
    InvariantAlways(setup, calls);
    P.WorkerReceivesFaithfulStream(pool, steps);
    ReturnedAreQueued(pool, steps);
    CaptureSource.CapturedIsSelectedChannel(pool, steps);
    if P.Run(P.Initial(pool).value, steps).history.returned != [] {
      CaptureSource.ReturnedBatchesTimed(pool, steps, 0);
    }
    var s := RunCalls(setup, calls);
    var p := P.Run(P.Initial(pool).value, steps);
    hide RunCalls, P.Run, P.Initial, P.FaithfulStream, P.ToBatch, CaptureSource.OfSelectedChannel, CaptureSource.Timed;
    var accepted := s.log.Of(pool.stream).accepted;
    StreamFacts(setup, s, i);
    var k: nat :| WindowFrom(setup, pool.stream, accepted, k, s.log.entries[i].window);
    WindowIsResampledCapture(setup, pool, p, accepted, s.log.entries[i].window, k);
  }

  lemma StreamFacts(setup: Setup, s: State, i: nat)
    requires Invariant(setup, s) && i < |s.log.entries|
    ensures var e := s.log.entries[i];
            var stream := s.log.Of(e.stream);
            && Contiguous(setup, e.stream, stream.accepted) && stream.accepted <= stream.obtained
            && exists k: nat :: WindowFrom(setup, e.stream, stream.accepted, k, e.window)
  {
    hide Active, Contiguous, WindowFrom;
    var e := s.log.entries[i];
    assert EntryOk(setup, s.log, s.lastStream, e);
    if e.stream in s.log.streams {
      assert StreamOk(setup, s.log, e.stream);
    } else {
      NothingContiguous(setup, e.stream);
    }
  }

  lemma WindowIsResampledCapture(
    setup: Setup, pool: P.Setup, p: P.State, accepted: seq<CaptureBatch>, w: ReceiveWindow, k: nat)
    requires P.FaithfulStream(pool, p.history.captured, p.history.returned)
    requires |p.history.returned| <= |p.history.queued|
    requires forall i | 0 <= i < |p.history.returned| :: p.history.returned[i] == P.ToBatch(pool, p.history.queued[i])
    requires Contiguous(setup, pool.stream, accepted) && |accepted| <= |p.history.returned|
    requires forall j | 0 <= j < |accepted| :: accepted[j] == p.history.returned[j]
    requires WindowFrom(setup, pool.stream, accepted, k, w)
    requires CaptureSource.OfSelectedChannel(pool.configuration, p.history)
    requires p.history.returned != [] ==>
               CaptureSource.Timed(pool.configuration, p.history.entered, p.history.returned[0].first,
                                   |p.history.returned[0].samples|, p.history.returned[0].callbackDelayMillis)
    ensures ResampledCapture(setup, pool, p, w, |FramesOf(accepted)|, k)
  {
    hide WindowAt, WindowCount, P.FaithfulStream, P.StreamEnd, Dropped, Contiguous, P.ToBatch, FirstSlot, TickCount,
         P.Normalized, P.Samples, FramesOf, CaptureSource.OfSelectedChannel, CaptureSource.Timed;
    ContiguousPrefix(setup, pool, p.history.captured, accepted, p.history.returned);
    FirstFrames(accepted);
    forall d: nat | Dropped(p, d)
      ensures |FramesOf(accepted)| <= d
    {
      if d < |FramesOf(accepted)| {
        NotDropped(setup, pool, p, accepted, d);
      }
    }
  }

  lemma FirstFrames(batches: seq<CaptureBatch>)
    requires batches != []
    ensures |FramesOf(batches)| > 0
  {
  }

  lemma NotDropped(setup: Setup, pool: P.Setup, p: P.State, accepted: seq<CaptureBatch>, d: nat)
    requires P.FaithfulStream(pool, p.history.captured, p.history.returned)
    requires |p.history.returned| <= |p.history.queued|
    requires forall i | 0 <= i < |p.history.returned| :: p.history.returned[i] == P.ToBatch(pool, p.history.queued[i])
    requires Contiguous(setup, pool.stream, accepted) && |accepted| <= |p.history.returned|
    requires forall j | 0 <= j < |accepted| :: accepted[j] == p.history.returned[j]
    requires d < |FramesOf(accepted)|
    ensures !Dropped(p, d)
  {
    var h := p.history;
    ContiguousPrefix(setup, pool, h.captured, accepted, h.returned);
    forall j | 0 <= j < |accepted|
      ensures Adjoins(h.returned, j)
    {
      assert Follows(setup, pool.stream, accepted, j) && P.StreamBatch(pool, h.captured, h.returned, j);
      NoGap(setup, pool, h.captured, accepted, h.returned, j);
    }
    var i := CoveredByBatch(h.returned, |accepted|, d);
    assert h.returned[i] == P.ToBatch(pool, h.queued[i]);
  }

  /** A window passes the gate only if the capture clock, as the stream's first batch read it, agrees
      with the accepted clock mapping to within the tolerance, and that mapping is fresh. */
  lemma ReadyWindowAgreesWithClock(
    setup: Setup, g: Generation, batches: seq<CaptureBatch>, k: nat, w: ReceiveWindow, m: ReceiveClock.Monitor, now: u64)
    requires WindowFrom(setup, g, batches, k, w) && m.Valid()
    requires ReceiveClock.Gate(m, Window(w), now).1.WindowReady?
    ensures m.state.Healthy? && SaturatingSub(now, m.lastAccepted.monotonic) <= m.config.freshness
    ensures Abs((batches[0].first.monotonic - batches[0].first.utc)
                - (m.lastAccepted.monotonic - m.lastAccepted.utc)) <= m.config.jumpTolerance
  {
    hide WindowAt, WindowsIn, FirstSlot;
    ReceiveClock.GateSafety(m, w, now);
  }
}
