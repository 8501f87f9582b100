/**
 The ordering validator of one stream generation, and why the buffer pool's batches satisfy it.
 */
module CaptureSequence {
  import opened Numeric
  import opened Audio
  import P = CapturePool

  datatype SequenceError =
    | GenerationChanged | PositionRegressed | UnmarkedGap | MonotonicRegressed | PositionOverflow

  datatype Expectation = Expectation(process: Generation, stream: Generation, next: u64, lastMonotonic: u64)

  function After(b: CaptureBatch): Result<Expectation, SequenceError> {
    if b.EndPosition().None? then Err(PositionOverflow)
    else Ok(Expectation(b.processGeneration, b.streamGeneration, b.EndPosition().value, b.first.monotonic))
  }

  function Judge(e: Expectation, b: CaptureBatch): Option<SequenceError> {
    if b.processGeneration != e.process || b.streamGeneration != e.stream then Some(GenerationChanged)
    else if b.first.position < e.next then Some(PositionRegressed)
    else if b.first.position > e.next && b.discontinuity.None? then Some(UnmarkedGap)
    else if b.first.monotonic < e.lastMonotonic then Some(MonotonicRegressed)
    else if b.EndPosition().None? then Some(PositionOverflow)
    else None
  }

  class SequenceValidator {
    const process: Generation
    const stream: Generation
    var next: u64
    var lastMonotonic: u64

    ghost function Abs(): Expectation
      reads this
    {
      Expectation(process, stream, next, lastMonotonic)
    }

    constructor (first: CaptureBatch)
      requires After(first).Ok?
      ensures Abs() == After(first).value
    {
      process, stream := first.processGeneration, first.streamGeneration;
      next, lastMonotonic := first.EndPosition().value, first.first.monotonic;
    }

    /** Advances over the batch, or leaves the expectation as it was. */
    method Observe(b: CaptureBatch) returns (error: Option<SequenceError>)
      modifies this
      ensures error == Judge(old(Abs()), b)
      ensures if error.None? then After(b) == Ok(Abs()) else Abs() == old(Abs())
    {
      if b.processGeneration != process || b.streamGeneration != stream {
        return Some(GenerationChanged);
      }
      if b.first.position < next {
        return Some(PositionRegressed);
      }
      if b.first.position > next && b.discontinuity.None? {
        return Some(UnmarkedGap);
      }
      if b.first.monotonic < lastMonotonic {
        return Some(MonotonicRegressed);
      }
      if b.EndPosition().None? {
        return Some(PositionOverflow);
      }
      next := b.EndPosition().value;
      lastMonotonic := b.first.monotonic;
      error := None;
    }
  }

  /** What the worker receives satisfies the validator in every interleaving: a batch is refused exactly
      when its capture time is before its predecessor's. */
  lemma StreamSatisfiesSequence(setup: P.Setup, steps: seq<P.Step>, i: nat)
    requires P.Initial(setup).Some?
    requires var h := P.Run(P.Initial(setup).value, steps).history; !h.exhausted && i < |h.returned|
    ensures var batches := P.Run(P.Initial(setup).value, steps).history.returned;
            && batches[i].Valid() && After(batches[i]).Ok?
            && (i > 0 ==>
                  && batches[i - 1].Valid() && After(batches[i - 1]).Ok?
                  && Judge(After(batches[i - 1]).value, batches[i])
                     == if batches[i].first.monotonic < batches[i - 1].first.monotonic then Some(MonotonicRegressed) else None)
  {
    P.WorkerReceivesFaithfulStream(setup, steps);
    var h := P.Run(P.Initial(setup).value, steps).history;
    hide P.Run, P.Initial, P.Normalized, P.Samples;
    assert P.StreamBatch(setup, h.captured, h.returned, i);
    if i > 0 {
      assert P.StreamBatch(setup, h.captured, h.returned, i - 1);
    }
  }

  /** Batch `b` may follow batch `a`: same generations, no step back in position or time, and a mark on any gap. */
  predicate MayFollow(a: CaptureBatch, b: CaptureBatch) {
    && b.processGeneration == a.processGeneration && b.streamGeneration == a.streamGeneration
    && a.first.position + |a.samples| <= b.first.position
    && (a.first.position + |a.samples| < b.first.position ==> b.discontinuity.Some?)
    && a.first.monotonic <= b.first.monotonic
  }

  predicate HasEnd(b: CaptureBatch) { b.first.position + |b.samples| <= 0xffff_ffff_ffff_ffff }

  /** The verdict on a batch after `a` names the first rule it breaks. */
  lemma JudgeVerdict(a: CaptureBatch, b: CaptureBatch)
    requires HasEnd(a)
    ensures After(a).Ok?
    ensures var (error, end) := (Judge(After(a).value, b), a.first.position + |a.samples|);
            && (error.None? <==> MayFollow(a, b) && HasEnd(b))
            && (error == Some(GenerationChanged) <==>
                  b.processGeneration != a.processGeneration || b.streamGeneration != a.streamGeneration)
            && (error == Some(PositionRegressed) <==>
                  && b.processGeneration == a.processGeneration && b.streamGeneration == a.streamGeneration
                  && b.first.position < end)
            && (error == Some(UnmarkedGap) <==>
                  && b.processGeneration == a.processGeneration && b.streamGeneration == a.streamGeneration
                  && b.first.position > end && b.discontinuity.None?)
            && (error == Some(PositionOverflow) <==> MayFollow(a, b) && !HasEnd(b))
  {
  }

  /** The validator, begun with the first batch, accepts all of them. */
  predicate Accepts(batches: seq<CaptureBatch>) {
    batches != [] &&
    if |batches| == 1 then After(batches[0]).Ok?
    else
      var n := |batches| - 1;
      Accepts(batches[..n]) && After(batches[n - 1]).Ok? && Judge(After(batches[n - 1]).value, batches[n]).None?
  }

  ghost predicate Ordered(batches: seq<CaptureBatch>) {
    && batches != [] && (forall i | 0 <= i < |batches| :: HasEnd(batches[i]))
    && (forall i, j | 0 <= i && j == i + 1 && j < |batches| :: MayFollow(batches[i], batches[j]))
  }

  /** A whole sequence is accepted exactly when each batch may follow the one before it. */
  lemma {:induction false} AcceptsExactly(batches: seq<CaptureBatch>)
    ensures Accepts(batches) <==> Ordered(batches)
  {
    if |batches| > 1 {
      var n := |batches| - 1;
      var before := batches[..n];
      AcceptsExactly(before);
      assert batches[n - 1] == before[n - 1];
      if HasEnd(batches[n - 1]) { JudgeVerdict(batches[n - 1], batches[n]); }
      hide MayFollow, Judge;
      if Accepts(batches) {
        forall i, j | 0 <= i && j == i + 1 && j < |batches|
          ensures MayFollow(batches[i], batches[j])
        {
          if j < n { assert MayFollow(before[i], before[j]); }
        }
      }
      if Ordered(batches) {
        forall i, j | 0 <= i && j == i + 1 && j < n
          ensures MayFollow(before[i], before[j])
        {
          assert MayFollow(batches[i], batches[j]);
        }
        assert MayFollow(batches[n - 1], batches[n]);
      }
    }
  }
}
