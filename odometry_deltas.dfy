/** Specification of the high-frequency drive-distance deltas a swerve module
    publishes each tick: the batch of cumulative distances sampled since the
    previous tick is turned into per-sample increments, each relative to the
    sample before it, the first relative to the distance carried over from
    the previous tick. Distances are exact reals (no floating-point rounding). */
module HighFreqOdometry {

  /** The increments of the cumulative distances `ds`, given the distance
      `last` seen before the first of them. */
  function Deltas(last: real, ds: seq<real>): (r: seq<real>)
    ensures |r| == |ds|
    decreases |ds|
  {
    if ds == [] then [] else [ds[0] - last] + Deltas(ds[0], ds[1..])
  }

  /** The distance carried over to the next tick: the last sample of the
      batch, or the previous value when the batch is empty. */
  function LastAfter(last: real, ds: seq<real>): real
  {
    if ds == [] then last else ds[|ds| - 1]
  }

  /** Sum of a sequence of increments. */
  function Sum(s: seq<real>): real
  {
    if s == [] then 0.0 else s[0] + Sum(s[1..])
  }

  /** Running totals of the increments `ds` starting from `last`: the
      inverse of `Deltas`. */
  function Accumulate(last: real, ds: seq<real>): (r: seq<real>)
    ensures |r| == |ds|
    decreases |ds|
  {
    if ds == [] then [] else [last + ds[0]] + Accumulate(last + ds[0], ds[1..])
  }

  /** Element-wise: the first delta is measured from the carried-over
      distance, every later one from the sample just before it. */
  lemma {:induction false} DeltasAt(last: real, ds: seq<real>, i: nat)
    requires i < |ds|
    ensures Deltas(last, ds)[i] == ds[i] - (if i == 0 then last else ds[i - 1])
    decreases |ds|
  {
    if i > 0 {
      DeltasAt(ds[0], ds[1..], i - 1);
    }
  }

  /** The element-wise formula determines the deltas completely. */
  lemma DeltasUnique(last: real, ds: seq<real>, r: seq<real>)
    requires |r| == |ds|
    requires forall i :: 0 <= i < |ds| ==> r[i] == ds[i] - (if i == 0 then last else ds[i - 1])
    ensures r == Deltas(last, ds)
  {
    forall i | 0 <= i < |ds| ensures r[i] == Deltas(last, ds)[i] {
      DeltasAt(last, ds, i);
    }
  }

  /** Processing `a` and then `b`, with the carried-over distance passed
      from the first to the second, gives the same deltas as processing
      `a + b` at once. */
  lemma {:induction false} DeltasConcat(last: real, a: seq<real>, b: seq<real>)
    ensures Deltas(last, a + b) == Deltas(last, a) + Deltas(LastAfter(last, a), b)
    ensures LastAfter(last, a + b) == LastAfter(LastAfter(last, a), b)
    decreases |a|
  {
    if a != [] {
      assert (a + b)[0] == a[0];
      assert (a + b)[1..] == a[1..] + b;
      DeltasConcat(a[0], a[1..], b);
      assert LastAfter(a[0], a[1..]) == LastAfter(last, a);
    } else {
      assert a + b == b;
    }
  }

  /** One more sample appends one more delta, measured from the distance
      carried so far. */
  lemma DeltasSnoc(last: real, ds: seq<real>, x: real)
    ensures Deltas(last, ds + [x]) == Deltas(last, ds) + [x - LastAfter(last, ds)]
    ensures LastAfter(last, ds + [x]) == x
  {
    DeltasConcat(last, ds, [x]);
    assert Deltas(LastAfter(last, ds), [x]) == [x - LastAfter(last, ds)] + Deltas(x, []);
  }

  /** Telescoping: the deltas of a batch add up to the distance travelled
      between the carried-over distance and the end of the batch. */
  lemma {:induction false} SumDeltas(last: real, ds: seq<real>)
    ensures Sum(Deltas(last, ds)) == LastAfter(last, ds) - last
    decreases |ds|
  {
    if ds != [] {
      SumDeltas(ds[0], ds[1..]);
      assert LastAfter(ds[0], ds[1..]) == LastAfter(last, ds);
    }
  }

  /** Accumulating the deltas from the same starting distance gives back
      the sampled distances: no sample is lost. */
  lemma {:induction false} AccumulateDeltas(last: real, ds: seq<real>)
    ensures Accumulate(last, Deltas(last, ds)) == ds
    decreases |ds|
  {
    if ds != [] {
      AccumulateDeltas(ds[0], ds[1..]);
      assert last + (ds[0] - last) == ds[0];
    }
  }

  /** Conversely, the deltas of accumulated increments are the increments. */
  lemma {:induction false} DeltasAccumulate(last: real, ds: seq<real>)
    ensures Deltas(last, Accumulate(last, ds)) == ds
    decreases |ds|
  {
    if ds != [] {
      DeltasAccumulate(last + ds[0], ds[1..]);
      assert (last + ds[0]) - last == ds[0];
    }
  }
}
