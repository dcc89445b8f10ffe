/** `MRE.evaluate`: the mean relative error, skipping positions whose ground truth is 0. */
module MreEvaluator {
  import opened Wrappers
  import opened Numeric

  /** `np.where(ground_truth == 0, np.nan, ground_truth)` followed by
      `np.abs((ground_truth - predictions) / ground_truth)`: NaN where the truth is 0. */
  function RelErrors(gt: seq<real>, pred: seq<real>): seq<Option<real>>
    requires |gt| == |pred|
  {
    seq(|gt|, i requires 0 <= i < |gt| =>
      if gt[i] == 0.0 then None else Some(Abs((gt[i] - pred[i]) / gt[i])))
  }

  /** `np.nanmean` of the relative errors: NaN exactly when every ground truth is 0
      (in particular on empty input), never negative. */
  function Evaluate(gt: seq<real>, pred: seq<real>): (r: Option<real>)
    requires |gt| == |pred|
    ensures r.None? <==> forall i :: 0 <= i < |gt| ==> gt[i] == 0.0
    ensures r.Some? ==> r.value >= 0.0
  {
    var e := RelErrors(gt, pred);
    assert forall i :: 0 <= i < |gt| ==> (e[i].None? <==> gt[i] == 0.0);
    DefinedNonNegative(e);
    MeanNonNegative(Defined(e));
    NanMean(e)
  }

  lemma {:induction false} RelErrorsConcat(gt1: seq<real>, pred1: seq<real>, gt2: seq<real>, pred2: seq<real>)
    requires |gt1| == |pred1| && |gt2| == |pred2|
    ensures RelErrors(gt1 + gt2, pred1 + pred2) == RelErrors(gt1, pred1) + RelErrors(gt2, pred2)
  {
    var l, r := RelErrors(gt1 + gt2, pred1 + pred2), RelErrors(gt1, pred1) + RelErrors(gt2, pred2);
    assert |l| == |r|;
    forall i | 0 <= i < |l| ensures l[i] == r[i] {
      if i < |gt1| {
        assert (gt1 + gt2)[i] == gt1[i] && (pred1 + pred2)[i] == pred1[i];
      } else {
        assert (gt1 + gt2)[i] == gt2[i - |gt1|] && (pred1 + pred2)[i] == pred2[i - |gt1|];
      }
    }
  }

  /** A position whose ground truth is 0 is left out of the mean: inserting one,
      whatever its prediction, changes nothing (it is neither infinite nor zero error). */
  lemma ZeroTruthExcluded(gt1: seq<real>, pred1: seq<real>, p: real, gt2: seq<real>, pred2: seq<real>)
    requires |gt1| == |pred1| && |gt2| == |pred2|
    ensures Evaluate(gt1 + [0.0] + gt2, pred1 + [p] + pred2) == Evaluate(gt1 + gt2, pred1 + pred2)
  {
    var a, b := RelErrors(gt1, pred1), RelErrors(gt2, pred2);
    var z: seq<Option<real>> := [None];
    RelErrorsConcat(gt1 + [0.0], pred1 + [p], gt2, pred2);
    RelErrorsConcat(gt1, pred1, [0.0], [p]);
    RelErrorsConcat(gt1, pred1, gt2, pred2);
    assert RelErrors([0.0], [p]) == z;
    assert RelErrors(gt1 + [0.0] + gt2, pred1 + [p] + pred2) == a + z + b;
    DefinedConcat(a + z, b);
    DefinedConcat(a, z);
    DefinedConcat(a, b);
    assert Defined(z) == [];
    assert Defined(a + z + b) == Defined(a + b);
  }

  /** Predictions equal to the ground truth score 0, unless every truth is 0. */
  lemma IdenticalScoresZero(xs: seq<real>)
    requires exists i :: 0 <= i < |xs| && xs[i] != 0.0
    ensures Evaluate(xs, xs) == Some(0.0)
  {
    var e := RelErrors(xs, xs);
    forall k | 0 <= k < |Defined(e)| ensures Defined(e)[k] == 0.0 {
      DefinedFrom(e, k);
    }
    var i :| 0 <= i < |xs| && xs[i] != 0.0;
    assert e[i].Some?;
    DefinedEmpty(e);
    MeanOfZeros(Defined(e));
  }

  /** The score depends only on the multiset of (truth, prediction) pairs. */
  lemma PairPermutation(gt1: seq<real>, pred1: seq<real>, gt2: seq<real>, pred2: seq<real>)
    requires |gt1| == |pred1| && |gt2| == |pred2|
    requires multiset(Zip(gt1, pred1)) == multiset(Zip(gt2, pred2))
    ensures Evaluate(gt1, pred1) == Evaluate(gt2, pred2)
  {
    var f := (q: (real, real)) => if q.0 == 0.0 then None else Some(Abs((q.0 - q.1) / q.0));
    assert RelErrors(gt1, pred1) == MapSeq(f, Zip(gt1, pred1));
    assert RelErrors(gt2, pred2) == MapSeq(f, Zip(gt2, pred2));
    MapSeqPermutation(f, Zip(gt1, pred1), Zip(gt2, pred2));
    NanMeanPermutation(RelErrors(gt1, pred1), RelErrors(gt2, pred2));
  }

  lemma ExampleWithDifferences()
    ensures Evaluate([100.0, 200.0, 300.0], [110.0, 180.0, 330.0]) == Some((0.1 + 0.1 + 0.1) / 3.0)
  {
    var e := RelErrors([100.0, 200.0, 300.0], [110.0, 180.0, 330.0]);
    assert e == [Some(0.1), Some(0.1), Some(0.1)];
    assert Defined(e) == [0.1, 0.1, 0.1];
  }

  lemma ExampleWithLargeErrors()
    ensures Evaluate([100.0, 200.0, 300.0], [50.0, 400.0, 100.0])
         == Some((50.0 / 100.0 + 200.0 / 200.0 + 200.0 / 300.0) / 3.0)
  {
    var e := RelErrors([100.0, 200.0, 300.0], [50.0, 400.0, 100.0]);
    assert e == [Some(0.5), Some(1.0), Some(200.0 / 300.0)];
    assert Defined(e) == [0.5, 1.0, 200.0 / 300.0];
  }

  /** The test with a zero ground truth: the first position is skipped and the mean is over two. */
  lemma ExampleWithZeroTruth()
    ensures Evaluate([0.0, 200.0, 300.0], [50.0, 190.0, 310.0]) == Some((10.0 / 200.0 + 10.0 / 300.0) / 2.0)
  {
    var e := RelErrors([0.0, 200.0, 300.0], [50.0, 190.0, 310.0]);
    assert e == [None, Some(10.0 / 200.0), Some(10.0 / 300.0)];
    assert Defined(e) == [10.0 / 200.0, 10.0 / 300.0];
  }
}
