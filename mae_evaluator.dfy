/** `MAE.evaluate`: the mean absolute error between ground truth and predictions. */
module MaeEvaluator {
  import opened Wrappers
  import opened Numeric

  /** `np.abs(ground_truth - predictions)`, position by position. */
  function AbsDiffs(gt: seq<real>, pred: seq<real>): seq<real>
    requires |gt| == |pred|
  {
    seq(|gt|, i requires 0 <= i < |gt| => Abs(gt[i] - pred[i]))
  }

  /** The mean of the absolute differences: NaN exactly on empty input, never negative. */
  function Evaluate(gt: seq<real>, pred: seq<real>): (r: Option<real>)
    requires |gt| == |pred|
    ensures r.None? <==> gt == []
    ensures r.Some? ==> r.value >= 0.0
  {
    MeanNonNegative(AbsDiffs(gt, pred));
    Mean(AbsDiffs(gt, pred))
  }

  /** Predictions equal to the ground truth score 0. */
  lemma IdenticalScoresZero(xs: seq<real>)
    requires xs != []
    ensures Evaluate(xs, xs) == Some(0.0)
  {
    var d := AbsDiffs(xs, xs);
    forall i | 0 <= i < |d| ensures d[i] == 0.0 {
      assert d[i] == Abs(xs[i] - xs[i]);
    }
    MeanOfZeros(d);
  }

  /** The score is 0 exactly when every prediction is exact. */
  lemma ZeroOnlyWhenExact(gt: seq<real>, pred: seq<real>)
    requires |gt| == |pred|
    ensures Evaluate(gt, pred) == Some(0.0) <==> (gt != [] && gt == pred)
  {
    var d := AbsDiffs(gt, pred);
    if Evaluate(gt, pred) == Some(0.0) {
      assert Sum(d) == 0.0;
      SumZeroOnlyIfAllZero(d);
      assert forall i :: 0 <= i < |gt| ==> gt[i] == pred[i] by {
        forall i | 0 <= i < |gt| ensures gt[i] == pred[i] {
          assert d[i] == 0.0;
        }
      }
    }
    if gt != [] && gt == pred {
      IdenticalScoresZero(gt);
    }
  }

  /** Swapping ground truth and predictions leaves the score unchanged. */
  lemma Symmetric(gt: seq<real>, pred: seq<real>)
    requires |gt| == |pred|
    ensures Evaluate(gt, pred) == Evaluate(pred, gt)
  {
    assert AbsDiffs(gt, pred) == AbsDiffs(pred, gt);
  }

  /** The score depends only on the multiset of (truth, prediction) pairs. */
  lemma PairPermutation(gt1: seq<real>, pred1: seq<real>, gt2: seq<real>, pred2: seq<real>)
    requires |gt1| == |pred1| && |gt2| == |pred2|
    requires multiset(Zip(gt1, pred1)) == multiset(Zip(gt2, pred2))
    ensures Evaluate(gt1, pred1) == Evaluate(gt2, pred2)
  {
    var f := (p: (real, real)) => Abs(p.0 - p.1);
    assert AbsDiffs(gt1, pred1) == MapSeq(f, Zip(gt1, pred1));
    assert AbsDiffs(gt2, pred2) == MapSeq(f, Zip(gt2, pred2));
    MapSeqPermutation(f, Zip(gt1, pred1), Zip(gt2, pred2));
    MeanPermutation(AbsDiffs(gt1, pred1), AbsDiffs(gt2, pred2));
  }

  lemma ExampleWithDifferences()
    ensures Evaluate([100.0, 200.0, 300.0], [110.0, 190.0, 290.0]) == Some(10.0)
  {
    var d := AbsDiffs([100.0, 200.0, 300.0], [110.0, 190.0, 290.0]);
    assert d == [10.0, 10.0, 10.0];
    MeanOfConstant(10.0, d);
  }

  lemma ExampleWithLargeErrors()
    ensures Evaluate([100.0, 200.0, 300.0], [50.0, 400.0, 100.0]) == Some(150.0)
  {
    var d := AbsDiffs([100.0, 200.0, 300.0], [50.0, 400.0, 100.0]);
    assert d == [50.0, 200.0, 200.0];
    assert Sum(d) == 450.0;
  }
}
