/** `AsymmetricLoss`: absolute error, multiplied by `alpha` where the prediction
    is below the ground truth (an underestimate). */
module AsymmetricEvaluator {
  import opened Wrappers
  import opened Numeric
  import MaeEvaluator

  /** The constructor's default penalty factor. */
  const DefaultAlpha: real := 2.0

  /** `np.where(error < 0, alpha * np.abs(error), np.abs(error))` at one position,
      with `error = prediction - ground_truth`. */
  function Loss(alpha: real, g: real, p: real): real {
    var error := p - g;
    if error < 0.0 then alpha * Abs(error) else Abs(error)
  }

  function Losses(alpha: real, gt: seq<real>, pred: seq<real>): seq<real>
    requires |gt| == |pred|
  {
    seq(|gt|, i requires 0 <= i < |gt| => Loss(alpha, gt[i], pred[i]))
  }

  /** The mean loss: NaN exactly on empty input, never negative when `alpha >= 0`. */
  function Evaluate(alpha: real, gt: seq<real>, pred: seq<real>): (r: Option<real>)
    requires |gt| == |pred|
    ensures r.None? <==> gt == []
    ensures alpha >= 0.0 && r.Some? ==> r.value >= 0.0
  {
    LossesMeanNonNegative(alpha, gt, pred);
    Mean(Losses(alpha, gt, pred))
  }

  lemma LossesMeanNonNegative(alpha: real, gt: seq<real>, pred: seq<real>)
    requires |gt| == |pred|
    ensures alpha >= 0.0 && Mean(Losses(alpha, gt, pred)).Some? ==> Mean(Losses(alpha, gt, pred)).value >= 0.0
  {
    if alpha >= 0.0 {
      MeanNonNegative(Losses(alpha, gt, pred));
    }
  }

  /** An error of exactly 0 is charged as an overestimate: it costs nothing, whatever `alpha`. */
  lemma ExactMatchCostsNothing(alpha: real, g: real)
    ensures Loss(alpha, g, g) == 0.0
  {
  }

  /** Underestimating by `d` costs `alpha * d`, overestimating by `d` costs `d`. */
  lemma UnderAndOverCost(alpha: real, g: real, d: real)
    requires d > 0.0
    ensures Loss(alpha, g, g - d) == alpha * d
    ensures Loss(alpha, g, g + d) == d
  {
  }

  /** With `alpha = 1` the asymmetric loss is the mean absolute error. */
  lemma AlphaOneIsMae(gt: seq<real>, pred: seq<real>)
    requires |gt| == |pred|
    ensures Evaluate(1.0, gt, pred) == MaeEvaluator.Evaluate(gt, pred)
  {
    assert Losses(1.0, gt, pred) == MaeEvaluator.AbsDiffs(gt, pred);
  }

  /** Every value moved by `delta`. */
  function Shift(xs: seq<real>, delta: real): seq<real> {
    seq(|xs|, i requires 0 <= i < |xs| => xs[i] + delta)
  }

  /** With `alpha > 1`, predicting every value `d` too low scores worse than predicting
      every value `d` too high: `alpha * d` against `d`. */
  lemma UnderestimateCostsMore(alpha: real, gt: seq<real>, d: real)
    requires alpha > 1.0 && d > 0.0 && gt != []
    ensures Evaluate(alpha, gt, Shift(gt, -d)) == Some(alpha * d)
    ensures Evaluate(alpha, gt, Shift(gt, d)) == Some(d)
    ensures Evaluate(alpha, gt, Shift(gt, -d)).value > Evaluate(alpha, gt, Shift(gt, d)).value
  {
    var under := Losses(alpha, gt, Shift(gt, -d));
    var over := Losses(alpha, gt, Shift(gt, d));
    forall i | 0 <= i < |gt| ensures under[i] == alpha * d && over[i] == d {
      UnderAndOverCost(alpha, gt[i], d);
    }
    MeanOfConstant(alpha * d, under);
    MeanOfConstant(d, over);
    assert alpha * d - d == (alpha - 1.0) * d;
    assert (alpha - 1.0) * d > 0.0;
  }

  /** Predictions equal to the ground truth score 0. */
  lemma IdenticalScoresZero(alpha: real, xs: seq<real>)
    requires xs != []
    ensures Evaluate(alpha, xs, xs) == Some(0.0)
  {
    MeanOfZeros(Losses(alpha, xs, xs));
  }

  /** The score depends only on the multiset of (truth, prediction) pairs. */
  lemma PairPermutation(alpha: real, gt1: seq<real>, pred1: seq<real>, gt2: seq<real>, pred2: seq<real>)
    requires |gt1| == |pred1| && |gt2| == |pred2|
    requires multiset(Zip(gt1, pred1)) == multiset(Zip(gt2, pred2))
    ensures Evaluate(alpha, gt1, pred1) == Evaluate(alpha, gt2, pred2)
  {
    var f := (q: (real, real)) => Loss(alpha, q.0, q.1);
    assert Losses(alpha, gt1, pred1) == MapSeq(f, Zip(gt1, pred1));
    assert Losses(alpha, gt2, pred2) == MapSeq(f, Zip(gt2, pred2));
    MapSeqPermutation(f, Zip(gt1, pred1), Zip(gt2, pred2));
    MeanPermutation(Losses(alpha, gt1, pred1), Losses(alpha, gt2, pred2));
  }
}
