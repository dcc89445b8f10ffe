/** The evaluators behind the common `evaluate(ground_truth, predictions)` interface,
    as a closed set of variants. */
module Metrics {
  import opened Wrappers
  import opened Numeric
  import MaeEvaluator
  import MreEvaluator
  import AsymmetricEvaluator

  /** MAPE's implementation is not part of this model: it is specified by its tests alone. */
  datatype Metric =
    | MAE
    | MRE
    | MAPE
    | AsymmetricLoss(alpha: real := AsymmetricEvaluator.DefaultAlpha)

  /** MAPE as its tests state it: the MRE ratio expressed as a percentage, with the
      same zero-truth exclusion and the same NaN cases. */
  function MapeEvaluate(gt: seq<real>, pred: seq<real>): (r: Option<real>)
    requires |gt| == |pred|
    ensures r.None? <==> forall i :: 0 <= i < |gt| ==> gt[i] == 0.0
    ensures r.Some? ==> r.value == 100.0 * MreEvaluator.Evaluate(gt, pred).value
  {
    match MreEvaluator.Evaluate(gt, pred)
    case None => None
    case Some(v) => Some(100.0 * v)
  }

  function Evaluate(m: Metric, gt: seq<real>, pred: seq<real>): Option<real>
    requires |gt| == |pred|
  {
    match m
    case MAE => MaeEvaluator.Evaluate(gt, pred)
    case MRE => MreEvaluator.Evaluate(gt, pred)
    case MAPE => MapeEvaluate(gt, pred)
    case AsymmetricLoss(alpha) => AsymmetricEvaluator.Evaluate(alpha, gt, pred)
  }

  /** `AsymmetricLoss()` penalises underestimates twice as heavily. */
  lemma DefaultAlphaIsTwo()
    ensures AsymmetricLoss().alpha == 2.0
  {
  }

  /** Every metric is NaN on empty input. */
  lemma EmptyInputIsNaN(m: Metric)
    ensures Evaluate(m, [], []).None?
  {
  }

  /** No metric yields a negative score (for the asymmetric loss, when `alpha >= 0`). */
  lemma NonNegative(m: Metric, gt: seq<real>, pred: seq<real>)
    requires |gt| == |pred|
    requires m.AsymmetricLoss? ==> m.alpha >= 0.0
    ensures Evaluate(m, gt, pred).Some? ==> Evaluate(m, gt, pred).value >= 0.0
  {
  }

  /** Every metric is a function of the multiset of (truth, prediction) pairs:
      reordering the positions of both inputs together leaves the score unchanged. */
  lemma PairPermutation(m: Metric, gt1: seq<real>, pred1: seq<real>, gt2: seq<real>, pred2: seq<real>)
    requires |gt1| == |pred1| && |gt2| == |pred2|
    requires multiset(Zip(gt1, pred1)) == multiset(Zip(gt2, pred2))
    ensures Evaluate(m, gt1, pred1) == Evaluate(m, gt2, pred2)
  {
    match m
    case MAE => MaeEvaluator.PairPermutation(gt1, pred1, gt2, pred2);
    case MRE => MreEvaluator.PairPermutation(gt1, pred1, gt2, pred2);
    case MAPE => MreEvaluator.PairPermutation(gt1, pred1, gt2, pred2);
    case AsymmetricLoss(alpha) => AsymmetricEvaluator.PairPermutation(alpha, gt1, pred1, gt2, pred2);
  }

  /** Every metric on a single (truth, prediction) pair, written out: the absolute
      error, the relative error (NaN on a zero truth), its percentage, or the loss. */
  lemma SingletonScore(m: Metric, g: real, p: real)
    ensures match m
      case MAE => Evaluate(m, [g], [p]) == Some(Abs(g - p))
      case MRE => Evaluate(m, [g], [p]) == (if g == 0.0 then None else Some(Abs((g - p) / g)))
      case MAPE => Evaluate(m, [g], [p]) == (if g == 0.0 then None else Some(100.0 * Abs((g - p) / g)))
      case AsymmetricLoss(alpha) => Evaluate(m, [g], [p]) == Some(AsymmetricEvaluator.Loss(alpha, g, p))
  {
    match m
    case MAE =>
      assert MaeEvaluator.AbsDiffs([g], [p]) == [Abs(g - p)];
      MeanSingleton(Abs(g - p));
    case MRE =>
      MreSingleton(g, p);
    case MAPE =>
      MreSingleton(g, p);
    case AsymmetricLoss(alpha) =>
      assert AsymmetricEvaluator.Losses(alpha, [g], [p]) == [AsymmetricEvaluator.Loss(alpha, g, p)];
      MeanSingleton(AsymmetricEvaluator.Loss(alpha, g, p));
  }

  lemma MeanSingleton(x: real)
    ensures Mean([x]) == Some(x)
  {
    assert Sum([x]) == x + Sum([]);
  }

  lemma MreSingleton(g: real, p: real)
    ensures MreEvaluator.Evaluate([g], [p]) == (if g == 0.0 then None else Some(Abs((g - p) / g)))
  {
    if g == 0.0 {
      assert MreEvaluator.RelErrors([g], [p]) == [None];
    } else {
      var v := Abs((g - p) / g);
      var e := [Some(v)];
      assert MreEvaluator.RelErrors([g], [p]) == e;
      assert e[1..] == [];
      assert Defined(e) == [v];
      MeanSingleton(v);
      assert NanMean(e) == Some(v);
    }
  }

  lemma MapeExampleWithDifferences()
    ensures Evaluate(MAPE, [100.0, 200.0, 300.0], [110.0, 180.0, 330.0]) == Some((0.1 + 0.1 + 0.1) / 3.0 * 100.0)
  {
    MreEvaluator.ExampleWithDifferences();
  }

  lemma MapeExampleWithZeroTruth()
    ensures Evaluate(MAPE, [0.0, 200.0, 300.0], [50.0, 190.0, 310.0]) == Some((10.0 / 200.0 + 10.0 / 300.0) / 2.0 * 100.0)
  {
    MreEvaluator.ExampleWithZeroTruth();
  }
}
