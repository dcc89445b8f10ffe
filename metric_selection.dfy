/** Resolving configured metric names to evaluators (the loop at the top of the
    entry point). The evaluator dictionary keeps insertion order, so it is an
    association list with distinct keys. */
module MetricSelection {
  import opened Wrappers
  import opened Strings
  import opened Metrics
  import opened Settings

  /** `EVALUATOR_MAPPING`: the metric names the entry point recognises. */
  const EvaluatorMapping: map<string, Metric> := map["MAE" := MAE, "MRE" := MRE, "MAPE" := MAPE]

  /** An insertion-ordered dictionary from metric name to evaluator. */
  type Evaluators = seq<(string, Metric)>

  function Keys(d: Evaluators): seq<string> {
    seq(|d|, i requires 0 <= i < |d| => d[i].0)
  }

  ghost predicate DistinctKeys(d: Evaluators) {
    forall i, j :: 0 <= i < j < |d| ==> d[i].0 != d[j].0
  }

  /** `d[k] = v` on an insertion-ordered dictionary: an existing key keeps its
      position and takes the new value; a new key goes at the end. */
  function Upsert(d: Evaluators, k: string, v: Metric): Evaluators {
    if d == [] then [(k, v)]
    else if d[0].0 == k then [(k, v)] + d[1..]
    else [d[0]] + Upsert(d[1..], k, v)
  }

  function Warning(name: string): string {
    "Unsupported metric specified in config: " + name
  }

  /** The evaluators a list of names yields. */
  function Selected(names: seq<string>): Evaluators {
    if names == [] then []
    else
      var prev := Selected(names[..|names| - 1]);
      var key := Upper(names[|names| - 1]);
      if key in EvaluatorMapping then Upsert(prev, key, EvaluatorMapping[key]) else prev
  }

  /** The warnings a list of names yields: one per unrecognised name, in order,
      quoting the name as configured. */
  function Warnings(names: seq<string>): seq<string> {
    if names == [] then []
    else
      var prev := Warnings(names[..|names| - 1]);
      var name := names[|names| - 1];
      if Upper(name) in EvaluatorMapping then prev else prev + [Warning(name)]
  }

  /** The resolution loop: upper-cases each configured name, registers it when the
      mapping knows it and warns otherwise, without stopping. */
  method SelectEvaluators(config: Config) returns (evaluators: Evaluators, ghost warnings: seq<string>)
    ensures evaluators == Selected(MetricNames(config))
    ensures warnings == Warnings(MetricNames(config))
  {
    var metricNames := MetricNames(config);
    evaluators := [];
    warnings := [];
    var i := 0;
    while i < |metricNames|
      invariant 0 <= i <= |metricNames|
      invariant evaluators == Selected(metricNames[..i])
      invariant warnings == Warnings(metricNames[..i])
    {
      var metric := metricNames[i];
      assert metricNames[..i + 1][..i] == metricNames[..i];
      var metricUpper := Upper(metric);
      if metricUpper in EvaluatorMapping {
        evaluators := Upsert(evaluators, metricUpper, EvaluatorMapping[metricUpper]);
      } else {
        warnings := warnings + [Warning(metric)];
      }
      i := i + 1;
    }
    assert metricNames[..i] == metricNames;
  }

  /** Inserting keeps every existing key in place and adds `k` at the end if it was new. */
  lemma {:induction false} UpsertKeys(d: Evaluators, k: string, v: Metric)
    ensures Keys(Upsert(d, k, v)) == if k in Keys(d) then Keys(d) else Keys(d) + [k]
  {
    if d != [] {
      assert Keys(d) == [d[0].0] + Keys(d[1..]);
      if d[0].0 != k {
        UpsertKeys(d[1..], k, v);
        assert Keys(Upsert(d, k, v)) == [d[0].0] + Keys(Upsert(d[1..], k, v));
      } else {
        assert Keys(Upsert(d, k, v)) == [k] + Keys(d[1..]);
      }
    }
  }

  /** After inserting, `k` holds `v` and every other entry is unchanged. */
  lemma {:induction false} UpsertValues(d: Evaluators, k: string, v: Metric)
    requires DistinctKeys(d)
    ensures |Upsert(d, k, v)| >= |d|
    ensures forall i :: 0 <= i < |Upsert(d, k, v)| && Upsert(d, k, v)[i].0 == k ==> Upsert(d, k, v)[i] == (k, v)
    ensures forall i :: 0 <= i < |Upsert(d, k, v)| && Upsert(d, k, v)[i].0 != k ==> i < |d| && Upsert(d, k, v)[i] == d[i]
  {
    var u := Upsert(d, k, v);
    if d != [] && d[0].0 != k {
      UpsertValues(d[1..], k, v);
      assert forall i :: 1 <= i < |u| ==> u[i] == Upsert(d[1..], k, v)[i - 1];
    } else if d != [] {
      assert forall i :: 1 <= i < |u| ==> u[i] == d[i] && d[i].0 != k;
    }
  }

  /** Inserting keeps the keys distinct. */
  lemma UpsertDistinct(d: Evaluators, k: string, v: Metric)
    requires DistinctKeys(d)
    ensures DistinctKeys(Upsert(d, k, v))
  {
    var u := Upsert(d, k, v);
    UpsertKeys(d, k, v);
    assert forall i :: 0 <= i < |d| ==> Keys(d)[i] == d[i].0;
    assert forall i :: 0 <= i < |u| ==> Keys(u)[i] == u[i].0;
    if k !in Keys(d) {
      forall i, j | 0 <= i < j < |u| ensures u[i].0 != u[j].0 {
        if j == |d| {
          assert u[j].0 == k;
          assert u[i].0 == d[i].0;
        } else {
          assert u[i].0 == d[i].0 && u[j].0 == d[j].0;
        }
      }
    } else {
      forall i, j | 0 <= i < j < |u| ensures u[i].0 != u[j].0 {
        assert u[i].0 == d[i].0 && u[j].0 == d[j].0;
      }
    }
  }

  /** The keys are exactly the upper-cased recognised names; each maps to its
      evaluator, and no key occurs twice, so repeated or case-variant names give a
      single entry. */
  lemma {:induction false} SelectedKeys(names: seq<string>)
    ensures DistinctKeys(Selected(names))
    ensures forall k :: k in Keys(Selected(names)) <==>
      k in EvaluatorMapping && exists i :: 0 <= i < |names| && Upper(names[i]) == k
    ensures forall i :: 0 <= i < |Selected(names)| ==>
      Selected(names)[i].0 in EvaluatorMapping && Selected(names)[i].1 == EvaluatorMapping[Selected(names)[i].0]
  {
    SelectedDistinct(names);
    SelectedKeySet(names);
    SelectedValues(names);
  }

  lemma {:induction false} SelectedDistinct(names: seq<string>)
    ensures DistinctKeys(Selected(names))
  {
    if names != [] {
      var init := names[..|names| - 1];
      var key := Upper(names[|names| - 1]);
      SelectedDistinct(init);
      if key in EvaluatorMapping {
        UpsertDistinct(Selected(init), key, EvaluatorMapping[key]);
      }
    }
  }

  lemma {:induction false} SelectedKeySet(names: seq<string>)
    ensures forall k :: k in Keys(Selected(names)) <==>
      k in EvaluatorMapping && exists i :: 0 <= i < |names| && Upper(names[i]) == k
  {
    if names != [] {
      var init := names[..|names| - 1];
      var key := Upper(names[|names| - 1]);
      SelectedKeySet(init);
      assert forall i :: 0 <= i < |init| ==> init[i] == names[i];
      if key in EvaluatorMapping {
        UpsertKeys(Selected(init), key, EvaluatorMapping[key]);
      }
      forall k | k in EvaluatorMapping && (exists i :: 0 <= i < |names| && Upper(names[i]) == k)
        ensures k in Keys(Selected(names))
      {
        var i :| 0 <= i < |names| && Upper(names[i]) == k;
        if i < |init| {
          assert Upper(init[i]) == k;
        }
      }
    }
  }

  lemma {:induction false} SelectedValues(names: seq<string>)
    ensures forall i :: 0 <= i < |Selected(names)| ==>
      Selected(names)[i].0 in EvaluatorMapping && Selected(names)[i].1 == EvaluatorMapping[Selected(names)[i].0]
  {
    if names != [] {
      var init := names[..|names| - 1];
      var key := Upper(names[|names| - 1]);
      SelectedValues(init);
      if key in EvaluatorMapping {
        SelectedDistinct(init);
        UpsertValues(Selected(init), key, EvaluatorMapping[key]);
      }
    }
  }

  /** Later names never move earlier ones: the keys chosen for a prefix of the list
      stay a prefix of the keys for the whole list. */
  lemma {:induction false} SelectedKeepsFirstPositions(names: seq<string>, more: seq<string>)
    ensures Keys(Selected(names)) <= Keys(Selected(names + more))
    decreases |more|
  {
    if more != [] {
      var init := more[..|more| - 1];
      assert (names + more)[..|names + more| - 1] == names + init;
      assert (names + more)[|names + more| - 1] == more[|more| - 1];
      SelectedKeepsFirstPositions(names, init);
      var key := Upper(more[|more| - 1]);
      if key in EvaluatorMapping {
        UpsertKeys(Selected(names + init), key, EvaluatorMapping[key]);
      }
    } else {
      assert names + more == names;
    }
  }

  /** `["mae", "MAE", "rmse"]` registers MAE once and warns about `rmse`. */
  lemma SelectionExample()
    ensures Selected(["mae", "MAE", "rmse"]) == [("MAE", MAE)]
    ensures Warnings(["mae", "MAE", "rmse"]) == [Warning("rmse")]
  {
    var names := ["mae", "MAE", "rmse"];
    assert Upper("mae") == "MAE" && Upper("MAE") == "MAE" && Upper("rmse") == "RMSE";
    assert "RMSE" !in EvaluatorMapping;
    assert names[..2] == ["mae", "MAE"] && names[..2][..1] == ["mae"] && names[..2][..1][..0] == [];
    assert Selected(["mae"]) == [("MAE", MAE)];
    assert Selected(["mae", "MAE"]) == [("MAE", MAE)];
    assert Warnings(["mae"]) == [];
    assert Warnings(["mae", "MAE"]) == [];
  }

  /** Without `evaluation.metrics` there are no evaluators and no warnings. */
  lemma MissingMetricsGiveNoEvaluators(config: Config)
    requires config.evaluation.None? || config.evaluation.value.metrics.None?
    ensures Selected(MetricNames(config)) == [] && Warnings(MetricNames(config)) == []
  {
  }
}
