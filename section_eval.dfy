/** Section reconciliation (`evaluate_by_section`, `evaluate_by_section_per_section`):
    each table is reduced to one total per section, the two are aligned over the UNION
    of their sections with 0 for a side that lacks one, and a metric scores the result. */
module SectionEval {
  import opened Wrappers
  import opened Numeric
  import opened Metrics

  /** One row of a ground-truth or prediction table. Only `sectionName` and
      `rowTotalCostUsd` take part in scoring. */
  datatype LineItem = LineItem(
    sectionName: string,
    qty: real,
    rateUsd: real,
    rowTotalCostUsd: real,
    itemLabel: string,
    uom: string,
    category: string)

  type Table = seq<LineItem>

  function SectionNames(t: Table): set<string> {
    set r | r in t :: r.sectionName
  }

  /** The sum of `rowTotalCostUsd` over the rows of section `s`. */
  function SectionTotal(t: Table, s: string): real {
    if t == [] then 0.0
    else (if t[0].sectionName == s then t[0].rowTotalCostUsd else 0.0) + SectionTotal(t[1..], s)
  }

  /** `dict.get(section, 0)` on a group-by result. */
  function Get(g: map<string, real>, s: string): real {
    if s in g then g[s] else 0.0
  }

  /** `df.groupby("sectionName")["rowTotalCostUsd"].sum()`: one entry per section
      present in the table, holding that section's total. */
  function GroupSum(t: Table): (g: map<string, real>)
    ensures g.Keys == SectionNames(t)
    ensures forall s :: s in g ==> g[s] == SectionTotal(t, s)
  {
    if t == [] then map[]
    else
      var rest := GroupSum(t[1..]);
      SectionNamesCons(t);
      assert Get(rest, t[0].sectionName) == SectionTotal(t[1..], t[0].sectionName) by {
        if t[0].sectionName !in rest {
          SectionTotalAbsent(t[1..], t[0].sectionName);
        }
      }
      rest[t[0].sectionName := Get(rest, t[0].sectionName) + t[0].rowTotalCostUsd]
  }

  lemma SectionNamesCons(t: Table)
    requires t != []
    ensures SectionNames(t) == {t[0].sectionName} + SectionNames(t[1..])
  {
    assert forall r :: r in t <==> r == t[0] || r in t[1..];
  }

  /** A section with no rows totals 0. */
  lemma {:induction false} SectionTotalAbsent(t: Table, s: string)
    requires s !in SectionNames(t)
    ensures SectionTotal(t, s) == 0.0
  {
    if t != [] {
      SectionNamesCons(t);
      SectionTotalAbsent(t[1..], s);
    }
  }

  /** Looking a section up in the grouped table, with the default of 0, gives its total. */
  lemma GetGroupSum(t: Table, s: string)
    ensures Get(GroupSum(t), s) == SectionTotal(t, s)
  {
    if s !in SectionNames(t) {
      SectionTotalAbsent(t, s);
    }
  }

  ghost predicate NoDuplicates(o: seq<string>) {
    forall i, j :: 0 <= i < j < |o| ==> o[i] != o[j]
  }

  /** `o` lists every element of `s` exactly once, in some order. */
  ghost predicate IsEnumeration(o: seq<string>, s: set<string>) {
    NoDuplicates(o) && forall x :: x in o <==> x in s
  }

  /** Some enumeration of a finite set; which one is left open. */
  ghost function Enumerate(s: set<string>): (o: seq<string>)
    ensures IsEnumeration(o, s)
  {
    if s == {} then []
    else
      var x :| x in s;
      var rest := Enumerate(s - {x});
      assert forall i :: 0 <= i < |rest| ==> rest[i] != x;
      [x] + rest
  }

  /** The values of `g` along the section order `o`, 0 where `g` has no entry. */
  function Column(g: map<string, real>, o: seq<string>): seq<real> {
    seq(|o|, i requires 0 <= i < |o| => Get(g, o[i]))
  }

  /** The union of the two tables' sections: the sections that are scored. */
  function AllSections(gtDf: Table, modelDf: Table): set<string> {
    SectionNames(gtDf) + SectionNames(modelDf)
  }

  /** The global score: the metric on the two section-total columns aligned along an
      enumeration of the union of sections. The order chosen does not matter
      (ScoreOrderIndependent). */
  ghost function GlobalScore(m: Metric, gtDf: Table, modelDf: Table): Option<real> {
    var o := Enumerate(AllSections(gtDf, modelDf));
    Evaluate(m, Column(GroupSum(gtDf), o), Column(GroupSum(modelDf), o))
  }

  /** The per-section score of section `s`: the metric on the one-element pair of totals. */
  function SectionScore(m: Metric, gtDf: Table, modelDf: Table, s: string): Option<real> {
    Evaluate(m, [Get(GroupSum(gtDf), s)], [Get(GroupSum(modelDf), s)])
  }

  lemma {:induction false} NoDuplicatesMultiset(o: seq<string>)
    requires NoDuplicates(o)
    ensures forall x :: multiset(o)[x] == if x in o then 1 else 0
  {
    if o != [] {
      NoDuplicatesMultiset(o[1..]);
      assert o == [o[0]] + o[1..];
      assert o[0] !in o[1..];
      assert forall x :: x in o <==> x == o[0] || x in o[1..];
    }
  }

  /** Two enumerations of the same set are permutations of each other. */
  lemma EnumerationsArePermutations(o1: seq<string>, o2: seq<string>, s: set<string>)
    requires IsEnumeration(o1, s) && IsEnumeration(o2, s)
    ensures multiset(o1) == multiset(o2)
  {
    NoDuplicatesMultiset(o1);
    NoDuplicatesMultiset(o2);
    assert forall x :: multiset(o1)[x] == multiset(o2)[x];
  }

  /** An enumeration has as many entries as the set has elements. */
  lemma {:induction false} EnumerationSize(o: seq<string>, s: set<string>)
    requires IsEnumeration(o, s)
    ensures |o| == |s|
  {
    if o == [] {
      assert forall x :: x !in s;
      assert s == {};
    } else {
      assert forall i :: 1 <= i < |o| ==> o[i] == o[1..][i - 1] && o[i] != o[0];
      assert IsEnumeration(o[1..], s - {o[0]});
      EnumerationSize(o[1..], s - {o[0]});
    }
  }

  /** Zipping two columns along `o` is the map of the pair of totals over `o`. */
  lemma ZipColumns(gtGroup: map<string, real>, modelGroup: map<string, real>, o: seq<string>)
    ensures Zip(Column(gtGroup, o), Column(modelGroup, o))
         == MapSeq((s: string) => (Get(gtGroup, s), Get(modelGroup, s)), o)
  {
  }

  /** The score does not depend on the order in which the sections are visited. */
  lemma ScoreOrderIndependent(m: Metric, gtGroup: map<string, real>, modelGroup: map<string, real>,
                              o1: seq<string>, o2: seq<string>, s: set<string>)
    requires IsEnumeration(o1, s) && IsEnumeration(o2, s)
    ensures Evaluate(m, Column(gtGroup, o1), Column(modelGroup, o1))
         == Evaluate(m, Column(gtGroup, o2), Column(modelGroup, o2))
  {
    var f := (x: string) => (Get(gtGroup, x), Get(modelGroup, x));
    EnumerationsArePermutations(o1, o2, s);
    ZipColumns(gtGroup, modelGroup, o1);
    ZipColumns(gtGroup, modelGroup, o2);
    MapSeqPermutation(f, o1, o2);
    PairPermutation(m, Column(gtGroup, o1), Column(modelGroup, o1), Column(gtGroup, o2), Column(modelGroup, o2));
  }

  lemma EnumerationExtend(o: seq<string>, done: set<string>, x: string)
    requires IsEnumeration(o, done) && x !in done
    ensures IsEnumeration(o + [x], done + {x})
  {
    assert forall y :: y in o + [x] <==> y in o || y == x;
  }

  /** Visiting one more remaining element extends the enumeration of the visited ones. */
  lemma VisitStep(o: seq<string>, all: set<string>, remaining: set<string>, x: string)
    requires remaining <= all && x in remaining && IsEnumeration(o, all - remaining)
    ensures IsEnumeration(o + [x], all - (remaining - {x}))
  {
    EnumerationExtend(o, all - remaining, x);
    assert (all - remaining) + {x} == all - (remaining - {x});
  }

  lemma ColumnExtend(g: map<string, real>, o: seq<string>, x: string)
    ensures Column(g, o + [x]) == Column(g, o) + [Get(g, x)]
  {
  }

  /** `evaluate_by_section`: groups both tables, visits the union of their sections in
      an unspecified order, appends each side's total (0 where a side lacks the
      section) to two parallel lists, and scores them. */
  method EvaluateBySection(m: Metric, gtDf: Table, modelDf: Table) returns (score: Option<real>, ghost order: seq<string>)
    ensures IsEnumeration(order, AllSections(gtDf, modelDf))
    ensures score == Evaluate(m, Column(GroupSum(gtDf), order), Column(GroupSum(modelDf), order))
    ensures score == GlobalScore(m, gtDf, modelDf)
  {
    var gtGroup := GroupSum(gtDf);
    var modelGroup := GroupSum(modelDf);
    var allSections := gtGroup.Keys + modelGroup.Keys;
    var gtVals: seq<real> := [];
    var modelVals: seq<real> := [];
    var remaining := allSections;
    order := [];
    while remaining != {}
      invariant remaining <= allSections
      invariant IsEnumeration(order, allSections - remaining)
      invariant gtVals == Column(gtGroup, order)
      invariant modelVals == Column(modelGroup, order)
      decreases remaining
    {
      var section :| section in remaining;
      var gtVal := Get(gtGroup, section);
      var modelVal := Get(modelGroup, section);
      EnumerationExtend(order, allSections - remaining, section);
      ColumnExtend(gtGroup, order, section);
      ColumnExtend(modelGroup, order, section);
      assert (allSections - remaining) + {section} == allSections - (remaining - {section});
      gtVals := gtVals + [gtVal];
      modelVals := modelVals + [modelVal];
      order := order + [section];
      remaining := remaining - {section};
    }
    score := Evaluate(m, gtVals, modelVals);
    ScoreOrderIndependent(m, gtGroup, modelGroup, order, Enumerate(allSections), allSections);
  }

  /** `evaluate_by_section_per_section`: one entry per section of the union, holding
      the metric on that section's one-element pair of totals. */
  method EvaluateBySectionPerSection(m: Metric, gtDf: Table, modelDf: Table) returns (sectionScores: map<string, Option<real>>)
    ensures sectionScores.Keys == AllSections(gtDf, modelDf)
    ensures forall s :: s in sectionScores ==> sectionScores[s] == SectionScore(m, gtDf, modelDf, s)
  {
    var gtGroup := GroupSum(gtDf);
    var modelGroup := GroupSum(modelDf);
    sectionScores := ScoreEachSection((g, p) => Evaluate(m, [g], [p]), gtGroup, modelGroup);
  }

  /** The loop of `evaluate_by_section_per_section` over the union of the two
      group-by results; `score` is the evaluator applied to one pair of totals. */
  method ScoreEachSection(score: (real, real) -> Option<real>, gtGroup: map<string, real>, modelGroup: map<string, real>)
    returns (sectionScores: map<string, Option<real>>)
    ensures sectionScores.Keys == gtGroup.Keys + modelGroup.Keys
    ensures forall s :: s in sectionScores ==> sectionScores[s] == score(Get(gtGroup, s), Get(modelGroup, s))
  {
    var allSections := gtGroup.Keys + modelGroup.Keys;
    sectionScores := map[];
    var remaining := allSections;
    while remaining != {}
      invariant remaining <= allSections
      invariant sectionScores.Keys + remaining == allSections
      invariant forall s :: s in sectionScores ==> sectionScores[s] == score(Get(gtGroup, s), Get(modelGroup, s))
      decreases remaining
    {
      var section :| section in remaining;
      var gtVal := Get(gtGroup, section);
      var modelVal := Get(modelGroup, section);
      sectionScores := sectionScores[section := score(gtVal, modelVal)];
      remaining := remaining - {section};
    }
  }

  /** The aligned columns have one entry per section of the union, not of the
      intersection, and a section missing on one side contributes 0 on that side. */
  lemma AlignedOverUnion(gtDf: Table, modelDf: Table, order: seq<string>)
    requires IsEnumeration(order, AllSections(gtDf, modelDf))
    ensures |Column(GroupSum(gtDf), order)| == |Column(GroupSum(modelDf), order)| == |AllSections(gtDf, modelDf)|
    ensures forall i :: 0 <= i < |order| ==>
      Column(GroupSum(gtDf), order)[i] == (if order[i] in SectionNames(gtDf) then SectionTotal(gtDf, order[i]) else 0.0) &&
      Column(GroupSum(modelDf), order)[i] == (if order[i] in SectionNames(modelDf) then SectionTotal(modelDf, order[i]) else 0.0)
  {
    EnumerationSize(order, AllSections(gtDf, modelDf));
  }

  /** Under MRE, a section whose ground-truth total is 0 scores NaN in per-section mode. */
  lemma MreSectionNaNOnZeroTruth(gtDf: Table, modelDf: Table, s: string)
    ensures SectionScore(MRE, gtDf, modelDf, s).None? <==> Get(GroupSum(gtDf), s) == 0.0
  {
    SingletonScore(MRE, Get(GroupSum(gtDf), s), Get(GroupSum(modelDf), s));
  }

  /** A section's per-section score depends on that section's two totals alone. */
  lemma SectionScoreIsLocal(m: Metric, gt1: Table, model1: Table, gt2: Table, model2: Table, s: string)
    requires SectionTotal(gt1, s) == SectionTotal(gt2, s) && SectionTotal(model1, s) == SectionTotal(model2, s)
    ensures SectionScore(m, gt1, model1, s) == SectionScore(m, gt2, model2, s)
  {
    GetGroupSum(gt1, s);
    GetGroupSum(gt2, s);
    GetGroupSum(model1, s);
    GetGroupSum(model2, s);
  }

  lemma {:induction false} SectionTotalConcat(t1: Table, t2: Table, s: string)
    ensures SectionTotal(t1 + t2, s) == SectionTotal(t1, s) + SectionTotal(t2, s)
  {
    if t1 == [] {
      assert t1 + t2 == t2;
    } else {
      assert (t1 + t2)[1..] == t1[1..] + t2;
      SectionTotalConcat(t1[1..], t2, s);
    }
  }

  /** Section totals do not depend on row order. */
  lemma {:induction false} SectionTotalPermutation(t1: Table, t2: Table, s: string)
    requires multiset(t1) == multiset(t2)
    ensures SectionTotal(t1, s) == SectionTotal(t2, s)
    decreases |t1|
  {
    if t1 == [] {
      assert |t2| == |multiset(t2)| == 0;
    } else {
      var k := PermutationSplit(t1, t2);
      var rest := t2[..k] + t2[k + 1..];
      assert |rest| < |t2|;
      SectionTotalPermutation(t1[1..], rest, s);
      assert t2 == t2[..k] + ([t2[k]] + t2[k + 1..]);
      SectionTotalConcat(t2[..k], [t2[k]] + t2[k + 1..], s);
      assert ([t2[k]] + t2[k + 1..])[1..] == t2[k + 1..];
      SectionTotalConcat(t2[..k], t2[k + 1..], s);
    }
  }

  /** Grouping discards row order. */
  lemma GroupSumPermutation(t1: Table, t2: Table)
    requires multiset(t1) == multiset(t2)
    ensures GroupSum(t1) == GroupSum(t2)
  {
    assert forall r :: r in t1 <==> r in multiset(t1);
    assert SectionNames(t1) == SectionNames(t2);
    forall s | s in SectionNames(t1) ensures GroupSum(t1)[s] == GroupSum(t2)[s] {
      SectionTotalPermutation(t1, t2, s);
    }
  }

  /** Reordering the rows of either table leaves the global and per-section scores unchanged. */
  lemma ScoresIgnoreRowOrder(m: Metric, gt1: Table, gt2: Table, model1: Table, model2: Table, s: string)
    requires multiset(gt1) == multiset(gt2) && multiset(model1) == multiset(model2)
    ensures GlobalScore(m, gt1, model1) == GlobalScore(m, gt2, model2)
    ensures SectionScore(m, gt1, model1, s) == SectionScore(m, gt2, model2, s)
  {
    GroupSumPermutation(gt1, gt2);
    GroupSumPermutation(model1, model2);
  }

  /** Appending a table to itself doubles every section total: duplicates are not merged. */
  lemma DuplicateRowsInflateTotals(t: Table, s: string)
    ensures SectionTotal(t + t, s) == 2.0 * SectionTotal(t, s)
  {
    SectionTotalConcat(t, t, s);
  }

  function Row(section: string, cost: real): LineItem {
    LineItem(section, 1.0, cost, cost, "", "", "")
  }

  /** The global score may be computed along any enumeration of the union. */
  lemma GlobalScoreAlong(m: Metric, gtDf: Table, modelDf: Table, order: seq<string>)
    requires IsEnumeration(order, AllSections(gtDf, modelDf))
    ensures GlobalScore(m, gtDf, modelDf) == Evaluate(m, Column(GroupSum(gtDf), order), Column(GroupSum(modelDf), order))
  {
    var u := AllSections(gtDf, modelDf);
    ScoreOrderIndependent(m, GroupSum(gtDf), GroupSum(modelDf), order, Enumerate(u), u);
  }

  /** A two-row table with distinct sections: its sections, each one's total, and
      0 for a third, absent section. */
  lemma TwoRowTable(t: Table, a: string, x: real, b: string, y: real, c: string)
    requires t == [Row(a, x), Row(b, y)] && a != b && c != a && c != b
    ensures SectionNames(t) == {a, b}
    ensures Get(GroupSum(t), a) == x && Get(GroupSum(t), b) == y && Get(GroupSum(t), c) == 0.0
  {
    SectionNamesCons(t);
    SectionNamesCons(t[1..]);
    assert t[1..][1..] == [];
    GetGroupSum(t, a);
    GetGroupSum(t, b);
    GetGroupSum(t, c);
  }

  lemma UnionExampleTotals(gt: Table, model: Table)
    requires gt == [Row("A", 10.0), Row("B", 20.0)] && model == [Row("B", 25.0), Row("C", 5.0)]
    ensures AllSections(gt, model) == {"A", "B", "C"}
    ensures Column(GroupSum(gt), ["A", "B", "C"]) == [10.0, 20.0, 0.0]
    ensures Column(GroupSum(model), ["A", "B", "C"]) == [0.0, 25.0, 5.0]
  {
    TwoRowTable(gt, "A", 10.0, "B", 20.0, "C");
    TwoRowTable(model, "B", 25.0, "C", 5.0, "A");
    ColumnOfThree(GroupSum(gt), "A", "B", "C");
    ColumnOfThree(GroupSum(model), "A", "B", "C");
  }

  lemma ColumnOfTwo(g: map<string, real>, a: string, b: string)
    ensures Column(g, [a, b]) == [Get(g, a), Get(g, b)]
  {
  }

  lemma ColumnOfThree(g: map<string, real>, a: string, b: string, c: string)
    ensures Column(g, [a, b, c]) == [Get(g, a), Get(g, b), Get(g, c)]
  {
  }

  lemma EnumerationOfTwo(a: string, b: string)
    requires a != b
    ensures IsEnumeration([a, b], {a, b})
  {
  }

  lemma EnumerationOfThree(a: string, b: string, c: string)
    requires a != b && a != c && b != c
    ensures IsEnumeration([a, b, c], {a, b, c})
  {
  }

  /** Ground truth {A: 10, B: 20} against prediction {B: 25, C: 5}: three sections are
      scored, A against 0 and C with a ground truth of 0, so MAE is (10 + 5 + 5) / 3. */
  lemma UnionExample(gt: Table, model: Table)
    requires gt == [Row("A", 10.0), Row("B", 20.0)] && model == [Row("B", 25.0), Row("C", 5.0)]
    ensures AllSections(gt, model) == {"A", "B", "C"}
    ensures GlobalScore(MAE, gt, model) == Some(20.0 / 3.0)
  {
    UnionExampleTotals(gt, model);
    var order := ["A", "B", "C"];
    EnumerationOfThree("A", "B", "C");
    GlobalScoreAlong(MAE, gt, model, order);
    UnionExampleScore();
  }

  lemma UnionExampleScore()
    ensures Evaluate(MAE, [10.0, 20.0, 0.0], [0.0, 25.0, 5.0]) == Some(20.0 / 3.0)
  {
    assert MaeEvaluator.AbsDiffs([10.0, 20.0, 0.0], [0.0, 25.0, 5.0]) == [10.0, 5.0, 5.0];
    assert Sum([10.0, 5.0, 5.0]) == 20.0;
  }

  lemma EndToEndExampleTotals(gt: Table, model: Table)
    requires gt == [Row("Plumbing", 500.0), Row("Electrical", 500.0)]
    requires model == [Row("Plumbing", 500.0), Row("Electrical", 400.0)]
    ensures AllSections(gt, model) == {"Plumbing", "Electrical"}
    ensures Column(GroupSum(gt), ["Plumbing", "Electrical"]) == [500.0, 500.0]
    ensures Column(GroupSum(model), ["Plumbing", "Electrical"]) == [500.0, 400.0]
  {
    TwoRowTable(gt, "Plumbing", 500.0, "Electrical", 500.0, "");
    TwoRowTable(model, "Plumbing", 500.0, "Electrical", 400.0, "");
    ColumnOfTwo(GroupSum(gt), "Plumbing", "Electrical");
    ColumnOfTwo(GroupSum(model), "Plumbing", "Electrical");
  }

  /** Plumbing 500 and Electrical 500 predicted as 500 and 400: MAE over the two sections is 50. */
  lemma EndToEndExample(gt: Table, model: Table)
    requires gt == [Row("Plumbing", 500.0), Row("Electrical", 500.0)]
    requires model == [Row("Plumbing", 500.0), Row("Electrical", 400.0)]
    ensures GlobalScore(MAE, gt, model) == Some(50.0)
  {
    EndToEndExampleTotals(gt, model);
    EnumerationOfTwo("Plumbing", "Electrical");
    GlobalScoreAlong(MAE, gt, model, ["Plumbing", "Electrical"]);
    EndToEndExampleScore();
  }

  lemma EndToEndExampleScore()
    ensures Evaluate(MAE, [500.0, 500.0], [500.0, 400.0]) == Some(50.0)
  {
    assert MaeEvaluator.AbsDiffs([500.0, 500.0], [500.0, 400.0]) == [0.0, 100.0];
    assert Sum([0.0, 100.0]) == 100.0;
  }

  /** The error pandas raises when a table with no rows, and therefore no
      `sectionName` column, is grouped. */
  const MissingSectionColumn: string := "KeyError: 'sectionName'"

  /** Grouping AS WRITTEN: a table built from an empty list of rows has no columns,
      so grouping it by `sectionName` raises instead of yielding an empty group. */
  function GroupSumAsWritten(t: Table): (r: Result<map<string, real>, string>)
    ensures r.Failure? <==> t == []
    ensures r.Success? ==> r.value.Keys == SectionNames(t)
  {
    if t == [] then Failure(MissingSectionColumn) else Success(GroupSum(t))
  }

  /** `evaluate_by_section` AS WRITTEN: it fails whenever either pooled table is empty. */
  ghost function GlobalScoreAsWritten(m: Metric, gtDf: Table, modelDf: Table): (r: Result<Option<real>, string>)
    ensures r.Failure? <==> gtDf == [] || modelDf == []
    ensures r.Success? ==> r.value == GlobalScore(m, gtDf, modelDf)
  {
    match (GroupSumAsWritten(gtDf), GroupSumAsWritten(modelDf))
    case (Failure(e), _) => Failure(e)
    case (_, Failure(e)) => Failure(e)
    case (Success(_), Success(_)) => Success(GlobalScore(m, gtDf, modelDf))
  }

  /** `evaluate_by_section` as the pipeline runs it: the two `groupby` calls raise on
      a table with no rows; otherwise the loop over the union of sections. */
  method EvaluateBySectionAsWritten(m: Metric, gtDf: Table, modelDf: Table) returns (r: Result<Option<real>, string>)
    ensures r.Failure? <==> gtDf == [] || modelDf == []
    ensures r.Failure? ==> r.error == MissingSectionColumn
    ensures r.Success? ==> r.value == GlobalScore(m, gtDf, modelDf)
    ensures r == GlobalScoreAsWritten(m, gtDf, modelDf)
  {
    var gtGroup := GroupSumAsWritten(gtDf);
    if gtGroup.Failure? {
      return Failure(gtGroup.error);
    }
    var modelGroup := GroupSumAsWritten(modelDf);
    if modelGroup.Failure? {
      return Failure(modelGroup.error);
    }
    var score;
    ghost var order;
    score, order := EvaluateBySection(m, gtDf, modelDf);
    return Success(score);
  }

  /** `evaluate_by_section_per_section` as the pipeline runs it: the same grouping
      failure, otherwise one score per section of the union. */
  method EvaluateBySectionPerSectionAsWritten(m: Metric, gtDf: Table, modelDf: Table)
    returns (r: Result<map<string, Option<real>>, string>)
    ensures r.Failure? <==> gtDf == [] || modelDf == []
    ensures r.Failure? ==> r.error == MissingSectionColumn
    ensures r.Success? ==> r.value.Keys == AllSections(gtDf, modelDf)
    ensures r.Success? ==> forall s :: s in r.value ==> r.value[s] == SectionScore(m, gtDf, modelDf, s)
  {
    var gtGroup := GroupSumAsWritten(gtDf);
    if gtGroup.Failure? {
      return Failure(gtGroup.error);
    }
    var modelGroup := GroupSumAsWritten(modelDf);
    if modelGroup.Failure? {
      return Failure(modelGroup.error);
    }
    var sectionScores := EvaluateBySectionPerSection(m, gtDf, modelDf);
    return Success(sectionScores);
  }

  /** A model that predicted no rows for a 500-dollar plumbing estimate aborts the
      evaluation as written, although under the union rule it is simply a complete miss. */
  lemma EmptyPredictionAsWritten(gt: Table)
    requires gt == [Row("Plumbing", 500.0)]
    ensures GlobalScoreAsWritten(MAE, gt, []) == Failure(MissingSectionColumn)
    ensures GlobalScore(MAE, gt, []) == Some(500.0)
  {
    SectionNamesCons(gt);
    assert SectionNames([]) == {};
    assert IsEnumeration(["Plumbing"], {"Plumbing"});
    GetGroupSum(gt, "Plumbing");
    assert Column(GroupSum(gt), ["Plumbing"]) == [500.0];
    assert Column(GroupSum([]), ["Plumbing"]) == [0.0];
    GlobalScoreAlong(MAE, gt, [], ["Plumbing"]);
    SingletonScore(MAE, 500.0, 0.0);
  }

  /** Under the union rule an empty prediction is a complete miss: its MRE is 1 as
      long as some section of the ground truth has a non-zero total. */
  lemma EmptyPredictionIsCompleteMiss(gt: Table, s: string)
    requires s in SectionNames(gt) && SectionTotal(gt, s) != 0.0
    ensures GlobalScore(MRE, gt, []) == Some(1.0)
  {
    var u := AllSections(gt, []);
    assert SectionNames([]) == {};
    var o := Enumerate(u);
    GlobalScoreAlong(MRE, gt, [], o);
    var i :| 0 <= i < |o| && o[i] == s;
    GetGroupSum(gt, s);
    MreAgainstZeros(Column(GroupSum(gt), o), Column(GroupSum([]), o), i);
  }

  lemma MreAgainstZeros(g: seq<real>, p: seq<real>, i: nat)
    requires |g| == |p| && i < |g| && g[i] != 0.0
    requires forall j :: 0 <= j < |p| ==> p[j] == 0.0
    ensures MreEvaluator.Evaluate(g, p) == Some(1.0)
  {
    var e := MreEvaluator.RelErrors(g, p);
    forall j | 0 <= j < |e| && e[j].Some? ensures e[j].value == 1.0 {
      assert g[j] != 0.0;
      assert (g[j] - p[j]) / g[j] == 1.0;
    }
    assert e[i].Some?;
    var d := Defined(e);
    forall k | 0 <= k < |d| ensures d[k] == 1.0 {
      DefinedFrom(e, k);
    }
    DefinedEmpty(e);
    MeanOfConstant(1.0, d);
  }
}
