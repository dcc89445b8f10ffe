/** The result-table helpers of the dashboard: the best model of each section
    (`get_best_model_by_section`) and the per-section column order by mean score
    (`reorder_columns_by_mean_desc`). Both are pure views of a report. */
module ResultTables {
  import opened Wrappers
  import opened Numeric
  import opened Reports

  // ---------------------------------------------------------------------------
  // Section names in the order `groupby` lists them: ascending by code point.

  /** Python's string order: lexicographic on code points, a proper prefix first. */
  predicate LexLess(a: string, b: string) {
    if a == [] then b != []
    else if b == [] then false
    else if a[0] < b[0] then true
    else a[0] == b[0] && LexLess(a[1..], b[1..])
  }

  lemma {:induction false} LexIrreflexive(a: string)
    ensures !LexLess(a, a)
  {
    if a != [] {
      LexIrreflexive(a[1..]);
    }
  }

  lemma {:induction false} LexTransitive(a: string, b: string, c: string)
    requires LexLess(a, b) && LexLess(b, c)
    ensures LexLess(a, c)
  {
    if a != [] && a[0] == b[0] && b[0] == c[0] {
      LexTransitive(a[1..], b[1..], c[1..]);
    }
  }

  lemma {:induction false} LexTotal(a: string, b: string)
    requires a != b
    ensures LexLess(a, b) || LexLess(b, a)
  {
    if a != [] && b != [] && a[0] == b[0] {
      assert a == [a[0]] + a[1..] && b == [b[0]] + b[1..];
      LexTotal(a[1..], b[1..]);
    }
  }

  /** `o` lists the elements of `s` in strictly ascending order, each once. */
  ghost predicate SortedDistinct(o: seq<string>, s: set<string>) {
    (forall i, j :: 0 <= i < j < |o| ==> LexLess(o[i], o[j])) &&
    (forall x :: x in o <==> x in s)
  }

  /** Adds `x` to an ascending sequence of distinct strings. */
  function InsertName(x: string, o: seq<string>): (r: seq<string>)
    requires SortedDistinct(o, set y | y in o)
    ensures SortedDistinct(r, (set y | y in o) + {x})
  {
    if o == [] then [x]
    else if x == o[0] then
      assert (set y | y in o) + {x} == set y | y in o;
      o
    else if LexLess(x, o[0]) then
      PrependLeast(x, o);
      [x] + o
    else
      LexTotal(x, o[0]);
      var rest := o[1..];
      RestSorted(o);
      var tail := InsertName(x, rest);
      PrependHead(o, x, tail);
      [o[0]] + tail
  }

  lemma PrependLeast(x: string, o: seq<string>)
    requires SortedDistinct(o, set y | y in o) && o != [] && LexLess(x, o[0])
    ensures SortedDistinct([x] + o, (set y | y in o) + {x})
  {
    forall j | 0 <= j < |o| ensures LexLess(x, o[j]) {
      if j > 0 { LexTransitive(x, o[0], o[j]); }
    }
    var r := [x] + o;
    forall i, j | 0 <= i < j < |r| ensures LexLess(r[i], r[j]) {
      assert r[j] == o[j - 1];
      if i > 0 { assert r[i] == o[i - 1]; }
    }
  }

  lemma RestSorted(o: seq<string>)
    requires SortedDistinct(o, set y | y in o) && o != []
    ensures SortedDistinct(o[1..], set y | y in o[1..])
  {
    var rest := o[1..];
    forall i, j | 0 <= i < j < |rest| ensures LexLess(rest[i], rest[j]) {
      assert rest[i] == o[i + 1] && rest[j] == o[j + 1];
    }
  }

  lemma PrependHead(o: seq<string>, x: string, tail: seq<string>)
    requires SortedDistinct(o, set y | y in o) && o != [] && LexLess(o[0], x)
    requires SortedDistinct(tail, (set y | y in o[1..]) + {x})
    ensures SortedDistinct([o[0]] + tail, (set y | y in o) + {x})
  {
    var rest := o[1..];
    forall y | y in tail ensures LexLess(o[0], y) {
      if y != x {
        var j :| 0 <= j < |rest| && rest[j] == y;
        assert o[j + 1] == y;
      }
    }
    var r := [o[0]] + tail;
    forall i, j | 0 <= i < j < |r| ensures LexLess(r[i], r[j]) {
      assert r[j] == tail[j - 1];
      assert r[j] in tail;
      if i > 0 { assert r[i] == tail[i - 1]; }
    }
    assert o == [o[0]] + rest;
    forall y ensures y in r <==> y in (set y | y in o) + {x} {
      assert y in r <==> y == o[0] || y in tail;
      assert y in o <==> y == o[0] || y in rest;
    }
  }

  function SectionNamesOf(rows: seq<SectionRow>): set<string> {
    set i | 0 <= i < |rows| :: rows[i].sectionName
  }

  /** The distinct section names of a section table, ascending: the groups of
      `groupby("sectionName")`. */
  function SortedSections(rows: seq<SectionRow>): (r: seq<string>)
    ensures SortedDistinct(r, SectionNamesOf(rows))
  {
    if rows == [] then []
    else
      var init := rows[..|rows| - 1];
      var o := SortedSections(init);
      assert (set y | y in o) == SectionNamesOf(init);
      assert SectionNamesOf(rows) == SectionNamesOf(init) + {rows[|rows| - 1].sectionName} by {
        forall x | x in SectionNamesOf(rows) ensures x in SectionNamesOf(init) + {rows[|rows| - 1].sectionName} {
          var i :| 0 <= i < |rows| && rows[i].sectionName == x;
          if i < |init| { assert init[i] == rows[i]; }
        }
        forall x | x in SectionNamesOf(init) ensures x in SectionNamesOf(rows) {
          var i :| 0 <= i < |init| && init[i].sectionName == x;
          assert rows[i] == init[i];
        }
      }
      InsertName(rows[|rows| - 1].sectionName, o)
  }

  /** Only one ascending enumeration of a set exists, so the section order of the
      result does not depend on the order of the rows. */
  lemma {:induction false} SortedDistinctUnique(a: seq<string>, b: seq<string>, s: set<string>)
    requires SortedDistinct(a, s) && SortedDistinct(b, s)
    ensures a == b
    decreases |a|
  {
    if a != [] && b != [] {
      if a[0] != b[0] {
        HeadIsLeast(a, s, b[0]);
        HeadIsLeast(b, s, a[0]);
        LexTransitive(a[0], b[0], a[0]);
        LexIrreflexive(a[0]);
        assert false;
      }
      var s' := s - {a[0]};
      TailSorted(a, s);
      TailSorted(b, s);
      SortedDistinctUnique(a[1..], b[1..], s');
      assert a == [a[0]] + a[1..] && b == [b[0]] + b[1..];
    } else {
      EmptyEnumeration(a, s);
      EmptyEnumeration(b, s);
    }
  }

  lemma EmptyEnumeration(o: seq<string>, s: set<string>)
    requires SortedDistinct(o, s)
    ensures o == [] <==> s == {}
  {
    if o != [] {
      assert o[0] in s;
    }
  }

  lemma HeadIsLeast(a: seq<string>, s: set<string>, x: string)
    requires a != [] && SortedDistinct(a, s)
    requires x in s && x != a[0]
    ensures LexLess(a[0], x)
  {
    var j :| 0 <= j < |a| && a[j] == x;
  }

  lemma TailSorted(a: seq<string>, s: set<string>)
    requires a != [] && SortedDistinct(a, s)
    ensures SortedDistinct(a[1..], s - {a[0]})
  {
    var t := a[1..];
    forall i, j | 0 <= i < j < |t| ensures LexLess(t[i], t[j]) {
      assert t[i] == a[i + 1] && t[j] == a[j + 1];
    }
    forall x ensures x in t <==> x in s - {a[0]} {
      if x in t {
        var j :| 0 <= j < |t| && t[j] == x;
        assert LexLess(a[0], a[j + 1]);
        LexIrreflexive(x);
      }
      if x in s - {a[0]} {
        var j :| 0 <= j < |a| && a[j] == x;
        assert j > 0 && t[j - 1] == x;
      }
    }
  }

  // ---------------------------------------------------------------------------
  // The best model of each section.

  /** A row of the best-model table: the section, the `model_file` renamed
      `best_model`, and the winning score. */
  datatype BestRow = BestRow(sectionName: string, bestModel: string, score: real)

  /** Row `i` is what `idxmin` picks for section `s`: a defined score of that
      section, no greater than any other, and strictly smaller than every earlier one. */
  predicate IsFirstMin(rows: seq<SectionRow>, s: string, i: int) {
    0 <= i < |rows| && rows[i].sectionName == s && rows[i].score.Some? &&
    (forall j :: 0 <= j < |rows| && rows[j].sectionName == s && rows[j].score.Some? ==>
       rows[i].score.value <= rows[j].score.value) &&
    (forall j :: 0 <= j < i && rows[j].sectionName == s && rows[j].score.Some? ==>
       rows[i].score.value < rows[j].score.value)
  }

  /** Every score of section `s` is NaN (or the section has no row). */
  predicate AllNaN(rows: seq<SectionRow>, s: string) {
    forall j :: 0 <= j < |rows| && rows[j].sectionName == s ==> rows[j].score.None?
  }

  /** The position `idxmin` picks for section `s`; NaN scores are skipped. */
  function IdxMin(rows: seq<SectionRow>, s: string): (r: Option<nat>)
    ensures r.None? <==> AllNaN(rows, s)
    ensures r.Some? ==> IsFirstMin(rows, s, r.value)
  {
    if rows == [] then None
    else
      var n := |rows| - 1;
      var init := rows[..n];
      var prev := IdxMin(init, s);
      assert forall j :: 0 <= j < n ==> init[j] == rows[j];
      var last := rows[n];
      if last.sectionName == s && last.score.Some? &&
         (prev.None? || last.score.value < rows[prev.value].score.value)
      then Some(n)
      else prev
  }

  /** The first minimum is unique. */
  lemma FirstMinUnique(rows: seq<SectionRow>, s: string, i: int, k: int)
    requires IsFirstMin(rows, s, i) && IsFirstMin(rows, s, k)
    ensures i == k
  {
  }

  /** `r` is the best-model row of section `s`: some row picked by `idxmin`, its
      model file and its score. */
  ghost predicate IsBestRow(rows: seq<SectionRow>, s: string, r: BestRow) {
    exists i :: IsFirstMin(rows, s, i) &&
      r == BestRow(s, rows[i].modelFile, rows[i].score.value)
  }

  /** The best-model rows for the sections `secs`, in that order; fails on the
      first section whose scores are all NaN. */
  function BestRows(rows: seq<SectionRow>, secs: seq<string>): (r: Result<seq<BestRow>, string>)
    ensures r.Failure? <==> exists k :: 0 <= k < |secs| && AllNaN(rows, secs[k])
    ensures r.Success? ==> (|r.value| == |secs| &&
      forall k :: 0 <= k < |secs| ==> IsBestRow(rows, secs[k], r.value[k]))
  {
    if secs == [] then Success([])
    else
      match IdxMin(rows, secs[0])
      case None => Failure(AllNaNSection(secs[0]))
      case Some(i) =>
        var rest := BestRows(rows, secs[1..]);
        assert forall k :: 1 <= k < |secs| ==> secs[k] == secs[1..][k - 1];
        if rest.Failure? then rest
        else
          var b := BestRow(secs[0], rows[i].modelFile, rows[i].score.value);
          assert IsBestRow(rows, secs[0], b);
          Success([b] + rest.value)
  }

  /** The error `idxmin` raises on a section without any defined score. */
  function AllNaNSection(s: string): string {
    "All-NaN group in 'score': " + s
  }

  /** `get_best_model_by_section`: one row per distinct section, sections in ascending
      order, each naming the model with the smallest score of that section. */
  function BestModelBySection(rows: seq<SectionRow>): (r: Result<seq<BestRow>, string>)
    ensures r.Failure? <==> exists s :: s in SectionNamesOf(rows) && AllNaN(rows, s)
    ensures r.Success? ==>
      SortedDistinct(Names(r.value), SectionNamesOf(rows)) &&
      forall k :: 0 <= k < |r.value| ==> IsBestRow(rows, r.value[k].sectionName, r.value[k])
  {
    var secs := SortedSections(rows);
    BestRowsOutcome(rows, secs);
    BestRows(rows, secs)
  }

  lemma BestRowsOutcome(rows: seq<SectionRow>, secs: seq<string>)
    requires SortedDistinct(secs, SectionNamesOf(rows))
    ensures BestRows(rows, secs).Failure? <==> exists s :: s in SectionNamesOf(rows) && AllNaN(rows, s)
    ensures BestRows(rows, secs).Success? ==> Names(BestRows(rows, secs).value) == secs
  {
    var r := BestRows(rows, secs);
    if r.Success? {
      forall k | 0 <= k < |secs| ensures Names(r.value)[k] == secs[k] {
        var i :| IsFirstMin(rows, secs[k], i) &&
          r.value[k] == BestRow(secs[k], rows[i].modelFile, rows[i].score.value);
      }
      forall s | s in SectionNamesOf(rows) ensures !AllNaN(rows, s) {
        var k :| 0 <= k < |secs| && secs[k] == s;
      }
    } else {
      var k :| 0 <= k < |secs| && AllNaN(rows, secs[k]);
      assert secs[k] in SectionNamesOf(rows);
    }
  }

  function Names(bs: seq<BestRow>): seq<string> {
    seq(|bs|, k requires 0 <= k < |bs| => bs[k].sectionName)
  }

  /** Each section's best score is the smallest defined score of that section, and
      the named model has a row with exactly that score. */
  lemma BestIsMinimum(rows: seq<SectionRow>, k: nat, j: nat)
    requires BestModelBySection(rows).Success?
    requires k < |BestModelBySection(rows).value|
    requires j < |rows| && rows[j].sectionName == BestModelBySection(rows).value[k].sectionName
    ensures rows[j].score.Some? ==> BestModelBySection(rows).value[k].score <= rows[j].score.value
    ensures exists i :: (0 <= i < |rows| && rows[i].modelFile == BestModelBySection(rows).value[k].bestModel
      && rows[i].sectionName == BestModelBySection(rows).value[k].sectionName
      && rows[i].score == Some(BestModelBySection(rows).value[k].score))
  {
    var b := BestModelBySection(rows).value[k];
    var i :| IsFirstMin(rows, b.sectionName, i) && b == BestRow(b.sectionName, rows[i].modelFile, rows[i].score.value);
  }

  /** Ties go to the earlier row: a model listed first keeps the section against a
      later model with the same score. */
  lemma TieGoesToFirstRow(a: string, b: string, s: string, x: real)
    requires a != b
    ensures BestModelBySection([SectionRow(a, s, "MAE", Some(x)), SectionRow(b, s, "MAE", Some(x))])
         == Success([BestRow(s, a, x)])
  {
    var rows := [SectionRow(a, s, "MAE", Some(x)), SectionRow(b, s, "MAE", Some(x))];
    assert SectionNamesOf(rows) == {s} by {
      assert rows[0].sectionName == s;
    }
    assert IsFirstMin(rows, s, 0);
    assert !AllNaN(rows, s);
    var r := BestModelBySection(rows);
    assert r.Success?;
    assert SortedDistinct([s], {s});
    SortedDistinctUnique(Names(r.value), [s], {s});
    assert |r.value| == 1 && r.value[0].sectionName == s;
    var i :| IsFirstMin(rows, s, i) && r.value[0] == BestRow(s, rows[i].modelFile, rows[i].score.value);
    FirstMinUnique(rows, s, i, 0);
    assert r.value == [BestRow(s, a, x)];
  }

  // ---------------------------------------------------------------------------
  // Columns of the per-section pivot, ordered by mean.

  /** A column of the `sectionName` pivot: its section and one cell per model file. */
  datatype Column = Column(name: string, cells: seq<Option<real>>)

  /** The column mean `DataFrame.mean` computes: NaN cells skipped, NaN if none is left. */
  function MeanOf(c: Column): Option<real> {
    NanMean(c.cells)
  }

  /** `x` may precede `y` in a descending sort with NaN placed last. */
  predicate AtLeast(x: Option<real>, y: Option<real>) {
    y.None? || (x.Some? && x.value >= y.value)
  }

  predicate MeansDescending(cs: seq<Column>) {
    forall i, j :: 0 <= i < j < |cs| ==> AtLeast(MeanOf(cs[i]), MeanOf(cs[j]))
  }

  /** Inserts a column after every column whose mean is at least its own. */
  function InsertColumn(c: Column, cs: seq<Column>): (r: seq<Column>)
    requires MeansDescending(cs)
    ensures MeansDescending(r)
    ensures multiset(r) == multiset(cs) + multiset{c}
  {
    if cs == [] then [c]
    else if AtLeast(MeanOf(cs[0]), MeanOf(c)) then
      var rest := cs[1..];
      TailDescending(cs);
      var tail := InsertColumn(c, rest);
      HeadAtLeast(cs[0], rest, c, tail);
      assert cs == [cs[0]] + rest;
      [cs[0]] + tail
    else
      FrontAtLeast(c, cs);
      [c] + cs
  }

  /** A column whose mean exceeds the first one's goes in front. */
  lemma FrontAtLeast(c: Column, cs: seq<Column>)
    requires cs != [] && MeansDescending(cs)
    requires !AtLeast(MeanOf(cs[0]), MeanOf(c))
    ensures MeansDescending([c] + cs)
  {
    var r := [c] + cs;
    var m := MeanOf(c);
    assert m.Some?;
    forall j | 0 <= j < |cs| ensures AtLeast(m, MeanOf(cs[j])) {
      if j > 0 {
        assert AtLeast(MeanOf(cs[0]), MeanOf(cs[j]));
      }
    }
    forall i, j | 0 <= i < j < |r| ensures AtLeast(MeanOf(r[i]), MeanOf(r[j])) {
      assert r[j] == cs[j - 1];
      if i > 0 {
        assert r[i] == cs[i - 1];
      }
    }
  }

  lemma TailDescending(cs: seq<Column>)
    requires cs != [] && MeansDescending(cs)
    ensures MeansDescending(cs[1..])
    ensures forall j :: 0 <= j < |cs[1..]| ==> AtLeast(MeanOf(cs[0]), MeanOf(cs[1..][j]))
  {
    var rest := cs[1..];
    forall i, j | 0 <= i < j < |rest| ensures AtLeast(MeanOf(rest[i]), MeanOf(rest[j])) {
      assert rest[i] == cs[i + 1] && rest[j] == cs[j + 1];
    }
    forall j | 0 <= j < |rest| ensures AtLeast(MeanOf(cs[0]), MeanOf(rest[j])) {
      assert rest[j] == cs[j + 1];
    }
  }

  /** A head at least every element of `rest` and `c` stays ahead of their merge. */
  lemma HeadAtLeast(h: Column, rest: seq<Column>, c: Column, tail: seq<Column>)
    requires forall j :: 0 <= j < |rest| ==> AtLeast(MeanOf(h), MeanOf(rest[j]))
    requires AtLeast(MeanOf(h), MeanOf(c))
    requires multiset(tail) == multiset(rest) + multiset{c}
    requires MeansDescending(tail)
    ensures MeansDescending([h] + tail)
  {
    var r := [h] + tail;
    forall j | 0 <= j < |tail| ensures AtLeast(MeanOf(h), MeanOf(tail[j])) {
      var y := tail[j];
      assert y in multiset(tail);
      if y != c {
        assert y in multiset(rest);
        var k :| 0 <= k < |rest| && rest[k] == y;
      }
    }
    forall i, j | 0 <= i < j < |r| ensures AtLeast(MeanOf(r[i]), MeanOf(r[j])) {
      assert r[j] == tail[j - 1];
      if i > 0 {
        assert r[i] == tail[i - 1];
      }
    }
  }

  /** `reorder_columns_by_mean_desc`: the same columns with their cells, ordered by
      non-increasing mean, all-NaN columns last. */
  function ReorderColumnsByMeanDesc(cs: seq<Column>): (r: seq<Column>)
    ensures MeansDescending(r)
    ensures multiset(r) == multiset(cs)
  {
    if cs == [] then []
    else
      var n := |cs| - 1;
      assert cs == cs[..n] + [cs[n]];
      InsertColumn(cs[n], ReorderColumnsByMeanDesc(cs[..n]))
  }

  /** A column keeps its cells: every output column is an input column and vice versa. */
  lemma ReorderKeepsColumns(cs: seq<Column>, c: Column)
    ensures c in ReorderColumnsByMeanDesc(cs) <==> c in cs
  {
    var r := ReorderColumnsByMeanDesc(cs);
    assert c in r <==> c in multiset(r);
    assert c in cs <==> c in multiset(cs);
  }

  /** Already ordered columns are left as they are. */
  lemma {:induction false} ReorderSortedUnchanged(cs: seq<Column>)
    requires MeansDescending(cs)
    ensures ReorderColumnsByMeanDesc(cs) == cs
  {
    if cs != [] {
      var n := |cs| - 1;
      var init := cs[..n];
      PrefixDescending(cs, n);
      LastAfterAll(cs, init);
      ReorderSortedUnchanged(init);
      InsertAfterAll(cs[n], init);
      assert init + [cs[n]] == cs;
    }
  }

  lemma PrefixDescending(cs: seq<Column>, n: nat)
    requires MeansDescending(cs) && n <= |cs|
    ensures MeansDescending(cs[..n])
  {
    forall i, j | 0 <= i < j < n ensures AtLeast(MeanOf(cs[..n][i]), MeanOf(cs[..n][j])) {
      assert cs[..n][i] == cs[i] && cs[..n][j] == cs[j];
    }
  }

  lemma LastAfterAll(cs: seq<Column>, init: seq<Column>)
    requires MeansDescending(cs) && cs != [] && init == cs[..|cs| - 1]
    ensures forall j :: 0 <= j < |init| ==> AtLeast(MeanOf(init[j]), MeanOf(cs[|cs| - 1]))
  {
    forall j | 0 <= j < |init| ensures AtLeast(MeanOf(init[j]), MeanOf(cs[|cs| - 1])) {
      assert init[j] == cs[j];
    }
  }

  /** A column whose mean is at most every other's is inserted at the end. */
  lemma {:induction false} InsertAfterAll(c: Column, cs: seq<Column>)
    requires MeansDescending(cs)
    requires forall j :: 0 <= j < |cs| ==> AtLeast(MeanOf(cs[j]), MeanOf(c))
    ensures InsertColumn(c, cs) == cs + [c]
  {
    if cs != [] {
      var rest := cs[1..];
      TailDescending(cs);
      assert forall j :: 0 <= j < |rest| ==> AtLeast(MeanOf(rest[j]), MeanOf(c)) by {
        forall j | 0 <= j < |rest| ensures AtLeast(MeanOf(rest[j]), MeanOf(c)) {
          assert rest[j] == cs[j + 1];
        }
      }
      InsertAfterAll(c, rest);
      assert cs == [cs[0]] + rest;
    }
  }

  /** A column whose cells are all NaN goes after every column with a mean. */
  lemma NaNColumnsLast(cs: seq<Column>, i: nat, j: nat)
    requires i < |ReorderColumnsByMeanDesc(cs)| && j < |ReorderColumnsByMeanDesc(cs)|
    requires MeanOf(ReorderColumnsByMeanDesc(cs)[i]).None?
    requires MeanOf(ReorderColumnsByMeanDesc(cs)[j]).Some?
    ensures j < i
  {
    var r := ReorderColumnsByMeanDesc(cs);
    if i < j {
      DescendingPair(r, i, j);
      assert false;
    }
  }

  lemma DescendingPair(r: seq<Column>, i: nat, j: nat)
    requires MeansDescending(r) && i < j < |r|
    ensures AtLeast(MeanOf(r[i]), MeanOf(r[j]))
  {
  }
}
