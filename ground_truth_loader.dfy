/** Building the ground-truth map (`load_all_ground_truths`) from a directory
    listing. The listing pairs each file name with its parsed content, or with
    `None` when the file could not be read or parsed. */
module GroundTruthLoader {
  import opened Wrappers
  import opened Strings
  import opened Numeric
  import opened SectionEval
  import opened Adapters

  datatype DirEntry = DirEntry(fileName: string, content: Option<Document>)

  /** A loaded ground truth: its table and its total cost (`None` when neither a
      `totalCostUsd` key nor a `rowTotalCostUsd` column is available). */
  datatype GroundTruth = GroundTruth(df: Table, total: Option<real>)

  /** `os.path.join` of a directory and a plain file name. */
  function JoinPath(dir: string, name: string): (p: string)
    ensures EndsWith(p, name)
  {
    var p := if dir == [] || dir[|dir| - 1] == '/' then dir + name else dir + "/" + name;
    assert p[|p| - |name|..] == name;
    p
  }

  function RowCosts(t: Table): seq<real> {
    seq(|t|, i requires 0 <= i < |t| => t[i].rowTotalCostUsd)
  }

  /** The declared `totalCostUsd`, else the sum of the row totals; a table built from
      no rows has no `rowTotalCostUsd` column, so its total is `None`. */
  function Total(doc: Document, df: Table): Option<real> {
    if doc.totalCostUsd.Some? then doc.totalCostUsd
    else if df != [] then Some(Sum(RowCosts(df)))
    else None
  }

  /** The file names that are loaded: `.json` names whose content parsed and has `rows`. */
  predicate Accepted(e: DirEntry) {
    EndsWith(e.fileName, ".json") && e.content.Some? && e.content.value.rows.Some?
  }

  /** The map key: the file name without its extension. */
  function Key(name: string): string {
    SplitExt(name).0
  }

  function Loaded(e: DirEntry): GroundTruth
    requires Accepted(e)
  {
    var df := e.content.value.rows.value;
    GroundTruth(df, Total(e.content.value, df))
  }

  /** The effect of one listing entry on the map: an accepted file sets its key,
      replacing an earlier file with the same base name; any other entry is ignored. */
  function Step(m: map<string, GroundTruth>, e: DirEntry): map<string, GroundTruth> {
    if Accepted(e) then m[Key(e.fileName) := Loaded(e)] else m
  }

  function Insert(m: map<string, GroundTruth>, listing: seq<DirEntry>): map<string, GroundTruth>
    decreases |listing|
  {
    if listing == [] then m else Insert(Step(m, listing[0]), listing[1..])
  }

  /** The ground-truth map a listing yields. */
  function GtMap(listing: seq<DirEntry>): map<string, GroundTruth> {
    Insert(map[], listing)
  }

  /** `load_all_ground_truths`: visits the listing in order, skips names not ending
      in `.json`, skips files that fail to load or lack `rows`, and stores each
      remaining file under its base name. */
  method LoadAllGroundTruths(groundTruthDir: string, listing: seq<DirEntry>) returns (gtMap: map<string, GroundTruth>)
    ensures gtMap == GtMap(listing)
  {
    gtMap := map[];
    var i := 0;
    while i < |listing|
      invariant 0 <= i <= |listing|
      invariant gtMap == GtMap(listing[..i])
    {
      var entry := listing[i];
      InsertSnoc(map[], listing[..i], entry);
      assert listing[..i + 1] == listing[..i] + [entry];
      i := i + 1;
      if !EndsWith(entry.fileName, ".json") {
        continue;
      }
      if entry.content.None? {
        continue;
      }
      var adapter := new JsonAdapter(JoinPath(groundTruthDir, entry.fileName), entry.content.value);
      var df := adapter.ToDataFrame();
      if df.Failure? {
        continue;
      }
      var total := if adapter.data.totalCostUsd.Some? then adapter.data.totalCostUsd
                   else if df.value != [] then Some(Sum(RowCosts(df.value))) else None;
      gtMap := gtMap[Key(entry.fileName) := GroundTruth(df.value, total)];
    }
    assert listing[..i] == listing;
  }

  lemma {:induction false} InsertConcat(m: map<string, GroundTruth>, a: seq<DirEntry>, b: seq<DirEntry>)
    ensures Insert(m, a + b) == Insert(Insert(m, a), b)
    decreases |a|
  {
    if a == [] {
      assert a + b == b;
    } else {
      assert (a + b)[0] == a[0] && (a + b)[1..] == a[1..] + b;
      InsertConcat(Step(m, a[0]), a[1..], b);
    }
  }

  lemma InsertSnoc(m: map<string, GroundTruth>, a: seq<DirEntry>, e: DirEntry)
    ensures Insert(m, a + [e]) == Step(Insert(m, a), e)
  {
    InsertConcat(m, a, [e]);
    assert [e][1..] == [];
  }

  /** A file that is skipped (wrong extension, failed load, no `rows`) has no effect:
      the files around it still load as if it were absent. */
  lemma SkippedEntryIgnored(a: seq<DirEntry>, e: DirEntry, b: seq<DirEntry>)
    requires !Accepted(e)
    ensures GtMap(a + [e] + b) == GtMap(a + b)
  {
    InsertConcat(map[], a + [e], b);
    InsertSnoc(map[], a, e);
    InsertConcat(map[], a, b);
  }

  /** The keys are exactly the base names of the accepted files. */
  lemma {:induction false} InsertDomain(m: map<string, GroundTruth>, listing: seq<DirEntry>, k: string)
    ensures k in Insert(m, listing) <==>
      k in m || exists i :: 0 <= i < |listing| && Accepted(listing[i]) && Key(listing[i].fileName) == k
    decreases |listing|
  {
    if listing != [] {
      InsertDomain(Step(m, listing[0]), listing[1..], k);
      if exists i :: 0 <= i < |listing[1..]| && Accepted(listing[1..][i]) && Key(listing[1..][i].fileName) == k {
        var i :| 0 <= i < |listing[1..]| && Accepted(listing[1..][i]) && Key(listing[1..][i].fileName) == k;
        assert listing[i + 1] == listing[1..][i];
      }
      if exists i :: 0 <= i < |listing| && Accepted(listing[i]) && Key(listing[i].fileName) == k {
        var i :| 0 <= i < |listing| && Accepted(listing[i]) && Key(listing[i].fileName) == k;
        if i > 0 {
          assert listing[1..][i - 1] == listing[i];
        }
      }
    }
  }

  lemma GtMapDomain(listing: seq<DirEntry>, k: string)
    ensures k in GtMap(listing) <==>
      exists i :: 0 <= i < |listing| && Accepted(listing[i]) && Key(listing[i].fileName) == k
  {
    InsertDomain(map[], listing, k);
  }

  /** When several accepted files share a base name, the last one in the listing wins. */
  lemma {:induction false} InsertLastWins(m: map<string, GroundTruth>, listing: seq<DirEntry>, i: nat)
    requires i < |listing| && Accepted(listing[i])
    requires forall j :: i < j < |listing| && Accepted(listing[j]) ==> Key(listing[j].fileName) != Key(listing[i].fileName)
    ensures Key(listing[i].fileName) in Insert(m, listing)
    ensures Insert(m, listing)[Key(listing[i].fileName)] == Loaded(listing[i])
    decreases |listing|
  {
    var k := Key(listing[i].fileName);
    if i == 0 {
      InsertUntouched(Step(m, listing[0]), listing[1..], k);
    } else {
      assert listing[1..][i - 1] == listing[i];
      InsertLastWins(Step(m, listing[0]), listing[1..], i - 1);
    }
  }

  /** Entries with other keys leave key `k` alone. */
  lemma {:induction false} InsertUntouched(m: map<string, GroundTruth>, listing: seq<DirEntry>, k: string)
    requires k in m
    requires forall j :: 0 <= j < |listing| && Accepted(listing[j]) ==> Key(listing[j].fileName) != k
    ensures k in Insert(m, listing) && Insert(m, listing)[k] == m[k]
    decreases |listing|
  {
    if listing != [] {
      assert forall j :: 0 <= j < |listing[1..]| ==> listing[1..][j] == listing[j + 1];
      InsertUntouched(Step(m, listing[0]), listing[1..], k);
    }
  }

  /** Without a declared total, a file with rows totals the sum of its row totals,
      and one with no rows has no total. */
  lemma TotalFallback(doc: Document, df: Table)
    requires doc.totalCostUsd.None?
    ensures df != [] ==> Total(doc, df) == Some(Sum(RowCosts(df)))
    ensures df == [] <==> Total(doc, df).None?
  {
  }

  /** A listing of `estimate_1.json`, a broken `broken.json` and `notes.txt` yields
      exactly the key `estimate_1`. */
  lemma ListingExample(doc: Document)
    requires doc.rows.Some?
    ensures GtMap([DirEntry("estimate_1.json", Some(doc)), DirEntry("broken.json", None), DirEntry("notes.txt", Some(doc))]).Keys == {"estimate_1"}
  {
    var name := "estimate_1.json";
    assert name[..|name| - 5] == "estimate_1";
    SplitExtOfJsonName(name);
    var e1, e2, e3 := DirEntry("estimate_1.json", Some(doc)), DirEntry("broken.json", None), DirEntry("notes.txt", Some(doc));
    assert !EndsWith("notes.txt", ".json");
    var m1 := Step(map[], e1);
    assert m1.Keys == {"estimate_1"};
    assert [e1, e2, e3][1..] == [e2, e3] && [e2, e3][1..] == [e3] && [e3][1..] == [];
    assert Insert(m1, [e3]) == m1;
    assert Insert(m1, [e2, e3]) == m1;
  }
}
