/** The JSON adapter (`JSONAdapter`) over an already parsed document: the `rows`
    check for ground-truth files and the filtering of prediction entries for
    model-output files. Reading and parsing the file is outside the model. */
module Adapters {
  import opened Wrappers
  import opened SectionEval

  /** One entry of `estimate_preds`; a key that is absent is `None`. */
  datatype PredEntry = PredEntry(
    validFileName: Option<string>,
    rows: Option<Table>,
    timeToEstimateSec: Option<real>)

  /** The keys of a parsed document that the engine reads; absent keys are `None`. */
  datatype Document = Document(
    rows: Option<Table>,
    totalCostUsd: Option<real>,
    estimatePreds: Option<seq<PredEntry>>)

  /** One model output: the referenced ground-truth name, the predicted table and
      the reported estimation time. */
  datatype ModelOutput = ModelOutput(validFileName: string, df: Table, timeToEstimateSec: real)

  const RequiredKeys: seq<string> := ["valid_file_name", "rows", "time_to_estimate_sec"]

  predicate HasKey(e: PredEntry, key: string) {
    match key
    case "valid_file_name" => e.validFileName.Some?
    case "rows" => e.rows.Some?
    case "time_to_estimate_sec" => e.timeToEstimateSec.Some?
    case _ => false
  }

  predicate IsComplete(e: PredEntry) {
    e.validFileName.Some? && e.rows.Some? && e.timeToEstimateSec.Some?
  }

  /** The required keys an entry lacks, in the order they are listed; the warning
      for a skipped entry names these. */
  function MissingKeys(e: PredEntry): (r: seq<string>)
    ensures r == [] <==> IsComplete(e)
    ensures forall k :: k in r <==> k in RequiredKeys && !HasKey(e, k)
  {
    (if e.validFileName.None? then [RequiredKeys[0]] else []) +
    (if e.rows.None? then [RequiredKeys[1]] else []) +
    (if e.timeToEstimateSec.None? then [RequiredKeys[2]] else [])
  }

  /** The output built from a complete entry: its fields carried over unchanged. */
  function Convert(e: PredEntry): ModelOutput
    requires IsComplete(e)
  {
    ModelOutput(e.validFileName.value, e.rows.value, e.timeToEstimateSec.value)
  }

  /** The outputs for a list of entries: the complete ones, converted, in order. */
  function CompleteEntries(es: seq<PredEntry>): seq<ModelOutput> {
    if es == [] then []
    else
      var last := es[|es| - 1];
      CompleteEntries(es[..|es| - 1]) + (if IsComplete(last) then [Convert(last)] else [])
  }

  /** The missing-key lists of the skipped entries, in order. */
  function SkipWarnings(es: seq<PredEntry>): seq<seq<string>> {
    if es == [] then []
    else
      var last := es[|es| - 1];
      SkipWarnings(es[..|es| - 1]) + (if IsComplete(last) then [] else [MissingKeys(last)])
  }

  class JsonAdapter {
    const filePath: string
    const data: Document

    /** `data` is the parsed content of `filePath`. */
    constructor(filePath: string, data: Document)
      ensures this.filePath == filePath && this.data == data
    {
      this.filePath := filePath;
      this.data := data;
    }

    /** `to_dataframe`: the ground-truth table, or the error naming the file when
        the document has no `rows`. */
    function ToDataFrame(): (r: Result<Table, string>)
      ensures r.Failure? <==> data.rows.None?
      ensures r.Failure? ==> r.error == "Invalid JSON format: 'rows' key missing in " + filePath
      ensures r.Success? ==> r.value == data.rows.value
    {
      match data.rows
      case None => Failure("Invalid JSON format: 'rows' key missing in " + filePath)
      case Some(rows) => Success(rows)
    }

    /** `to_model_outputs`: the error naming the file when there is no
        `estimate_preds`; otherwise the complete entries in order, each skipped entry
        warned about with the keys it lacks. */
    method ToModelOutputs() returns (r: Result<seq<ModelOutput>, string>, ghost warnings: seq<seq<string>>)
      ensures r.Failure? <==> data.estimatePreds.None?
      ensures r.Failure? ==> r.error == "Invalid model output file: 'estimate_preds' key not found in " + filePath
      ensures r.Success? ==> r.value == CompleteEntries(data.estimatePreds.value)
      ensures r.Success? ==> warnings == SkipWarnings(data.estimatePreds.value)
    {
      warnings := [];
      if data.estimatePreds.None? {
        return Failure("Invalid model output file: 'estimate_preds' key not found in " + filePath), warnings;
      }
      var preds := data.estimatePreds.value;
      var outputs: seq<ModelOutput> := [];
      var i := 0;
      while i < |preds|
        invariant 0 <= i <= |preds|
        invariant outputs == CompleteEntries(preds[..i])
        invariant warnings == SkipWarnings(preds[..i])
      {
        var pred := preds[i];
        assert preds[..i + 1][..i] == preds[..i];
        var missing := MissingKeys(pred);
        if missing != [] {
          warnings := warnings + [missing];
        } else {
          outputs := outputs + [Convert(pred)];
        }
        i := i + 1;
      }
      assert preds[..i] == preds;
      r := Success(outputs);
    }
  }

  lemma {:induction false} CompleteEntriesConcat(a: seq<PredEntry>, b: seq<PredEntry>)
    ensures CompleteEntries(a + b) == CompleteEntries(a) + CompleteEntries(b)
    decreases |b|
  {
    if b == [] {
      assert a + b == a;
    } else {
      var init := b[..|b| - 1];
      assert (a + b)[..|a + b| - 1] == a + init;
      assert (a + b)[|a + b| - 1] == b[|b| - 1];
      CompleteEntriesConcat(a, init);
    }
  }

  /** The outputs are the complete entries, converted, as an in-order subsequence of
      the input: `idx` lists the positions of every complete entry, ascending. */
  lemma {:induction false} CompleteEntriesIndices(es: seq<PredEntry>) returns (idx: seq<nat>)
    ensures |idx| == |CompleteEntries(es)| <= |es|
    ensures forall j :: 0 <= j < |idx| ==> idx[j] < |es| && IsComplete(es[idx[j]])
    ensures forall j :: 0 <= j < |idx| ==> CompleteEntries(es)[j] == Convert(es[idx[j]])
    ensures forall j, k :: 0 <= j < k < |idx| ==> idx[j] < idx[k]
    ensures forall i :: 0 <= i < |es| && IsComplete(es[i]) ==> i in idx
  {
    if es == [] {
      idx := [];
    } else {
      var n := |es| - 1;
      var init := es[..n];
      var prev := CompleteEntriesIndices(init);
      var ce := CompleteEntries(es);
      assert forall i :: 0 <= i < n ==> es[i] == init[i];
      if IsComplete(es[n]) {
        assert ce == CompleteEntries(init) + [Convert(es[n])];
        idx := prev + [n];
        forall j | 0 <= j < |idx|
          ensures idx[j] < |es| && IsComplete(es[idx[j]]) && ce[j] == Convert(es[idx[j]])
        {
          if j < |prev| {
            assert idx[j] == prev[j] && ce[j] == CompleteEntries(init)[j];
          }
        }
      } else {
        assert ce == CompleteEntries(init);
        idx := prev;
      }
    }
  }

  /** Entries that reference the same ground truth are all kept. */
  lemma DuplicatesKept(e1: PredEntry, e2: PredEntry)
    requires IsComplete(e1) && IsComplete(e2) && e1.validFileName == e2.validFileName
    ensures CompleteEntries([e1, e2]) == [Convert(e1), Convert(e2)]
  {
    assert [e1][..0] == [] && [e2][..0] == [];
    assert CompleteEntries([e1]) == [Convert(e1)];
    assert CompleteEntries([e2]) == [Convert(e2)];
    assert [e1] + [e2] == [e1, e2];
    CompleteEntriesConcat([e1], [e2]);
  }

  /** Every entry is either converted or warned about, never both. */
  lemma {:induction false} EveryEntryAccounted(es: seq<PredEntry>)
    ensures |CompleteEntries(es)| + |SkipWarnings(es)| == |es|
    ensures forall w :: w in SkipWarnings(es) ==> w != []
  {
    if es != [] {
      EveryEntryAccounted(es[..|es| - 1]);
    }
  }
}
