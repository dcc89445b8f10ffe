/** The evaluation pipeline (`EvaluationPipeline`): builds the ground-truth map,
    scores each model-output file against it, notifies the observers and hands the
    accumulated result tables to the report generator. Directory listings and file
    contents are inputs: each listed name comes with its parsed content, or `None`
    when it could not be read. */
module Pipeline {
  import opened Wrappers
  import opened Strings
  import opened Metrics
  import opened SectionEval
  import opened Adapters
  import opened GroundTruthLoader
  import opened Reports
  import opened Notifier
  import opened Settings
  import opened MetricSelection

  /** What `process_model_file` returns for a file it scores. */
  datatype FileResults = FileResults(globalRows: seq<GlobalRow>, sectionRows: seq<SectionRow>)

  /** The report format: the explicit argument unless it is absent or empty (Python
      falsiness), else the configured format, else `"csv"`; lower-cased. */
  function ReportFormat(explicit: Option<string>, config: Config): string {
    Lower(if explicit.Some? && explicit.value != [] then explicit.value else ConfigFormat(config))
  }

  /** The (ground truth, prediction) table pairs of the predictions whose
      `valid_file_name` is a ground-truth key, in prediction order. */
  function Resolve(preds: seq<ModelOutput>, gtMap: map<string, GroundTruth>): seq<(Table, Table)> {
    if preds == [] then []
    else
      var p := preds[|preds| - 1];
      Resolve(preds[..|preds| - 1], gtMap) + (if p.validFileName in gtMap then [(gtMap[p.validFileName].df, p.df)] else [])
  }

  function Firsts(pairs: seq<(Table, Table)>): seq<Table> {
    seq(|pairs|, i requires 0 <= i < |pairs| => pairs[i].0)
  }

  function Seconds(pairs: seq<(Table, Table)>): seq<Table> {
    seq(|pairs|, i requires 0 <= i < |pairs| => pairs[i].1)
  }

  /** `pd.concat` of tables: their rows, in order, duplicates kept. */
  function Flatten(ts: seq<Table>): Table {
    if ts == [] then [] else Flatten(ts[..|ts| - 1]) + ts[|ts| - 1]
  }

  /** The pooled (ground truth, prediction) tables a model file is scored on, or
      `None` when the file is not scored: unreadable, no `estimate_preds`, or no
      prediction resolves. */
  function PooledInputs(content: Option<Document>, gtMap: map<string, GroundTruth>): Option<(Table, Table)> {
    if content.None? || content.value.estimatePreds.None? then None
    else
      var pairs := Resolve(CompleteEntries(content.value.estimatePreds.value), gtMap);
      if pairs == [] then None else Some((Flatten(Firsts(pairs)), Flatten(Seconds(pairs))))
  }

  /** One global row per evaluator, in evaluator order. */
  ghost function GlobalRows(modelFile: string, evaluators: Evaluators, gt: Table, pred: Table): seq<GlobalRow> {
    seq(|evaluators|, i requires 0 <= i < |evaluators| =>
      GlobalRow(modelFile, evaluators[i].0, GlobalScore(evaluators[i].1, gt, pred)))
  }

  /** The per-section rows of one evaluator, sections in the order `order`. */
  function SectionBlock(modelFile: string, metricName: string, m: Metric, order: seq<string>, gt: Table, pred: Table): seq<SectionRow> {
    seq(|order|, j requires 0 <= j < |order| =>
      SectionRow(modelFile, order[j], metricName, SectionScore(m, gt, pred, order[j])))
  }

  /** The per-section rows of all evaluators: one block per evaluator, in evaluator order. */
  function SectionRows(modelFile: string, evaluators: Evaluators, orders: seq<seq<string>>, gt: Table, pred: Table): seq<SectionRow>
    requires |orders| == |evaluators|
  {
    if evaluators == [] then []
    else
      var n := |evaluators| - 1;
      SectionRows(modelFile, evaluators[..n], orders[..n], gt, pred)
        + SectionBlock(modelFile, evaluators[n].0, evaluators[n].1, orders[n], gt, pred)
  }

  /** The tag a per-section score is notified under. */
  function SectionTag(metric: string, section: string): string {
    metric + " [" + section + "]"
  }

  function GlobalNotes(rows: seq<GlobalRow>): seq<Notification> {
    seq(|rows|, i requires 0 <= i < |rows| => Notification(rows[i].modelFile, rows[i].metric, rows[i].score))
  }

  function SectionNotes(rows: seq<SectionRow>): seq<Notification> {
    seq(|rows|, i requires 0 <= i < |rows| =>
      Notification(rows[i].modelFile, SectionTag(rows[i].metric, rows[i].sectionName), rows[i].score))
  }

  /** The notifications for one file's results: global ones first, then per-section ones. */
  function FileNotes(r: Option<FileResults>): seq<Notification> {
    match r
    case None => []
    case Some(fr) => GlobalNotes(fr.globalRows) + SectionNotes(fr.sectionRows)
  }

  /** `res` is what `process_model_file` yields for this content: nothing when the
      file is not scored, else the global rows and, for some visiting order of the
      sections per evaluator, the per-section rows. */
  ghost predicate FileResultFor(modelFile: string, content: Option<Document>, res: Option<FileResults>,
                                gtMap: map<string, GroundTruth>, evaluators: Evaluators) {
    match PooledInputs(content, gtMap)
    case None => res.None?
    case Some((gt, pred)) =>
      res.Some? && res.value.globalRows == GlobalRows(modelFile, evaluators, gt, pred) &&
      exists orders: seq<seq<string>> ::
        |orders| == |evaluators| &&
        (forall i :: 0 <= i < |orders| ==> IsEnumeration(orders[i], AllSections(gt, pred))) &&
        res.value.sectionRows == SectionRows(modelFile, evaluators, orders, gt, pred)
  }

  /** The pooled tables make `groupby("sectionName")` raise: an evaluator is
      configured and one of the pooled tables has no rows, so no columns. The first
      evaluator's global score raises before anything about the file is notified. */
  predicate Aborts(content: Option<Document>, gtMap: map<string, GroundTruth>, evaluators: Evaluators) {
    match PooledInputs(content, gtMap)
    case None => false
    case Some((gt, pred)) => evaluators != [] && (gt == [] || pred == [])
  }

  function AllGlobalRows(perFile: seq<Option<FileResults>>): seq<GlobalRow> {
    if perFile == [] then []
    else
      var last := perFile[|perFile| - 1];
      AllGlobalRows(perFile[..|perFile| - 1]) + (if last.Some? then last.value.globalRows else [])
  }

  function AllSectionRows(perFile: seq<Option<FileResults>>): seq<SectionRow> {
    if perFile == [] then []
    else
      var last := perFile[|perFile| - 1];
      AllSectionRows(perFile[..|perFile| - 1]) + (if last.Some? then last.value.sectionRows else [])
  }

  function RunNotes(perFile: seq<Option<FileResults>>): seq<Notification> {
    if perFile == [] then [] else RunNotes(perFile[..|perFile| - 1]) + FileNotes(perFile[|perFile| - 1])
  }

  /** The report names: `output_path` without its extension, then `_global` or
      `_by_section`, then the format as extension. */
  function GlobalOutput(config: Config, format: string): string {
    SplitExt(OutputPath(config)).0 + "_global." + format
  }

  function SectionOutput(config: Config, format: string): string {
    SplitExt(OutputPath(config)).0 + "_by_section." + format
  }

  lemma BroadcastSnoc(obs: seq<Observer>, ns: seq<Notification>, n: Notification)
    ensures Broadcast(obs, ns + [n]) == Broadcast(obs, ns) + Fanout(obs, n)
  {
    BroadcastConcat(obs, ns, [n]);
    BroadcastSingle(obs, n);
  }

  /** One more `notify` extends the log by that notification's fan-out. */
  lemma NotifyStep(base: seq<Delivery>, before: seq<Delivery>, after: seq<Delivery>,
                   obs: seq<Observer>, ns: seq<Notification>, n: Notification)
    requires before == base + Broadcast(obs, ns)
    requires after == before + Fanout(obs, n)
    ensures after == base + Broadcast(obs, ns + [n])
  {
    BroadcastSnoc(obs, ns, n);
    ConcatAssoc(base, Broadcast(obs, ns), Fanout(obs, n));
  }

  /** Several more `notify` calls extend the log by their broadcast. */
  lemma NotifyMany(base: seq<Delivery>, before: seq<Delivery>, after: seq<Delivery>,
                   obs: seq<Observer>, ns: seq<Notification>, more: seq<Notification>)
    requires before == base + Broadcast(obs, ns)
    requires after == before + Broadcast(obs, more)
    ensures after == base + Broadcast(obs, ns + more)
  {
    BroadcastConcat(obs, ns, more);
    ConcatAssoc(base, Broadcast(obs, ns), Broadcast(obs, more));
  }

  lemma GlobalRowsSnoc(modelFile: string, evaluators: Evaluators, i: nat, gt: Table, pred: Table, score: Option<real>)
    requires i < |evaluators| && score == GlobalScore(evaluators[i].1, gt, pred)
    ensures GlobalRows(modelFile, evaluators[..i + 1], gt, pred)
         == GlobalRows(modelFile, evaluators[..i], gt, pred) + [GlobalRow(modelFile, evaluators[i].0, score)]
  {
    var a := GlobalRows(modelFile, evaluators[..i + 1], gt, pred);
    var b := GlobalRows(modelFile, evaluators[..i], gt, pred) + [GlobalRow(modelFile, evaluators[i].0, score)];
    forall k | 0 <= k < |a| ensures a[k] == b[k] {
      assert evaluators[..i + 1][k] == evaluators[k];
      if k < i {
        assert evaluators[..i][k] == evaluators[k];
      }
    }
  }

  lemma GlobalNotesSnoc(rows: seq<GlobalRow>, row: GlobalRow)
    ensures GlobalNotes(rows + [row]) == GlobalNotes(rows) + [Notification(row.modelFile, row.metric, row.score)]
  {
  }

  lemma SectionNotesConcat(rows: seq<SectionRow>, more: seq<SectionRow>)
    ensures SectionNotes(rows + more) == SectionNotes(rows) + SectionNotes(more)
  {
  }

  /** The rows for the entries of `scores`, in the order `order`. */
  function ScoreRows(modelFile: string, metricName: string, scores: map<string, Option<real>>, order: seq<string>): seq<SectionRow>
    requires forall j :: 0 <= j < |order| ==> order[j] in scores
  {
    seq(|order|, j requires 0 <= j < |order| && order[j] in scores =>
      SectionRow(modelFile, order[j], metricName, scores[order[j]]))
  }

  lemma ScoreRowsSnoc(modelFile: string, metricName: string, scores: map<string, Option<real>>, order: seq<string>, section: string)
    requires forall j :: 0 <= j < |order| ==> order[j] in scores
    requires section in scores
    ensures ScoreRows(modelFile, metricName, scores, order + [section])
         == ScoreRows(modelFile, metricName, scores, order) + [SectionRow(modelFile, section, metricName, scores[section])]
  {
  }

  /** Rows built from the per-section scores are that evaluator's block of rows. */
  lemma ScoreRowsAreBlock(modelFile: string, metricName: string, m: Metric, gt: Table, pred: Table,
                          scores: map<string, Option<real>>, order: seq<string>)
    requires scores.Keys == AllSections(gt, pred)
    requires forall s :: s in scores ==> scores[s] == SectionScore(m, gt, pred, s)
    requires IsEnumeration(order, scores.Keys)
    ensures ScoreRows(modelFile, metricName, scores, order) == SectionBlock(modelFile, metricName, m, order, gt, pred)
  {
  }

  lemma SectionRowsSnoc(modelFile: string, evaluators: Evaluators, orders: seq<seq<string>>, order: seq<string>,
                        i: nat, gt: Table, pred: Table)
    requires i < |evaluators| && |orders| == i
    ensures SectionRows(modelFile, evaluators[..i + 1], orders + [order], gt, pred)
         == SectionRows(modelFile, evaluators[..i], orders, gt, pred)
          + SectionBlock(modelFile, evaluators[i].0, evaluators[i].1, order, gt, pred)
  {
    assert evaluators[..i + 1][..i] == evaluators[..i];
    assert (orders + [order])[..i] == orders;
  }

  lemma ResolveSnoc(preds: seq<ModelOutput>, i: nat, gtMap: map<string, GroundTruth>)
    requires i < |preds|
    ensures Resolve(preds[..i + 1], gtMap) == Resolve(preds[..i], gtMap) +
      (if preds[i].validFileName in gtMap then [(gtMap[preds[i].validFileName].df, preds[i].df)] else [])
  {
    assert preds[..i + 1][..i] == preds[..i];
  }

  lemma ScoredResult(modelFile: string, content: Option<Document>, gtMap: map<string, GroundTruth>, evaluators: Evaluators,
                     gt: Table, pred: Table, globalRows: seq<GlobalRow>, sectionRows: seq<SectionRow>, orders: seq<seq<string>>)
    requires PooledInputs(content, gtMap) == Some((gt, pred))
    requires globalRows == GlobalRows(modelFile, evaluators, gt, pred)
    requires |orders| == |evaluators|
    requires forall i :: 0 <= i < |orders| ==> IsEnumeration(orders[i], AllSections(gt, pred))
    requires sectionRows == SectionRows(modelFile, evaluators, orders, gt, pred)
    ensures FileResultFor(modelFile, content, Some(FileResults(globalRows, sectionRows)), gtMap, evaluators)
  {
  }

  lemma NotScored(modelFile: string, content: Option<Document>, gtMap: map<string, GroundTruth>, evaluators: Evaluators)
    requires PooledInputs(content, gtMap).None?
    ensures FileResultFor(modelFile, content, None, gtMap, evaluators)
  {
  }

  lemma RunSnoc(perFile: seq<Option<FileResults>>, r: Option<FileResults>)
    ensures AllGlobalRows(perFile + [r]) == AllGlobalRows(perFile) + (if r.Some? then r.value.globalRows else [])
    ensures AllSectionRows(perFile + [r]) == AllSectionRows(perFile) + (if r.Some? then r.value.sectionRows else [])
    ensures RunNotes(perFile + [r]) == RunNotes(perFile) + FileNotes(r)
  {
    assert (perFile + [r])[..|perFile|] == perFile;
  }

  lemma FileResultsSnoc(listing: seq<DirEntry>, perFile: seq<Option<FileResults>>, r: Option<FileResults>,
                        gtMap: map<string, GroundTruth>, evaluators: Evaluators)
    requires |perFile| < |listing|
    requires forall k :: 0 <= k < |perFile| ==>
      FileResultFor(listing[k].fileName, listing[k].content, perFile[k], gtMap, evaluators)
    requires FileResultFor(listing[|perFile|].fileName, listing[|perFile|].content, r, gtMap, evaluators)
    ensures forall k :: 0 <= k < |perFile| + 1 ==>
      FileResultFor(listing[k].fileName, listing[k].content, (perFile + [r])[k], gtMap, evaluators)
  {
    forall k | 0 <= k < |perFile| + 1
      ensures FileResultFor(listing[k].fileName, listing[k].content, (perFile + [r])[k], gtMap, evaluators)
    {
      if k < |perFile| {
        assert (perFile + [r])[k] == perFile[k];
      } else {
        assert (perFile + [r])[k] == r;
      }
    }
  }

  class EvaluationPipeline {
    const config: Config
    const groundTruthDir: string
    const modelOutputsDir: string
    const evaluators: Evaluators
    const gtMap: map<string, GroundTruth>
    const reportFormat: string
    const notifier: EvaluationNotifier

    constructor(config: Config, evaluators: Evaluators, gtMap: map<string, GroundTruth>,
                reportFormat: string, notifier: EvaluationNotifier)
      requires gtMap != map[]
      ensures this.config == config && this.evaluators == evaluators && this.gtMap == gtMap
      ensures groundTruthDir == GroundTruthDir(config) && modelOutputsDir == ModelOutputsDir(config)
      ensures this.reportFormat == reportFormat && this.notifier == notifier
    {
      this.config := config;
      groundTruthDir := GroundTruthDir(config);
      modelOutputsDir := ModelOutputsDir(config);
      this.evaluators := evaluators;
      this.gtMap := gtMap;
      this.reportFormat := reportFormat;
      this.notifier := notifier;
    }

    /** The global-score loop: one row per evaluator, each notified under the plain
        metric name as soon as it is computed. */
    method ScoreGlobally(modelFile: string, gt: Table, pred: Table) returns (r: Result<seq<GlobalRow>, string>)
      modifies notifier
      ensures r.Failure? <==> evaluators != [] && (gt == [] || pred == [])
      ensures r.Failure? ==> r.error == MissingSectionColumn && notifier.events == old(notifier.events)
      ensures r.Success? ==> r.value == GlobalRows(modelFile, evaluators, gt, pred)
      ensures r.Success? ==> notifier.events == old(notifier.events) + Broadcast(notifier.observers, GlobalNotes(r.value))
      ensures notifier.observers == old(notifier.observers)
    {
      var rows := [];
      var i := 0;
      while i < |evaluators|
        invariant 0 <= i <= |evaluators|
        invariant i > 0 ==> gt != [] && pred != []
        invariant rows == GlobalRows(modelFile, evaluators[..i], gt, pred)
        invariant notifier.observers == old(notifier.observers)
        invariant notifier.events == old(notifier.events) + Broadcast(notifier.observers, GlobalNotes(rows))
      {
        var metricName := evaluators[i].0;
        var checked := EvaluateBySectionAsWritten(evaluators[i].1, gt, pred);
        if checked.Failure? {
          assert rows == [] && Broadcast(notifier.observers, GlobalNotes(rows)) == [];
          assert notifier.events == old(notifier.events) + [];
          return Failure(checked.error);
        }
        var score := checked.value;
        var row := GlobalRow(modelFile, metricName, score);
        GlobalRowsSnoc(modelFile, evaluators, i, gt, pred, score);
        GlobalNotesSnoc(rows, row);
        ghost var before := notifier.events;
        notifier.Notify(modelFile, metricName, score);
        NotifyStep(old(notifier.events), before, notifier.events, notifier.observers, GlobalNotes(rows),
                   Notification(modelFile, metricName, score));
        rows := rows + [row];
        i := i + 1;
      }
      assert evaluators[..i] == evaluators;
      return Success(rows);
    }

    /** The per-section rows of one evaluator, each notified under its section tag. */
    method ScoreSectionsOf(modelFile: string, metricName: string, m: Metric, gt: Table, pred: Table)
      returns (r: Result<seq<SectionRow>, string>, ghost order: seq<string>)
      modifies notifier
      ensures r.Failure? <==> gt == [] || pred == []
      ensures r.Failure? ==> r.error == MissingSectionColumn && notifier.events == old(notifier.events)
      ensures r.Success? ==> IsEnumeration(order, AllSections(gt, pred))
      ensures r.Success? ==> r.value == SectionBlock(modelFile, metricName, m, order, gt, pred)
      ensures r.Success? ==> notifier.events == old(notifier.events) + Broadcast(notifier.observers, SectionNotes(r.value))
      ensures notifier.observers == old(notifier.observers)
    {
      order := [];
      var sectionScores := EvaluateBySectionPerSectionAsWritten(m, gt, pred);
      if sectionScores.Failure? {
        return Failure(sectionScores.error), order;
      }
      var rows;
      rows, order := NotifySections(modelFile, metricName, sectionScores.value);
      ScoreRowsAreBlock(modelFile, metricName, m, gt, pred, sectionScores.value, order);
      r := Success(rows);
    }

    /** The loop over `section_scores.items()`: one row per entry, each notified
        under its section tag as it is appended. */
    method NotifySections(modelFile: string, metricName: string, scores: map<string, Option<real>>)
      returns (rows: seq<SectionRow>, ghost order: seq<string>)
      modifies notifier
      ensures IsEnumeration(order, scores.Keys)
      ensures rows == ScoreRows(modelFile, metricName, scores, order)
      ensures notifier.observers == old(notifier.observers)
      ensures notifier.events == old(notifier.events) + Broadcast(notifier.observers, SectionNotes(rows))
    {
      var remaining := scores.Keys;
      rows := [];
      order := [];
      while remaining != {}
        invariant remaining <= scores.Keys
        invariant IsEnumeration(order, scores.Keys - remaining)
        invariant forall j :: 0 <= j < |order| ==> order[j] in scores
        invariant rows == ScoreRows(modelFile, metricName, scores, order)
        invariant notifier.observers == old(notifier.observers)
        invariant notifier.events == old(notifier.events) + Broadcast(notifier.observers, SectionNotes(rows))
        decreases remaining
      {
        var section :| section in remaining;
        var score := scores[section];
        var row := SectionRow(modelFile, section, metricName, score);
        var note := Notification(modelFile, SectionTag(metricName, section), score);
        VisitStep(order, scores.Keys, remaining, section);
        ScoreRowsSnoc(modelFile, metricName, scores, order, section);
        SectionNotesConcat(rows, [row]);
        ghost var before := notifier.events;
        notifier.Notify(modelFile, SectionTag(metricName, section), score);
        NotifyStep(old(notifier.events), before, notifier.events, notifier.observers, SectionNotes(rows), note);
        rows := rows + [row];
        order := order + [section];
        remaining := remaining - {section};
      }
    }

    /** The per-section loop: every evaluator in order, one block of rows each. */
    method ScoreBySection(modelFile: string, gt: Table, pred: Table)
      returns (r: Result<seq<SectionRow>, string>, ghost orders: seq<seq<string>>)
      modifies notifier
      ensures r.Failure? <==> evaluators != [] && (gt == [] || pred == [])
      ensures r.Failure? ==> r.error == MissingSectionColumn && notifier.events == old(notifier.events)
      ensures r.Success? ==> |orders| == |evaluators|
      ensures r.Success? ==> forall i :: 0 <= i < |orders| ==> IsEnumeration(orders[i], AllSections(gt, pred))
      ensures r.Success? ==> r.value == SectionRows(modelFile, evaluators, orders, gt, pred)
      ensures r.Success? ==> notifier.events == old(notifier.events) + Broadcast(notifier.observers, SectionNotes(r.value))
      ensures notifier.observers == old(notifier.observers)
    {
      var rows := [];
      orders := [];
      var i := 0;
      while i < |evaluators|
        invariant 0 <= i <= |evaluators|
        invariant i > 0 ==> gt != [] && pred != []
        invariant |orders| == i
        invariant forall k :: 0 <= k < i ==> IsEnumeration(orders[k], AllSections(gt, pred))
        invariant rows == SectionRows(modelFile, evaluators[..i], orders, gt, pred)
        invariant notifier.observers == old(notifier.observers)
        invariant notifier.events == old(notifier.events) + Broadcast(notifier.observers, SectionNotes(rows))
      {
        var checked;
        ghost var order;
        ghost var before := notifier.events;
        checked, order := ScoreSectionsOf(modelFile, evaluators[i].0, evaluators[i].1, gt, pred);
        if checked.Failure? {
          assert rows == [] && Broadcast(notifier.observers, SectionNotes(rows)) == [];
          assert notifier.events == old(notifier.events) + [];
          return Failure(checked.error), orders;
        }
        var block := checked.value;
        NotifyMany(old(notifier.events), before, notifier.events, notifier.observers, SectionNotes(rows), SectionNotes(block));
        SectionNotesConcat(rows, block);
        SectionRowsSnoc(modelFile, evaluators, orders, order, i, gt, pred);
        rows := rows + block;
        orders := orders + [order];
        i := i + 1;
      }
      assert evaluators[..i] == evaluators;
      r := Success(rows);
    }

    /** The resolve loop: keeps the predictions whose `valid_file_name` is a
        ground-truth key, collecting each one's ground-truth table and its own. */
    method ResolvePredictions(predictions: seq<ModelOutput>) returns (gtDfs: seq<Table>, predDfs: seq<Table>)
      ensures gtDfs == Firsts(Resolve(predictions, gtMap)) && predDfs == Seconds(Resolve(predictions, gtMap))
    {
      gtDfs := [];
      predDfs := [];
      ghost var pairs: seq<(Table, Table)> := [];
      var i := 0;
      while i < |predictions|
        invariant 0 <= i <= |predictions|
        invariant pairs == Resolve(predictions[..i], gtMap)
        invariant gtDfs == Firsts(pairs) && predDfs == Seconds(pairs)
      {
        var prediction := predictions[i];
        ResolveSnoc(predictions, i, gtMap);
        i := i + 1;
        var validFile := prediction.validFileName;
        if validFile !in gtMap {
          continue;
        }
        gtDfs := gtDfs + [gtMap[validFile].df];
        predDfs := predDfs + [prediction.df];
        pairs := pairs + [(gtMap[validFile].df, prediction.df)];
      }
      assert predictions[..i] == predictions;
    }

    /** `process_model_file`: nothing (and no notification) for an unreadable file,
        one without `estimate_preds`, or one none of whose predictions resolve; the
        `KeyError` of the grouping, before any notification, when the file aborts;
        otherwise the global rows and then the per-section rows of the pooled
        tables, notified in that order. */
    method ProcessModelFile(modelFile: string, content: Option<Document>) returns (r: Result<Option<FileResults>, string>)
      modifies notifier
      ensures r.Failure? <==> Aborts(content, gtMap, evaluators)
      ensures r.Failure? ==> r.error == MissingSectionColumn && notifier.events == old(notifier.events)
      ensures r.Success? ==> FileResultFor(modelFile, content, r.value, gtMap, evaluators)
      ensures r.Success? ==> notifier.events == old(notifier.events) + Broadcast(notifier.observers, FileNotes(r.value))
      ensures notifier.observers == old(notifier.observers)
    {
      if content.None? {
        NotScored(modelFile, content, gtMap, evaluators);
        return Success(None);
      }
      var modelAdapter := new JsonAdapter(JoinPath(modelOutputsDir, modelFile), content.value);
      if modelAdapter.data.estimatePreds.None? {
        NotScored(modelFile, content, gtMap, evaluators);
        return Success(None);
      }
      var outputs;
      ghost var warnings;
      outputs, warnings := modelAdapter.ToModelOutputs();
      var gtDfs, predDfs := ResolvePredictions(outputs.value);
      if gtDfs == [] || predDfs == [] {
        NotScored(modelFile, content, gtMap, evaluators);
        return Success(None);
      }
      var aggregatedGtDf := Flatten(gtDfs);
      var aggregatedPredDf := Flatten(predDfs);
      assert PooledInputs(content, gtMap) == Some((aggregatedGtDf, aggregatedPredDf));
      var globalResults := ScoreGlobally(modelFile, aggregatedGtDf, aggregatedPredDf);
      if globalResults.Failure? {
        return Failure(globalResults.error);
      }
      ghost var middle := notifier.events;
      var sectionResults;
      ghost var orders;
      sectionResults, orders := ScoreBySection(modelFile, aggregatedGtDf, aggregatedPredDf);
      NotifyMany(old(notifier.events), middle, notifier.events, notifier.observers,
                 GlobalNotes(globalResults.value), SectionNotes(sectionResults.value));
      ScoredResult(modelFile, content, gtMap, evaluators, aggregatedGtDf, aggregatedPredDf,
                   globalResults.value, sectionResults.value, orders);
      r := Success(Some(FileResults(globalResults.value, sectionResults.value)));
    }

    /** The file loop of `run`: every listed model file in order, keeping the rows
        of the scored ones, until a file aborts; that `KeyError` ends the loop and
        `perFile` holds the results of the files before it. */
    method ProcessAll(listing: seq<DirEntry>)
      returns (status: Result<(), string>, allGlobal: seq<GlobalRow>, allSection: seq<SectionRow>,
               ghost perFile: seq<Option<FileResults>>)
      modifies notifier
      ensures |perFile| <= |listing|
      ensures forall i :: 0 <= i < |perFile| ==> !Aborts(listing[i].content, gtMap, evaluators)
      ensures forall i :: 0 <= i < |perFile| ==>
        FileResultFor(listing[i].fileName, listing[i].content, perFile[i], gtMap, evaluators)
      ensures status.Failure? <==> |perFile| < |listing|
      ensures status.Failure? ==> Aborts(listing[|perFile|].content, gtMap, evaluators) && status.error == MissingSectionColumn
      ensures status.Failure? <==> exists i :: 0 <= i < |listing| && Aborts(listing[i].content, gtMap, evaluators)
      ensures allGlobal == AllGlobalRows(perFile) && allSection == AllSectionRows(perFile)
      ensures notifier.observers == old(notifier.observers)
      ensures notifier.events == old(notifier.events) + Broadcast(notifier.observers, RunNotes(perFile))
    {
      allGlobal := [];
      allSection := [];
      perFile := [];
      var i := 0;
      while i < |listing|
        invariant 0 <= i <= |listing|
        invariant |perFile| == i
        invariant forall k :: 0 <= k < i ==> !Aborts(listing[k].content, gtMap, evaluators)
        invariant forall k :: 0 <= k < i ==>
          FileResultFor(listing[k].fileName, listing[k].content, perFile[k], gtMap, evaluators)
        invariant allGlobal == AllGlobalRows(perFile) && allSection == AllSectionRows(perFile)
        invariant notifier.observers == old(notifier.observers)
        invariant notifier.events == old(notifier.events) + Broadcast(notifier.observers, RunNotes(perFile))
      {
        var modelFile := listing[i].fileName;
        ghost var before := notifier.events;
        var checked := ProcessModelFile(modelFile, listing[i].content);
        if checked.Failure? {
          assert notifier.events == before;
          return Failure(checked.error), allGlobal, allSection, perFile;
        }
        var results := checked.value;
        FileResultsSnoc(listing, perFile, results, gtMap, evaluators);
        NotifyMany(old(notifier.events), before, notifier.events, notifier.observers, RunNotes(perFile), FileNotes(results));
        RunSnoc(perFile, results);
        perFile := perFile + [results];
        i := i + 1;
        if results.None? {
          continue;
        }
        allGlobal := allGlobal + results.value.globalRows;
        allSection := allSection + results.value.sectionRows;
      }
      status := Success(());
    }

    /** `run`: processes every listed model file in order, keeps the results of the
        scored ones, then selects the report (failing here on an unsupported
        format, after all notifications) and writes the global and per-section
        tables under the derived names. A file that aborts ends the run with its
        `KeyError`: no later file is processed and no report is written. */
    method Run(listing: seq<DirEntry>)
      returns (r: Result<ReportGenerator, string>, allGlobal: seq<GlobalRow>, allSection: seq<SectionRow>,
               ghost perFile: seq<Option<FileResults>>)
      modifies notifier
      ensures |perFile| <= |listing|
      ensures forall i :: 0 <= i < |perFile| ==> !Aborts(listing[i].content, gtMap, evaluators)
      ensures forall i :: 0 <= i < |perFile| ==>
        FileResultFor(listing[i].fileName, listing[i].content, perFile[i], gtMap, evaluators)
      ensures |perFile| < |listing| ==> Aborts(listing[|perFile|].content, gtMap, evaluators)
      ensures allGlobal == AllGlobalRows(perFile) && allSection == AllSectionRows(perFile)
      ensures notifier.observers == old(notifier.observers)
      ensures notifier.events == old(notifier.events) + Broadcast(notifier.observers, RunNotes(perFile))
      ensures r.Failure? <==> |perFile| < |listing| || GetReportInstance(Lower(reportFormat)).Failure?
      ensures |perFile| < |listing| ==> r.Failure? && r.error == MissingSectionColumn
      ensures |perFile| == |listing| && r.Failure? ==> r.error == "Unsupported report format: " + Lower(reportFormat)
      ensures r.Success? ==> fresh(r.value) && r.value.written == [
        Written(r.value.report, Globals(allGlobal), GlobalOutput(config, reportFormat)),
        Written(r.value.report, Sections(allSection), SectionOutput(config, reportFormat))]
    {
      var status;
      status, allGlobal, allSection, perFile := ProcessAll(listing);
      if status.Failure? {
        return Failure(status.error), allGlobal, allSection, perFile;
      }
      var outputPath := OutputPath(config);
      var baseOutput := SplitExt(outputPath).0;
      var globalOutput := baseOutput + "_global." + reportFormat;
      var sectionOutput := baseOutput + "_by_section." + reportFormat;
      r := NewReportGenerator(reportFormat);
      if r.Failure? {
        return;
      }
      r.value.Generate(Globals(allGlobal), globalOutput);
      r.value.Generate(Sections(allSection), sectionOutput);
    }
  }

  /** `EvaluationPipeline(...)`: loads the ground truths and fails when none loaded;
      otherwise uses the given notifier and the resolved report format. */
  method NewEvaluationPipeline(config: Config, evaluators: Evaluators, gtListing: seq<DirEntry>,
                               reportFormat: Option<string>, notifier: EvaluationNotifier)
    returns (r: Result<EvaluationPipeline, string>)
    ensures r.Failure? <==> GtMap(gtListing) == map[]
    ensures r.Failure? ==> r.error == "Ground truths not found."
    ensures r.Success? ==> fresh(r.value) && r.value.gtMap == GtMap(gtListing) && r.value.notifier == notifier
    ensures r.Success? ==> r.value.evaluators == evaluators && r.value.config == config
    ensures r.Success? ==> r.value.reportFormat == ReportFormat(reportFormat, config)
  {
    var gtMap := LoadAllGroundTruths(GroundTruthDir(config), gtListing);
    if gtMap == map[] {
      return Failure("Ground truths not found.");
    }
    var format := Lower(if reportFormat.Some? && reportFormat.value != [] then reportFormat.value else ConfigFormat(config));
    var pipeline := new EvaluationPipeline(config, evaluators, gtMap, format, notifier);
    return Success(pipeline);
  }

  /** A non-empty explicit format wins over the configuration. */
  lemma ExplicitFormatWins(f: string, config: Config)
    requires f != []
    ensures ReportFormat(Some(f), config) == Lower(f)
  {
  }

  /** An empty explicit format counts as absent, so the configured one is used. */
  lemma EmptyExplicitFormatFallsBack(config: Config)
    ensures ReportFormat(Some(""), config) == ReportFormat(None, config) == Lower(ConfigFormat(config))
  {
  }

  /** Without any format setting the reports are CSV. */
  lemma DefaultFormatIsCsv(config: Config)
    requires config.evaluation.None?
    ensures ReportFormat(None, config) == "csv"
  {
    assert Lower("csv") == "csv";
  }

  /** Without an output path the reports go to `reports/evaluation_report_global.csv`
      and `reports/evaluation_report_by_section.csv`. */
  lemma DefaultOutputNames(config: Config)
    requires config.evaluation.None?
    ensures GlobalOutput(config, "csv") == "reports/evaluation_report_global.csv"
    ensures SectionOutput(config, "csv") == "reports/evaluation_report_by_section.csv"
  {
    var p := "reports/evaluation_report";
    assert forall i :: 0 <= i < |p| ==> p[i] != '.';
    NoDotNoExtension(p);
  }

  /** The extension of the configured path is replaced, not kept. */
  lemma OutputNamesDropExtension(config: Config, base: string, ext: string)
    requires SplitExt(OutputPath(config)) == (base, ext)
    ensures GlobalOutput(config, "json") == base + "_global.json"
    ensures SectionOutput(config, "json") == base + "_by_section.json"
  {
  }

  lemma {:induction false} ResolveConcat(a: seq<ModelOutput>, b: seq<ModelOutput>, gtMap: map<string, GroundTruth>)
    ensures Resolve(a + b, gtMap) == Resolve(a, gtMap) + Resolve(b, gtMap)
    decreases |b|
  {
    if b == [] {
      assert a + b == a;
    } else {
      var init := b[..|b| - 1];
      assert (a + b)[..|a + b| - 1] == a + init;
      assert (a + b)[|a + b| - 1] == b[|b| - 1];
      ResolveConcat(a, init, gtMap);
    }
  }

  /** A prediction referencing an unknown ground truth is dropped; the others resolve as before. */
  lemma UnknownReferenceDropped(a: seq<ModelOutput>, p: ModelOutput, b: seq<ModelOutput>, gtMap: map<string, GroundTruth>)
    requires p.validFileName !in gtMap
    ensures Resolve(a + [p] + b, gtMap) == Resolve(a + b, gtMap)
  {
    ResolveConcat(a + [p], b, gtMap);
    ResolveConcat(a, [p], gtMap);
    ResolveConcat(a, b, gtMap);
    assert [p][..0] == [];
  }

  /** At most one pair per prediction. */
  lemma {:induction false} ResolveLength(preds: seq<ModelOutput>, gtMap: map<string, GroundTruth>)
    ensures |Resolve(preds, gtMap)| <= |preds|
  {
    if preds != [] {
      ResolveLength(preds[..|preds| - 1], gtMap);
    }
  }

  lemma {:induction false} FlattenConcat(a: seq<Table>, b: seq<Table>)
    ensures Flatten(a + b) == Flatten(a) + Flatten(b)
    decreases |b|
  {
    if b == [] {
      assert a + b == a;
    } else {
      var init := b[..|b| - 1];
      assert (a + b)[..|a + b| - 1] == a + init;
      assert (a + b)[|a + b| - 1] == b[|b| - 1];
      FlattenConcat(a, init);
    }
  }

  /** Two predictions naming the same ground truth pool that ground truth twice, so
      each of its section totals is counted twice against the two predictions. */
  lemma DuplicateReferencePooledTwice(p1: ModelOutput, p2: ModelOutput, gtMap: map<string, GroundTruth>, s: string)
    requires p1.validFileName == p2.validFileName && p1.validFileName in gtMap
    ensures Flatten(Firsts(Resolve([p1, p2], gtMap))) == gtMap[p1.validFileName].df + gtMap[p1.validFileName].df
    ensures SectionTotal(Flatten(Firsts(Resolve([p1, p2], gtMap))), s) == 2.0 * SectionTotal(gtMap[p1.validFileName].df, s)
    ensures Flatten(Seconds(Resolve([p1, p2], gtMap))) == p1.df + p2.df
  {
    var df := gtMap[p1.validFileName].df;
    assert [p1, p2][..1] == [p1];
    assert [p1][..0] == [];
    assert Resolve([p1], gtMap) == [(df, p1.df)];
    assert Resolve([p1, p2], gtMap) == [(df, p1.df), (df, p2.df)];
    assert Firsts([(df, p1.df), (df, p2.df)]) == [df, df];
    assert Seconds([(df, p1.df), (df, p2.df)]) == [p1.df, p2.df];
    assert [df, df][..1] == [df] && [df][..0] == [];
    assert Flatten([df]) == df;
    assert [p1.df, p2.df][..1] == [p1.df] && [p1.df][..0] == [];
    assert Flatten([p1.df]) == p1.df;
    DuplicateRowsInflateTotals(df, s);
  }

  /** The pooled ground truth's section total is the sum over the resolved files. */
  lemma PooledSectionTotal(ts: seq<Table>, t: Table, s: string)
    ensures SectionTotal(Flatten(ts + [t]), s) == SectionTotal(Flatten(ts), s) + SectionTotal(t, s)
  {
    assert (ts + [t])[..|ts|] == ts;
    SectionTotalConcat(Flatten(ts), t, s);
  }

  /** Per-section rows: one block of `|union|` rows per evaluator. */
  lemma {:induction false} SectionRowsLength(modelFile: string, evaluators: Evaluators, orders: seq<seq<string>>, gt: Table, pred: Table)
    requires |orders| == |evaluators|
    requires forall i :: 0 <= i < |orders| ==> IsEnumeration(orders[i], AllSections(gt, pred))
    ensures |SectionRows(modelFile, evaluators, orders, gt, pred)| == |evaluators| * |AllSections(gt, pred)|
  {
    if evaluators != [] {
      var n := |evaluators| - 1;
      SectionRowsLength(modelFile, evaluators[..n], orders[..n], gt, pred);
      EnumerationSize(orders[n], AllSections(gt, pred));
      MulSucc(n, |AllSections(gt, pred)|);
    }
  }

  /** Every (evaluator, section of the union) pair has its row, holding that
      section's per-section score under that evaluator. */
  lemma SectionRowsCover(modelFile: string, evaluators: Evaluators, orders: seq<seq<string>>,
                         gt: Table, pred: Table, i: nat, s: string)
    requires |orders| == |evaluators|
    requires forall k :: 0 <= k < |orders| ==> IsEnumeration(orders[k], AllSections(gt, pred))
    requires i < |evaluators| && s in AllSections(gt, pred)
    ensures SectionRow(modelFile, s, evaluators[i].0, SectionScore(evaluators[i].1, gt, pred, s))
      in SectionRows(modelFile, evaluators, orders, gt, pred)
  {
    assert IsEnumeration(orders[i], AllSections(gt, pred));
    BlockCovers(modelFile, evaluators[i].0, evaluators[i].1, orders[i], gt, pred, s);
    BlockInRows(modelFile, evaluators, orders, gt, pred, i,
                SectionRow(modelFile, s, evaluators[i].0, SectionScore(evaluators[i].1, gt, pred, s)));
  }

  /** Every row of the `i`-th evaluator's block is among the rows. */
  lemma {:induction false} BlockInRows(modelFile: string, evaluators: Evaluators, orders: seq<seq<string>>,
                                       gt: Table, pred: Table, i: nat, row: SectionRow)
    requires |orders| == |evaluators| && i < |evaluators|
    requires row in SectionBlock(modelFile, evaluators[i].0, evaluators[i].1, orders[i], gt, pred)
    ensures row in SectionRows(modelFile, evaluators, orders, gt, pred)
  {
    var n := |evaluators| - 1;
    var front := SectionRows(modelFile, evaluators[..n], orders[..n], gt, pred);
    var block := SectionBlock(modelFile, evaluators[n].0, evaluators[n].1, orders[n], gt, pred);
    assert SectionRows(modelFile, evaluators, orders, gt, pred) == front + block;
    if i < n {
      assert evaluators[..n][i] == evaluators[i] && orders[..n][i] == orders[i];
      BlockInRows(modelFile, evaluators[..n], orders[..n], gt, pred, i, row);
    }
    InConcat(row, front, block);
  }

  lemma InConcat<T>(x: T, a: seq<T>, b: seq<T>)
    ensures x in a + b <==> x in a || x in b
  {
  }

  lemma PrefixEnumerations(orders: seq<seq<string>>, n: nat, u: set<string>)
    requires n <= |orders|
    requires forall k :: 0 <= k < |orders| ==> IsEnumeration(orders[k], u)
    ensures forall k :: 0 <= k < n ==> IsEnumeration(orders[..n][k], u)
  {
  }

  lemma BlockCovers(modelFile: string, metricName: string, m: Metric, order: seq<string>, gt: Table, pred: Table, s: string)
    requires s in order
    ensures SectionRow(modelFile, s, metricName, SectionScore(m, gt, pred, s)) in SectionBlock(modelFile, metricName, m, order, gt, pred)
  {
    var j :| 0 <= j < |order| && order[j] == s;
    assert SectionBlock(modelFile, metricName, m, order, gt, pred)[j] == SectionRow(modelFile, s, metricName, SectionScore(m, gt, pred, s));
  }

  /** Every per-section row belongs to a configured evaluator and a section of the union. */
  lemma {:induction false} SectionRowsSound(modelFile: string, evaluators: Evaluators, orders: seq<seq<string>>,
                                            gt: Table, pred: Table, row: SectionRow)
    requires |orders| == |evaluators|
    requires forall k :: 0 <= k < |orders| ==> IsEnumeration(orders[k], AllSections(gt, pred))
    requires row in SectionRows(modelFile, evaluators, orders, gt, pred)
    ensures row.modelFile == modelFile && row.sectionName in AllSections(gt, pred)
    ensures exists i :: (0 <= i < |evaluators| && row.metric == evaluators[i].0 &&
      row.score == SectionScore(evaluators[i].1, gt, pred, row.sectionName))
  {
    var n := |evaluators| - 1;
    var front := SectionRows(modelFile, evaluators[..n], orders[..n], gt, pred);
    var block := SectionBlock(modelFile, evaluators[n].0, evaluators[n].1, orders[n], gt, pred);
    assert SectionRows(modelFile, evaluators, orders, gt, pred) == front + block;
    if row in front {
      PrefixEnumerations(orders, n, AllSections(gt, pred));
      SectionRowsSound(modelFile, evaluators[..n], orders[..n], gt, pred, row);
      var i :| 0 <= i < n && row.metric == evaluators[..n][i].0 &&
        row.score == SectionScore(evaluators[..n][i].1, gt, pred, row.sectionName);
      assert evaluators[..n][i] == evaluators[i];
    } else {
      assert row in block;
      var j :| 0 <= j < |block| && block[j] == row;
      assert orders[n][j] in orders[n];
    }
  }

  /** All global notifications of a file come before any of its per-section ones. */
  lemma GlobalNotificationsFirst(obs: seq<Observer>, fr: FileResults)
    ensures Broadcast(obs, FileNotes(Some(fr)))
         == Broadcast(obs, GlobalNotes(fr.globalRows)) + Broadcast(obs, SectionNotes(fr.sectionRows))
  {
    BroadcastConcat(obs, GlobalNotes(fr.globalRows), SectionNotes(fr.sectionRows));
  }

  /** A per-section score is notified as `"{metric} [{section}]"`. */
  lemma SectionTagExample()
    ensures SectionTag("MAE", "Plumbing") == "MAE [Plumbing]"
  {
  }

  /** A model file whose only prediction has `"rows": []` aborts as soon as an
      evaluator is configured, whatever the referenced ground truth holds. */
  lemma EmptyPredictionAbortsFile(content: Option<Document>, gtMap: map<string, GroundTruth>, evaluators: Evaluators)
    requires content == Some(Document(None, None, Some([PredEntry(Some("a.json"), Some([]), Some(1.0))])))
    requires "a.json" in gtMap
    ensures Aborts(content, gtMap, evaluators) <==> evaluators != []
  {
    var e := PredEntry(Some("a.json"), Some([]), Some(1.0));
    var o := ModelOutput("a.json", [], 1.0);
    assert [e][..0] == [];
    assert CompleteEntries([e]) == [o];
    assert [o][..0] == [];
    var pairs := Resolve([o], gtMap);
    assert pairs == Resolve([], gtMap) + [(gtMap[o.validFileName].df, o.df)];
    assert pairs == [(gtMap["a.json"].df, [])];
    var empty: seq<Table> := [[]];
    assert Seconds(pairs) == empty;
    assert empty[..0] == [];
    assert Flatten(empty) == [];
    assert PooledInputs(content, gtMap) == Some((Flatten(Firsts(pairs)), []));
  }
}
