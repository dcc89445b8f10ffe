# Cost-estimate evaluation engine, in Dafny

This project models the core of a Python tool that scores the cost estimates of
language models against ground-truth estimates.

A ground truth and a prediction are both tables of line items. Each item has a
`sectionName` and a `rowTotalCostUsd`. The engine works in these steps:

- It loads the ground truths of a directory into a map keyed by file name without
  extension (`load_all_ground_truths`).
- For every model-output file, it resolves each prediction (`estimate_preds`) to the
  ground truth it names (`valid_file_name`).
- It pools the resolved (ground truth, prediction) table pairs.
- It sums the costs per section on both sides, over the union of sections. A section
  missing on one side counts 0 there.
- It scores with each configured metric (MAE, MRE, MAPE; the asymmetric loss is also
  modelled):
  - globally, on the two aligned columns of section totals;
  - per section, on one-element columns.
- It notifies every observer of every score, and then hands the two result tables
  to a CSV or JSON report.
- A dashboard picks the best model of each section and orders the section columns
  by mean score.

Modelling choices:

- Floating point is exact `real`.
- NaN is `None` of an `Option`.
- File contents arrive already parsed: a directory is a sequence of (name, parsed
  content or `None`) entries.
- Python's unordered iteration over the section set is a nondeterministic choice
  (`:|`) in the methods. That order is returned as a ghost value, and a lemma shows
  every score is independent of it (`SectionEval.ScoreOrderIndependent`).
- Observers are recipients in a ghost event log of the notifier.
- Reports are recipients in a ghost log of the report generator.

Modules:

| module | file | about |
|---|---|---|
| `Wrappers` | wrappers.dfy | `Option`, `Result` |
| `Strings` | strings.dfy | case mapping, `endswith`, `os.path.splitext` |
| `Numeric` | numeric.dfy | `np.mean`, `np.nanmean`, sums, permutation invariance |
| `MaeEvaluator`, `MreEvaluator`, `AsymmetricEvaluator` | mae/mre/asymmetric_evaluator.dfy | the evaluators |
| `Metrics` | metrics.dfy | the closed set of evaluators, MAPE as its tests state it |
| `SectionEval` | section_eval.dfy | `evaluate_by_section`, `evaluate_by_section_per_section` |
| `Notifier` | notifier.dfy | `EvaluationNotifier` |
| `Adapters` | json_adapter.dfy | `JSONAdapter.to_dataframe`, `to_model_outputs` |
| `GroundTruthLoader` | ground_truth_loader.dfy | `load_all_ground_truths` |
| `Reports` | report_generator.dfy | `ReportGenerator` |
| `Settings` | config.dfy | the configuration dictionary and its defaults |
| `MetricSelection` | metric_selection.dfy | the evaluator selection of `main.py` |
| `Pipeline` | pipeline.dfy | `EvaluationPipeline` |
| `ResultTables` | result_tables.dfy | `get_best_model_by_section`, `reorder_columns_by_mean_desc` |

### Where the code and its description differ (the model follows the code)

- **Notification tag.** Per-section scores are notified under `"{metric} [{section}]"`,
  with a space before the bracket (evaluators/evaluator_pipeline.py:133).
- **Late format check.** An unsupported report format is detected only when `run`
  builds the `ReportGenerator`, after every file has been processed and notified
  (evaluators/evaluator_pipeline.py:164). It is not detected at construction.
  - `Pipeline.EvaluationPipeline.Run` states both the failure condition and the
    notifications that happen before it.
- **Empty explicit format.** An explicit empty `report_format` falls back to the
  configured format, because Python's `or` treats `""` as false
  (evaluators/evaluator_pipeline.py:44-45).
- **No `.json` filter in `run`.** Only ground-truth loading filters on the `.json`
  suffix. `run` tries every listed model-output file.
- **Empty pooled tables abort the run.** The union rule counts a missing section
  as 0, but a table built from `"rows": []` has no columns at all. Grouping it by
  `sectionName` raises `KeyError` (utils/eval.py:11-12), and nothing catches it.
  - The pipeline follows the code as written. A file whose pooled ground truth or
    pooled prediction has no rows aborts `process_model_file` before any
    notification, once an evaluator is configured.
  - `run` then stops: no later file is processed and no report is written
    (`Pipeline.EvaluationPipeline.Run`).
  - The union-rule score itself (`SectionEval.EvaluateBySection`, `GlobalScore`) is
    kept as the evidently intended behaviour; "## Findings" records the
    discrepancy.

## Model

| member | source | states |
|---|---|---|
| MaeEvaluator.Evaluate | evaluators/mae_evaluator.py:18-20 | MAE is NaN exactly on empty input, otherwise non-negative |
| MaeEvaluator.ZeroOnlyWhenExact | evaluators/mae_evaluator.py:20 | MAE is 0 iff the input is non-empty and the predictions equal the truth |
| MaeEvaluator.IdenticalScoresZero | app/tests/test_mae_evaluator.py:9-13 | a perfect match scores 0 |
| MaeEvaluator.Symmetric | evaluators/mae_evaluator.py:20 | swapping truth and prediction leaves MAE unchanged |
| MaeEvaluator.PairPermutation | evaluators/mae_evaluator.py:20 | MAE depends only on the multiset of (truth, prediction) pairs |
| MaeEvaluator.ExampleWithDifferences | app/tests/test_mae_evaluator.py:15-19 | [100,200,300] vs [110,190,290] gives 10 |
| MaeEvaluator.ExampleWithLargeErrors | app/tests/test_mae_evaluator.py:21-25 | [100,200,300] vs [50,400,100] gives 150 |
| MreEvaluator.Evaluate | evaluators/mre_evaluator.py:18-23 | MRE is NaN iff every truth is 0, otherwise non-negative |
| MreEvaluator.ZeroTruthExcluded | evaluators/mre_evaluator.py:21-23 | a position whose truth is 0 does not affect the score, whatever its prediction |
| MreEvaluator.RelErrorsConcat | evaluators/mre_evaluator.py:21-23 | relative errors are computed position by position |
| MreEvaluator.IdenticalScoresZero | app/tests/test_mre_evaluator.py:9-13 | a perfect match with some non-zero truth scores 0 |
| MreEvaluator.PairPermutation | evaluators/mre_evaluator.py:23 | MRE depends only on the multiset of pairs |
| MreEvaluator.ExampleWithDifferences | app/tests/test_mre_evaluator.py:15-20 | the mean of the three 10 % errors |
| MreEvaluator.ExampleWithLargeErrors | app/tests/test_mre_evaluator.py:22-27 | (50/100 + 200/200 + 200/300) / 3 |
| MreEvaluator.ExampleWithZeroTruth | app/tests/test_mre_evaluator.py:29-34 | the zero truth is skipped: (10/200 + 10/300) / 2 |
| AsymmetricEvaluator.Evaluate | app/evaluators/asymmetric_evaluator.py:28-34 | NaN exactly on empty input, non-negative for alpha >= 0 |
| AsymmetricEvaluator.UnderAndOverCost | app/evaluators/asymmetric_evaluator.py:31-32 | an underestimate by d costs alpha·d, an overestimate by d costs d |
| AsymmetricEvaluator.ExactMatchCostsNothing | app/evaluators/asymmetric_evaluator.py:31-32 | an exact prediction costs 0 |
| AsymmetricEvaluator.UnderestimateCostsMore | app/evaluators/asymmetric_evaluator.py:5-15 | for alpha > 1, undershooting every item by d scores higher than overshooting by d |
| AsymmetricEvaluator.AlphaOneIsMae | app/evaluators/asymmetric_evaluator.py:31-34 | with alpha = 1 the loss is MAE |
| AsymmetricEvaluator.IdenticalScoresZero | app/evaluators/asymmetric_evaluator.py:31-34 | a perfect match scores 0 |
| AsymmetricEvaluator.PairPermutation | app/evaluators/asymmetric_evaluator.py:34 | the loss depends only on the multiset of pairs |
| Metrics.DefaultAlphaIsTwo | app/evaluators/asymmetric_evaluator.py:7 | `AsymmetricLoss()` has alpha 2 |
| Metrics.MapeEvaluate | app/tests/test_mape_evaluator.py:29-34 | MAPE is NaN iff every truth is 0, and otherwise is 100 times MRE |
| Metrics.MapeExampleWithDifferences | app/tests/test_mape_evaluator.py:15-20 | the MAPE of the three 10 % errors |
| Metrics.MapeExampleWithZeroTruth | app/tests/test_mape_evaluator.py:29-34 | the zero truth is skipped |
| Metrics.EmptyInputIsNaN | app/tests/test_mape_evaluator.py:36-40 | every metric is NaN on empty lists |
| Metrics.NonNegative | evaluators/mre_evaluator.py:23 | no metric gives a negative score |
| Metrics.PairPermutation | utils/eval.py:16-23 | every metric is invariant under reordering the pairs together |
| Metrics.SingletonScore | utils/eval.py:40 | each metric on a one-element column, written out |
| Numeric.NanMean | evaluators/mre_evaluator.py:23 | `nanmean` is NaN iff no entry is defined |
| Numeric.NanMeanPermutation | evaluators/mre_evaluator.py:23 | `nanmean` does not depend on order |
| Numeric.MeanPermutation | evaluators/mae_evaluator.py:20 | `np.mean` does not depend on order |
| SectionEval.GroupSum | utils/eval.py:11-12 | the group-by sum has one key per section present, mapped to that section's total |
| SectionEval.GetGroupSum | utils/eval.py:17-18 | `.get(section, 0)` is the section total, 0 for an absent section |
| SectionEval.EvaluateBySection | utils/eval.py:4-23 | visits every section of the union once; the score is the metric on the two aligned columns; it equals `GlobalScore` whatever the order |
| SectionEval.ScoreOrderIndependent | utils/eval.py:13-16 | any two enumerations of the union give the same score |
| SectionEval.AlignedOverUnion | utils/eval.py:13-20 | both columns have one entry per section of the union, at the same position |
| SectionEval.EvaluateBySectionPerSection | utils/eval.py:25-42 | the result has exactly the union's sections as keys, each scored on its own pair of totals |
| SectionEval.ScoreEachSection | utils/eval.py:34-41 | the loop gives one entry per section of the union of the two group-by results, holding the evaluator on that section's pair of totals, 0 for a missing side |
| SectionEval.MreSectionNaNOnZeroTruth | utils/eval.py:37-40 | a section's MRE is NaN iff its ground-truth total is 0 |
| SectionEval.SectionScoreIsLocal | utils/eval.py:36-41 | a section's score depends only on that section's totals |
| SectionEval.SectionTotalConcat | evaluators/evaluator_pipeline.py:109-110 | section totals add over concatenated tables |
| SectionEval.ScoresIgnoreRowOrder | utils/eval.py:11-12 | reordering the rows of either table changes no score |
| SectionEval.GroupSumPermutation | utils/eval.py:11-12 | the group-by sum is invariant under row reordering |
| SectionEval.DuplicateRowsInflateTotals | evaluators/evaluator_pipeline.py:109 | a table concatenated with itself doubles every total |
| SectionEval.UnionExample | utils/eval.py:13-20 | sections {A,B} vs {B,C} are scored over [A,B,C] with zeros filled in: MAE 20/3 |
| SectionEval.EndToEndExample | app/tests/test_json_adapter.py:12-17 | Plumbing/Electrical 500/500 vs 500/400 gives MAE 50 |
| SectionEval.GroupSumAsWritten | utils/eval.py:11-12 | as written, a zero-row table has no `sectionName` column and the group-by fails |
| SectionEval.GlobalScoreAsWritten | utils/eval.py:11-23 | as written, scoring fails iff either table has no rows, and agrees with `GlobalScore` otherwise |
| SectionEval.EmptyPredictionAsWritten | utils/eval.py:12 | an empty prediction aborts the as-written code, while the union rule gives MAE 500 |
| SectionEval.EmptyPredictionIsCompleteMiss | utils/eval.py:13-20 | under the union rule an empty prediction has MRE 1 |
| SectionEval.EvaluateBySectionAsWritten | utils/eval.py:4-23 | `evaluate_by_section` as the pipeline runs it: fails with `KeyError: 'sectionName'` iff either table has no rows, otherwise the union-rule score |
| SectionEval.EvaluateBySectionPerSectionAsWritten | utils/eval.py:25-42 | `evaluate_by_section_per_section` as run: the same failure, otherwise exactly the union's sections, each with its per-section score |
| Notifier.FanoutShape | observers/evaluation_notifier.py:28-29 | one notification reaches every observer once, in registration order |
| Notifier.EachObserverOnce | tests/test_evaluation_notifier.py:44-59 | with two observers, each gets exactly one delivery |
| Notifier.BroadcastConcat | observers/evaluation_notifier.py:28-29 | the deliveries of successive notifications concatenate |
| Notifier.BroadcastLength | observers/evaluation_notifier.py:28-29 | n notifications to m observers give n·m deliveries |
| Notifier.BroadcastAt | observers/evaluation_notifier.py:28-29 | the delivery at position k·m + i is notification k to observer i |
| Notifier.EvaluationNotifier.constructor | observers/evaluation_notifier.py:6-8 | no observers, nothing delivered |
| Notifier.EvaluationNotifier.AddObserver | observers/evaluation_notifier.py:10-17 | appends the observer, delivers nothing |
| Notifier.EvaluationNotifier.Notify | observers/evaluation_notifier.py:19-29 | delivers the notification to every observer in order; the observer list is unchanged |
| Adapters.MissingKeys | app/adapters/json_adapter.py:82-83 | the missing keys are exactly the required keys absent from the entry; none iff complete |
| Adapters.JsonAdapter.constructor | app/adapters/json_adapter.py:12-20 | stores the path and data |
| Adapters.JsonAdapter.ToDataFrame | app/adapters/json_adapter.py:35-52 | fails iff `rows` is missing, with the source's message; otherwise the rows |
| Adapters.JsonAdapter.ToModelOutputs | app/adapters/json_adapter.py:54-93 | fails iff `estimate_preds` is missing; otherwise the complete entries in order, one warning per skipped entry |
| Adapters.CompleteEntriesIndices | app/adapters/json_adapter.py:80-92 | the outputs correspond, in ascending order, to exactly the complete entries |
| Adapters.DuplicatesKept | app/adapters/json_adapter.py:65 | predictions with the same `valid_file_name` are all kept |
| Adapters.EveryEntryAccounted | app/adapters/json_adapter.py:80-86 | every entry yields either an output or a skip warning with a non-empty key list |
| Adapters.CompleteEntriesConcat | app/adapters/json_adapter.py:80-92 | entries are converted independently of each other |
| GroundTruthLoader.JoinPath | app/utils/load.py:18 | the joined path ends with the file name |
| GroundTruthLoader.LoadAllGroundTruths | app/utils/load.py:5-31 | the loop builds `GtMap(listing)` |
| GroundTruthLoader.GtMapDomain | app/utils/load.py:16-30 | a key is present iff some `.json` entry that parses and has `rows` has that base name |
| GroundTruthLoader.SkippedEntryIgnored | app/utils/load.py:17-24 | a non-`.json`, unreadable or row-less entry does not change the map |
| GroundTruthLoader.InsertLastWins | app/utils/load.py:29-30 | for a repeated base name, the last accepted entry wins |
| GroundTruthLoader.InsertUntouched | app/utils/load.py:30 | keys no later entry maps to keep their value |
| GroundTruthLoader.InsertConcat | app/utils/load.py:16-30 | loading is a left fold over the listing |
| GroundTruthLoader.TotalFallback | app/utils/load.py:25-28 | without `totalCostUsd` the total is the row sum, or none for a table without rows |
| GroundTruthLoader.ListingExample | app/utils/load.py:16-30 | of a good `.json`, an unreadable `.json` and a `.txt`, only the first is loaded, under its base name |
| Strings.SplitExt | evaluators/evaluator_pipeline.py:159 | root plus extension is the path; the extension is empty or a dot and non-dot, non-slash characters |
| Strings.SplitExtOfJsonName | app/utils/load.py:29 | `x.json` splits into `x` and `.json` |
| Strings.DotJsonHasNoExtension | app/utils/load.py:29 | the leading dot of `.json` is not an extension |
| Strings.NoDotNoExtension | evaluators/evaluator_pipeline.py:159 | a path without dots has no extension |
| Strings.LowerIdempotent | app/reports/report_generator.py:15 | lowering twice is lowering once |
| Strings.UpperIdempotent | main.py:35 | upper-casing twice is upper-casing once |
| Reports.GetReportInstance | app/reports/report_generator.py:18-25 | CSV for "csv", JSON for "json", otherwise the unsupported-format error |
| Reports.NewReportGenerator | app/reports/report_generator.py:8-16 | lower-cases the format; fails iff it is neither csv nor json |
| Reports.ReportGenerator.constructor | app/reports/report_generator.py:8-16 | stores the format and its report; nothing written |
| Reports.ReportGenerator.Generate | app/reports/report_generator.py:27-35 | delegates exactly once to the selected report with the same results and path |
| Reports.FormatCaseInsensitive | app/reports/report_generator.py:15 | "CSV" and "Json" are accepted |
| Reports.XmlRejected | tests/test_report_generator.py:30-33 | "xml" fails with "Unsupported report format: xml" |
| Reports.SelectionStableUnderLowering | app/reports/report_generator.py:15 | lowering an already lowered format changes nothing |
| MetricSelection.SelectEvaluators | main.py:31-39 | the loop builds `Selected` of the configured names, with `Warnings` as its warnings |
| MetricSelection.SelectedKeys | main.py:33-37 | the keys are distinct and are exactly the upper-cased recognised names, each mapped to its metric |
| MetricSelection.SelectedKeepsFirstPositions | main.py:37 | more names never remove or reorder earlier keys |
| MetricSelection.UpsertKeys | main.py:37 | assigning an existing key keeps its position; a new key goes last |
| MetricSelection.UpsertValues | main.py:37 | the assigned key maps to the new value, the others are unchanged |
| MetricSelection.UpsertDistinct | main.py:37 | assignment keeps keys distinct |
| MetricSelection.SelectionExample | main.py:34-39 | ["mae","MAE","rmse"] selects MAE once and warns about "rmse" |
| MetricSelection.MissingMetricsGiveNoEvaluators | main.py:31 | a missing `evaluation.metrics` gives no evaluators and no warnings |
| Pipeline.EvaluationPipeline.constructor | evaluators/evaluator_pipeline.py:34-38 | stores the config, evaluators, map and notifier; the directories default from the config |
| Pipeline.NewEvaluationPipeline | evaluators/evaluator_pipeline.py:22-57 | fails with "Ground truths not found." iff no ground truth loads; otherwise stores the map and the resolved report format |
| Pipeline.EvaluationPipeline.ResolvePredictions | evaluators/evaluator_pipeline.py:96-103 | the tables of the predictions whose reference is known, in order |
| Pipeline.EvaluationPipeline.ScoreGlobally | evaluators/evaluator_pipeline.py:115-122 | fails with the grouping `KeyError`, before any notification, iff an evaluator is configured and a pooled table has no rows; otherwise one global row per evaluator, each notified under its metric name |
| Pipeline.EvaluationPipeline.ScoreSectionsOf | evaluators/evaluator_pipeline.py:125-133 | fails without notifying iff a pooled table has no rows; otherwise one row per section of the union, each notified under the tagged name |
| Pipeline.EvaluationPipeline.NotifySections | evaluators/evaluator_pipeline.py:126-133 | one row per entry of the per-section scores, in some enumeration of its keys, each notified under its tag as it is appended |
| Pipeline.EvaluationPipeline.ScoreBySection | evaluators/evaluator_pipeline.py:124-133 | the same failure condition as the global loop; otherwise one block of section rows per evaluator, in evaluator order |
| Pipeline.EvaluationPipeline.ProcessModelFile | evaluators/evaluator_pipeline.py:65-135 | no result and no notification for an unreadable file, a file without `estimate_preds`, or one where nothing resolves; the `KeyError`, with no notification, iff the file aborts (an evaluator and an empty pooled table); otherwise the pooled global and per-section rows, global notifications first |
| Pipeline.EvaluationPipeline.ProcessAll | evaluators/evaluator_pipeline.py:145-152 | processes the files in listing order up to the first that aborts, and fails iff some file aborts; one result per processed file, each what `process_model_file` gives for it; the rows of the scored files accumulate in order, and the notifications are those of the processed files |
| Pipeline.EvaluationPipeline.Run | evaluators/evaluator_pipeline.py:137-166 | processes the listed files up to the first that aborts; fails with the `KeyError` and writes nothing if one aborts; otherwise fails iff the format is unsupported, with the "Unsupported report format" text, after all notifications; otherwise writes the global and the per-section table to their names |
| Pipeline.ExplicitFormatWins | evaluators/evaluator_pipeline.py:44-45 | a non-empty explicit format is used, lower-cased |
| Pipeline.EmptyExplicitFormatFallsBack | evaluators/evaluator_pipeline.py:44-45 | an empty explicit format counts as absent |
| Pipeline.DefaultFormatIsCsv | evaluators/evaluator_pipeline.py:45 | without any setting the format is "csv" |
| Pipeline.DefaultOutputNames | evaluators/evaluator_pipeline.py:157-162 | the default names are `reports/evaluation_report_global.csv` and `..._by_section.csv` |
| Pipeline.OutputNamesDropExtension | evaluators/evaluator_pipeline.py:159-162 | the configured path's extension is replaced |
| Pipeline.ResolveConcat | evaluators/evaluator_pipeline.py:97-103 | predictions resolve independently |
| Pipeline.UnknownReferenceDropped | evaluators/evaluator_pipeline.py:99-101 | a prediction with an unknown reference is skipped |
| Pipeline.ResolveLength | evaluators/evaluator_pipeline.py:97-103 | at most one pair per prediction |
| Pipeline.FlattenConcat | evaluators/evaluator_pipeline.py:109-110 | concatenation is associative over groups of tables |
| Pipeline.DuplicateReferencePooledTwice | evaluators/evaluator_pipeline.py:102-110 | two predictions for one ground truth pool it twice, doubling its section totals |
| Pipeline.PooledSectionTotal | evaluators/evaluator_pipeline.py:109 | the pooled total is the sum of the per-file totals |
| Pipeline.SectionRowsLength | evaluators/evaluator_pipeline.py:124-132 | there are (evaluators × union sections) per-section rows |
| Pipeline.SectionRowsCover | evaluators/evaluator_pipeline.py:124-132 | every (evaluator, section) pair has its row with its score |
| Pipeline.SectionRowsSound | evaluators/evaluator_pipeline.py:124-132 | every per-section row belongs to an evaluator and a section of the union |
| Pipeline.GlobalNotificationsFirst | evaluators/evaluator_pipeline.py:115-133 | all global notifications of a file precede its per-section ones |
| Pipeline.EmptyPredictionAbortsFile | evaluators/evaluator_pipeline.py:105-116 | a file whose only prediction has `"rows": []` passes the guard at :105 and aborts iff an evaluator is configured |
| Pipeline.SectionTagExample | evaluators/evaluator_pipeline.py:133 | the tag of Plumbing under MAE is "MAE [Plumbing]" |
| ResultTables.LexTransitive | ui/ui.py:26 | the section order is transitive |
| ResultTables.LexTotal | ui/ui.py:26 | any two distinct sections are ordered |
| ResultTables.SortedSections | ui/ui.py:26 | the groups are the distinct section names, strictly ascending |
| ResultTables.SortedDistinctUnique | ui/ui.py:26 | there is only one such order, so the row order does not affect the section order |
| ResultTables.IdxMin | ui/ui.py:26 | `idxmin` is undefined iff all of a section's scores are NaN; otherwise it is the first row with the section's least score |
| ResultTables.FirstMinUnique | ui/ui.py:26 | that row is unique |
| ResultTables.BestModelBySection | ui/ui.py:21-27 | fails iff some section has only NaN scores; otherwise one row per distinct section, ascending, each the section's first minimum |
| ResultTables.BestIsMinimum | ui/ui.py:26-27 | each best score is at most every score of its section, and the named model has a row with that score |
| ResultTables.TieGoesToFirstRow | ui/ui.py:26 | when two models tie, the earlier row wins |
| ResultTables.ReorderColumnsByMeanDesc | ui/ui.py:15-19 | the columns are a permutation of the input, by non-increasing mean, NaN means last |
| ResultTables.ReorderKeepsColumns | ui/ui.py:19 | every column, with its cells, is kept, and no other appears |
| ResultTables.ReorderSortedUnchanged | ui/ui.py:18 | already ordered columns are left in place |
| ResultTables.NaNColumnsLast | ui/ui.py:18 | an all-NaN column comes after every column with a mean |

## Left out

- File and process I/O is not modelled: JSON parsing and existence checks, `os.listdir`, the YAML configuration load, and logging setup. Listings and parsed contents are parameters; a file that cannot be read or parsed is `None`.
- Report serialisation is not modelled. `reports/csv_report.py` and `app/reports/json_report.py` are pandas writers; the report generator records what it hands to them.
- The logging sinks are not modelled: `ConsoleLogger` and `FileLogger` printing, file appending, `makedirs`, and the `{score:.4f}` formatting. Observers only receive deliveries.
- The Streamlit page (`main()` in ui/ui.py) and its pivot are not modelled: this is rendering. The column helper takes the pivot's columns as input.
- `reorder_columns_by_std_desc` (ui/ui.py:9-13) is not modelled: it needs a floating-point square root.
- Floating point: arithmetic is exact, NaN is `None`, and the `np.isclose` tolerances of the tests are not modelled.
- ResultTables.ReorderColumnsByMeanDesc: the order among columns with equal means is not claimed. pandas' default sort is not stable, while the model's insertion sort is.
- ResultTables.ReorderSortedUnchanged: describes the model's stable insertion sort. When two columns have equal means, pandas' default sort does not promise to keep them in place, so the lemma promises more than `sort_values` does in that case.
- ResultTables.AllNaNSection: the exact text of pandas' error for an all-NaN group is not reproduced; only the failure is.
- Case mapping is ASCII-only: Python's `lower`/`upper` on other characters is not modelled.
- `evaluators/mape_evaluator.py` is not part of this model. MAPE is specified only by its tests, as 100 × MRE.
- The default notifier (evaluators/evaluator_pipeline.py:48-55) is not modelled: the pipeline receives its notifier.
- `load.py` also stores each adapter object in the map; the model keeps only the table and the total.
- `_log_ground_truths` is not modelled: it is logging only.
- The abstract base classes (`BaseObserver`, `BaseEvaluator`, `BaseReport`, `BaseAdapter`) carry no behaviour. They are represented by the closed datatypes `Observer`, `Metric` and `Report`.
- `adapters/json_adapter.py` duplicates the `to_dataframe` check of app/adapters/json_adapter.py and is not modelled separately. `to_model_outputs` follows the app/ version.
- JSON values of the wrong type are not modelled, e.g. `rows` that is not a list, or a `null` `valid_file_name`: every present key has the expected type.
- Settings getters are not modelled for `config.get` on values of the wrong type: every configured value is a string or a list of strings.

## Findings

| source | as written | input that shows it | evidently intended | confidence | as-written member | corrected member |
|---|---|---|---|---|---|---|
| utils/eval.py:11-12 | `groupby("sectionName")` on a pooled table with no rows: a `DataFrame` built from `[]` has no `sectionName` column, so it raises `KeyError` and aborts the whole run; the pipeline models this abort (`Pipeline.EvaluationPipeline.Run`) | a model file whose resolved predictions all have `"rows": []`, against a ground truth with a Plumbing row of 500 | sections missing on one side count 0, as for any other missing section, so the empty prediction scores MAE 500 and MRE 1 | not executed; medium | SectionEval.EmptyPredictionAsWritten | SectionEval.EmptyPredictionIsCompleteMiss |
