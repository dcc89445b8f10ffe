/** The configuration keys the engine reads, each `None` when absent, and the
    defaults applied to them. Loading the YAML file is outside the model. */
module Settings {
  import opened Wrappers

  /** The `evaluation` section. */
  datatype EvaluationConfig = EvaluationConfig(
    metrics: Option<seq<string>>,
    format: Option<string>,
    outputPath: Option<string>)

  datatype Config = Config(
    groundTruthDir: Option<string>,
    modelOutputsDir: Option<string>,
    evaluation: Option<EvaluationConfig>,
    logFile: Option<string>)

  const NoEvaluation := EvaluationConfig(None, None, None)

  /** `config.get("evaluation", {})`. */
  function Evaluation(c: Config): EvaluationConfig {
    c.evaluation.GetOr(NoEvaluation)
  }

  function GroundTruthDir(c: Config): string {
    c.groundTruthDir.GetOr("data/ground_truth")
  }

  function ModelOutputsDir(c: Config): string {
    c.modelOutputsDir.GetOr("data/model_outputs")
  }

  /** `evaluation.metrics`, empty when absent. */
  function MetricNames(c: Config): seq<string> {
    Evaluation(c).metrics.GetOr([])
  }

  /** `evaluation.format`, `"csv"` when absent. */
  function ConfigFormat(c: Config): string {
    Evaluation(c).format.GetOr("csv")
  }

  /** `evaluation.output_path`, `reports/evaluation_report` when absent. */
  function OutputPath(c: Config): string {
    Evaluation(c).outputPath.GetOr("reports/evaluation_report")
  }
}
