/** Report selection and delegation (`ReportGenerator`). The result tables handed
    to a report are modelled as row sequences; writing CSV or JSON is outside the
    model, so each `generate` call is recorded in a ghost log instead. */
module Reports {
  import opened Wrappers
  import opened Strings

  /** One row of the global results: a model file, a metric and its score. */
  datatype GlobalRow = GlobalRow(modelFile: string, metric: string, score: Option<real>)

  /** One row of the per-section results. */
  datatype SectionRow = SectionRow(modelFile: string, sectionName: string, metric: string, score: Option<real>)

  datatype ResultTable = Globals(globalRows: seq<GlobalRow>) | Sections(sectionRows: seq<SectionRow>)

  /** The concrete report writers. */
  datatype Report = CsvReport | JsonReport

  /** One delegated `generate_report` call. */
  datatype Written = Written(report: Report, results: ResultTable, outputPath: string)

  /** `_get_report_instance` on an already lower-cased format. */
  function GetReportInstance(format: string): (r: Result<Report, string>)
    ensures r.Success? <==> format == "csv" || format == "json"
    ensures r.Success? ==> (r.value == CsvReport <==> format == "csv")
    ensures r.Failure? ==> r.error == "Unsupported report format: " + format
  {
    if format == "csv" then Success(CsvReport)
    else if format == "json" then Success(JsonReport)
    else Failure("Unsupported report format: " + format)
  }

  class ReportGenerator {
    const format: string
    const report: Report
    ghost var written: seq<Written>

    constructor(format: string, report: Report)
      requires GetReportInstance(format) == Success(report)
      ensures this.format == format && this.report == report && written == []
    {
      this.format := format;
      this.report := report;
      written := [];
    }

    /** `generate`: one call to the selected report with the same results and path. */
    method Generate(results: ResultTable, outputPath: string)
      modifies this
      ensures written == old(written) + [Written(report, results, outputPath)]
    {
      written := written + [Written(report, results, outputPath)];
    }
  }

  /** `ReportGenerator(format)`: lower-cases the format and selects its report at
      construction; an unsupported format fails there, before any `generate`. */
  method NewReportGenerator(format: string) returns (r: Result<ReportGenerator, string>)
    ensures r.Failure? <==> Lower(format) != "csv" && Lower(format) != "json"
    ensures r.Failure? ==> r.error == "Unsupported report format: " + Lower(format)
    ensures r.Success? ==> fresh(r.value) && r.value.written == []
    ensures r.Success? ==> r.value.format == Lower(format) && r.value.report == GetReportInstance(Lower(format)).value
  {
    var lowered := Lower(format);
    var instance := GetReportInstance(lowered);
    if instance.Failure? {
      return Failure(instance.error);
    }
    var generator := new ReportGenerator(lowered, instance.value);
    return Success(generator);
  }

  /** The format is case-insensitive: `"CSV"` selects the CSV report, `"Json"` the JSON one. */
  lemma FormatCaseInsensitive()
    ensures GetReportInstance(Lower("CSV")) == Success(CsvReport)
    ensures GetReportInstance(Lower("Json")) == Success(JsonReport)
  {
    assert Lower("CSV") == "csv";
    assert Lower("Json") == "json";
  }

  /** `"xml"` is rejected with the message naming it. */
  lemma XmlRejected()
    ensures GetReportInstance(Lower("xml")) == Failure("Unsupported report format: xml")
  {
    assert Lower("xml") == "xml";
    assert "xml" != "csv" && "xml" != "json";
    assert "Unsupported report format: " + "xml" == "Unsupported report format: xml";
  }

  /** Lower-casing twice selects the same report as lower-casing once. */
  lemma SelectionStableUnderLowering(format: string)
    ensures GetReportInstance(Lower(Lower(format))) == GetReportInstance(Lower(format))
  {
    LowerIdempotent(format);
  }
}
