/** The pipeline driver (`main`): check the command line, load the table,
    analyse it, draw the charts, ask for the narrative and write the report.
    The loaded table, the API key, the endpoint's replies and the renderings
    of the pandas results are inputs; exits become outcomes. */
module Pipeline {
  import opened Text
  import opened Analysis
  import opened Files
  import opened Charts
  import opened Narrative
  import opened Report

  /** How a run ends: one of the `sys.exit(1)` paths, an unhandled failure of
      the narrative request, or a written report. */
  datatype RunOutcome =
    | UsageError
    | LoadError
    | MissingCredential
    | NarrativeError(last: Failure)
    | Completed

  /** The opaque renderings the report embeds: `summary.to_markdown()`,
      the missing-value series' `to_markdown()` as a function of its entries,
      and `correlation_matrix.to_markdown()`. */
  datatype Renderings = Renderings(
    summaryMd: string,
    missingMd: seq<(string, nat)> -> string,
    correlationMd: string)

  /** `main`. `argv` is `sys.argv`; `loaded` is what reading `argv[1]` gives
      (`None` when it cannot be read); `endpoint[k]` answers the `k`-th
      request. Returns the outcome and the number of requests sent. */
  method Run(argv: seq<string>, loaded: Option<Table>, apiKey: Option<string>,
             endpoint: seq<Response>, render: Renderings, dir: Directory)
    returns (outcome: RunOutcome, requests: nat)
    requires MaxAttempts <= |endpoint|
    modifies dir
    ensures outcome == Completed <==>
            |argv| == 2 && loaded.Some? && !KeyAbsent(apiKey) && Retrying(endpoint, 0).outcome.Answer?
    ensures outcome != Completed ==>
              (ReportFile in dir.files <==> ReportFile in old(dir.files)) &&
              (ReportFile in dir.files ==> dir.files[ReportFile] == old(dir.files)[ReportFile])
    ensures |argv| != 2 ==> outcome == UsageError && requests == 0 && dir.files == old(dir.files)
    ensures |argv| == 2 && loaded.None? ==>
              outcome == LoadError && requests == 0 && dir.files == old(dir.files)
    ensures |argv| == 2 && loaded.Some? ==>
              var charts := old(dir.files) + ChartFiles(ChartColumns(loaded.value.columns));
              var tr := Retrying(endpoint, 0);
              if KeyAbsent(apiKey) then
                outcome == MissingCredential && requests == 0 && dir.files == charts
              else
                requests == tr.attempts &&
                match tr.outcome
                case GaveUp(e) => outcome == NarrativeError(e) && dir.files == charts
                case Answer(insights) =>
                  outcome == Completed &&
                  dir.files == charts[ReportFile := Text(ReportText(
                    argv[1], render.summaryMd, render.missingMd(MissingValues(loaded.value)),
                    render.correlationMd, insights))]
  {
    if |argv| != 2 {
      return UsageError, 0;
    }
    var filename := argv[1];
    if loaded.None? {
      return LoadError, 0;
    }
    var df := loaded.value;
    ChartsNeverReport(ChartColumns(df.columns));
    var missingValues := MissingValues(df);
    GenerateVisualizations(df, dir);
    var narrative, sent, waits := GetTogetherAiResponse(apiKey, endpoint);
    requests := sent;
    match narrative {
      case NoCredential =>
        outcome := MissingCredential;
      case NarrativeFailed(e) =>
        outcome := NarrativeError(e);
      case Insights(insights) =>
        GenerateReport(dir, filename, render.summaryMd, render.missingMd(missingValues),
                       render.correlationMd, insights);
        outcome := Completed;
    }
  }

  /** No chart file is ever named like the report: chart names end in
      ".png". */
  lemma ChartsNeverReport(cols: seq<Column>)
    ensures ReportFile !in ChartFiles(cols)
  {
    ChartFilesKeys(cols);
    forall c | c in cols
      ensures ChartFileName(c) != ReportFile
    {
      assert ChartFileName(c)[|ChartFileName(c)| - 1] == 'g';
      assert ReportFile[|ReportFile| - 1] == 'd';
    }
  }
}
