/** The report assembler (`generate_report`): fixed section headers and the
    rendered tables, written one after another to `README.md`. The rendered
    tables (`to_markdown` of the pandas results) and the narrative are opaque
    strings here. */
module Report {
  import opened Text
  import opened Files

  /** The fixed name of the report file. */
  const ReportFile: string := "README.md"

  const Title: string := "# Automated Data Analysis Report\n\n"
  const DatasetLabel: string := "## Dataset: "
  const SummaryHeader: string := "### Summary Statistics\n\n"
  const MissingHeader: string := "### Missing Values\n\n"
  const CorrelationHeader: string := "### Correlation Matrix\n\n"
  const InsightsHeader: string := "### AI-Generated Insights\n\n"

  /** The ten pieces written in order, one per `f.write`. */
  function Sections(filename: string, summaryMd: string, missingMd: string,
                    correlationMd: string, insights: string): (parts: seq<string>)
    ensures |parts| == 10
    ensures forall k :: 0 <= k < |parts| ==> |parts[k]| > 0
  {
    [Title,
     DatasetLabel + filename + "\n\n",
     SummaryHeader, summaryMd + "\n\n",
     MissingHeader, missingMd + "\n\n",
     CorrelationHeader, correlationMd + "\n\n",
     InsightsHeader, insights + "\n"]
  }

  /** The whole report text. */
  function ReportText(filename: string, summaryMd: string, missingMd: string,
                      correlationMd: string, insights: string): string
  {
    Concat(Sections(filename, summaryMd, missingMd, correlationMd, insights))
  }

  /** Section `k` of `parts` is non-empty and sits, unchanged, at its offset
      in `doc`. */
  predicate SectionAt(doc: string, parts: seq<string>, k: nat)
    requires k < |parts|
  {
    Offset(parts, k) < Offset(parts, k + 1) <= |doc| &&
    doc[Offset(parts, k)..Offset(parts, k + 1)] == parts[k]
  }

  /** The offsets of the ten sections strictly increase, each section sits
      unchanged at its offset, and the last one ends the report: so the report
      holds, in this order, the title, the dataset name, the summary table, the
      missing-value table, the correlation table and the insights. */
  lemma ReportInOrder(filename: string, summaryMd: string, missingMd: string,
                      correlationMd: string, insights: string)
    ensures var parts := Sections(filename, summaryMd, missingMd, correlationMd, insights);
            var doc := ReportText(filename, summaryMd, missingMd, correlationMd, insights);
            Offset(parts, 0) == 0 && Offset(parts, |parts|) == |doc| &&
            forall k :: 0 <= k < |parts| ==> SectionAt(doc, parts, k)
  {
    var parts := Sections(filename, summaryMd, missingMd, correlationMd, insights);
    assert parts[..|parts|] == parts;
    assert parts[..0] == [];
    forall k | 0 <= k < |parts|
      ensures SectionAt(Concat(parts), parts, k)
    {
      ConcatAt(parts, k);
    }
  }

  /** The report starts with the title and ends with the insights. */
  lemma ReportEnds(filename: string, summaryMd: string, missingMd: string,
                   correlationMd: string, insights: string)
    ensures var doc := ReportText(filename, summaryMd, missingMd, correlationMd, insights);
            |doc| >= |Title| + |insights| + 1 &&
            doc[..|Title|] == Title &&
            doc[|doc| - |insights| - 1..] == insights + "\n"
  {
    var parts := Sections(filename, summaryMd, missingMd, correlationMd, insights);
    var doc := Concat(parts);
    ConcatAt(parts, 0);
    ConcatAt(parts, 9);
    assert parts[..0] == [] && parts[..10] == parts;
    assert Offset(parts, 1) <= Offset(parts, 9) by {
      ConcatPrefix(parts[..9], 1);
      assert parts[..9][..1] == parts[..1];
    }
  }

  /** The dataset's name appears in the report. */
  lemma ReportNamesDataset(filename: string, summaryMd: string, missingMd: string,
                           correlationMd: string, insights: string)
    ensures Contains(ReportText(filename, summaryMd, missingMd, correlationMd, insights), filename)
  {
    var parts := Sections(filename, summaryMd, missingMd, correlationMd, insights);
    var doc := ReportText(filename, summaryMd, missingMd, correlationMd, insights);
    ConcatAt(parts, 1);
    var start := Offset(parts, 1);
    var o := start + |DatasetLabel|;
    assert parts[1] == DatasetLabel + filename + "\n\n";
    assert parts[1][|DatasetLabel|..|DatasetLabel| + |filename|] == filename;
    OccursInside(doc, start, Offset(parts, 2), parts[1], |DatasetLabel|, filename);
    ContainsIff(doc, filename);
  }

  /** The report text is the ten writes' texts concatenated in source order. */
  lemma ReportTextSpelled(filename: string, summaryMd: string, missingMd: string,
                          correlationMd: string, insights: string)
    ensures ReportText(filename, summaryMd, missingMd, correlationMd, insights) ==
            Title + (DatasetLabel + filename + "\n\n") +
            SummaryHeader + (summaryMd + "\n\n") +
            MissingHeader + (missingMd + "\n\n") +
            CorrelationHeader + (correlationMd + "\n\n") +
            InsightsHeader + (insights + "\n")
  {
    var p := Sections(filename, summaryMd, missingMd, correlationMd, insights);
    assert p[..0] == [] && p[..10] == p;
    assert "" + p[0] == p[0];
    ConcatStep(p, 0);
    ConcatStep(p, 1);
    ConcatStep(p, 2);
    ConcatStep(p, 3);
    ConcatStep(p, 4);
    ConcatStep(p, 5);
    ConcatStep(p, 6);
    ConcatStep(p, 7);
    ConcatStep(p, 8);
    ConcatStep(p, 9);
  }

  /** Opens `README.md` for writing, replacing any earlier report, and writes
      the sections one after another. */
  method GenerateReport(dir: Directory, filename: string, summaryMd: string, missingMd: string,
                        correlationMd: string, insights: string)
    modifies dir
    ensures dir.files ==
            old(dir.files)[ReportFile := Text(ReportText(filename, summaryMd, missingMd, correlationMd, insights))]
  {
    ghost var base := dir.files;
    dir.Create(ReportFile);
    assert "" + Title == Title;
    Write(dir, Title, base, "");
    Write(dir, DatasetLabel + filename + "\n\n", base, Title);
    ghost var so := Title + (DatasetLabel + filename + "\n\n");
    Write(dir, SummaryHeader, base, so);
    so := so + SummaryHeader;
    Write(dir, summaryMd + "\n\n", base, so);
    so := so + (summaryMd + "\n\n");
    Write(dir, MissingHeader, base, so);
    so := so + MissingHeader;
    Write(dir, missingMd + "\n\n", base, so);
    so := so + (missingMd + "\n\n");
    Write(dir, CorrelationHeader, base, so);
    so := so + CorrelationHeader;
    Write(dir, correlationMd + "\n\n", base, so);
    so := so + (correlationMd + "\n\n");
    Write(dir, InsightsHeader, base, so);
    so := so + InsightsHeader;
    Write(dir, insights + "\n", base, so);
    ReportTextSpelled(filename, summaryMd, missingMd, correlationMd, insights);
  }

  /** One `f.write` on the open report: the file held `written` and now holds
      `written + s`; nothing else changes. */
  method Write(dir: Directory, s: string, ghost base: map<string, Content>, ghost written: string)
    requires dir.files == base[ReportFile := Text(written)]
    modifies dir
    ensures dir.files == base[ReportFile := Text(written + s)]
  {
    dir.Append(ReportFile, s);
  }
}
