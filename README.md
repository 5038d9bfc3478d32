# Automated data analysis pipeline — Dafny model

This project models the decision logic of `autolysis.py`. That script
loads a CSV file, counts missing values, charts up to three numeric columns,
asks a remote chat-completion endpoint (Together AI) for a narrative, and
writes everything to `README.md`. The pandas, seaborn, requests and tenacity
calls are replaced by their documented behaviour on abstract inputs:

- **Text** (`text.dfy`): optional values, Python's substring test, the
  decimal rendering of a status code (with its inverse), and string
  concatenation with its offset lemmas.
- **Analysis** (`analysis.dfy`): the table, and `df.isnull().sum()` as a
  per-column count of `None` cells, proved to be the number of missing
  positions and to lie in [0, row count].
- **Files** (`files.dfy`): the working directory as a class whose `files`
  map the writing methods update (`savefig`, `open(..., "w")`, `f.write`).
- **Charts** (`charts.dfy`): `select_dtypes(include=[np.number]).columns[:3]`
  as a filter followed by a prefix. It is proved equal to an in-order scan
  with a budget of three, and each numeric column is located in it. The
  `for` loop that saves one image per charted column is a method.
- **Narrative** (`narrative.dfy`): each reply is classified as
  `Returned(text)` or `Raised(cause)`. The retry policy
  (`stop_after_attempt(3)`, `wait_fixed(2)`) is a specification function,
  and the attempt loop is a method proved against it. The API-key check
  comes before any request.
- **Report** (`report.dfy`): the ten `f.write` calls of `generate_report`,
  and lemmas placing every section at its offset, in order.
- **Pipeline** (`pipeline.dfy`): `main` with its exits as outcomes. The
  report is written exactly when the run completes, and a chart file can
  never overwrite it.

The code makes the following choices, and the model follows them:

- A chart failure is not isolated per column. The code has no such
  isolation, so the model does not claim it.
- A 200 reply with a body that does not parse raises and is retried. It does
  not fall back to the raw text.
- An HTML reply returns the placeholder with the status code. It does not
  return the raw body.
- The charts are drawn before the API key is checked. A run without a key
  therefore still leaves its chart files behind.

## Model

| member | source | states |
|---|---|---|
| `Analysis.MissingCount` | autolysis.py:36 | the number of missing cells of a column is at most its length |
| `Analysis.MissingCountIsPositions` | autolysis.py:36 | the count equals the number of positions holding a missing cell |
| `Analysis.MissingCountExtremes` | autolysis.py:36 | the count is 0 iff every cell is present, and equals the column length iff every cell is missing |
| `Analysis.Present` | autolysis.py:44 | definition: `dropna()`, the present values of a column in order (no ensures; see the next three rows) |
| `Analysis.PresentLength` | autolysis.py:44 | `dropna()` keeps as many cells as are not missing |
| `Analysis.PresentKeeps` | autolysis.py:44 | a value is kept by `dropna()` iff some cell holds it |
| `Analysis.PresentConcat` | autolysis.py:44 | `dropna()` of two runs of cells is the `dropna()` of each, concatenated, so the kept values keep their order |
| `Analysis.MissingValues` | autolysis.py:36 | one entry per column, in column order, named after its column, each count bounded by the column length |
| `Analysis.MissingWithinRows` | autolysis.py:36 | on a loaded table every missing count lies in [0, row count] and is the number of missing positions |
| `Analysis.TotalMissingBound` | autolysis.py:36 | the missing counts sum to at most rows × columns |
| `Charts.NumericColumns` | autolysis.py:42 | the numeric-column filter keeps only numeric columns and never grows the sequence |
| `Charts.ChartColumns` | autolysis.py:42 | at most three columns are charted, all numeric |
| `Charts.NumericConcat` | autolysis.py:42 | the numeric-column filter distributes over concatenation, so it keeps declared order |
| `Charts.NoNumericNoCharts` | autolysis.py:42 | no chart is drawn iff the table has no numeric column |
| `Charts.PrefixIsScan` | autolysis.py:42 | filtering then cutting to a budget equals scanning in order and taking numeric columns until the budget is spent |
| `Charts.ChartsAreScan` | autolysis.py:42 | the charted columns are the in-order scan with budget 3, and there are min(3, #numeric) of them |
| `Charts.ChartedAt` | autolysis.py:42 | a numeric column is charted iff fewer than 3 numeric columns precede it, and then it is chart number k, k being the count of numeric columns before it |
| `Charts.ChartedFrom` | autolysis.py:42 | the k-th numeric column in the filter is a table column with exactly k numeric columns before it |
| `Charts.ChartFileName` | autolysis.py:46 | definition: the image file name `<column>.png` (no ensures; see `ChartFileNameInjective`) |
| `Charts.ChartOf` | autolysis.py:44-45 | definition: a chart titled `Distribution of <column>` plotting the column's `dropna()` values (no ensures) |
| `Charts.ChartFiles` | autolysis.py:42-46 | definition: the files left by saving the charts of a sequence of columns in order, a later one replacing an earlier one of the same name (no ensures; see the next rows) |
| `Charts.ChartFileNameInjective` | autolysis.py:46 | two chart files share a name iff their columns share a name |
| `Charts.ChartFilesKeys` | autolysis.py:46 | the files written are named `<column>.png` for the charted columns, and there are at most as many files as charted columns |
| `Charts.ChartFilesCount` | autolysis.py:46 | columns with distinct names leave exactly one file each |
| `Charts.FreshChartName` | autolysis.py:46 | a column whose name no charted column shares has a file name that charting does not write |
| `Charts.ChartFilesValues` | autolysis.py:42-46 | with distinct names, each charted column's file holds that column's chart |
| `Charts.ChartFilesBound` | autolysis.py:42-46 | charting a table writes at most 3 image files, each for a numeric column |
| `Charts.ChartsOnePerColumn` | autolysis.py:42-46 | on a loaded table the charted columns have distinct names and give exactly one image file each |
| `Charts.GenerateVisualizations` | autolysis.py:40-47 | the directory afterwards is the old one with the chart of each charted column saved under `<column>.png`, titled `Distribution of <column>`, plotting its non-missing values |
| `Files.Directory.Save` | autolysis.py:46 | saving a file replaces that file and leaves the others unchanged |
| `Files.Directory.Create` | autolysis.py:94 | opening for writing leaves the file existing and empty, and the others unchanged |
| `Files.Directory.Append` | autolysis.py:95-104 | a write appends to that file only |
| `Text.ContainsIff` | autolysis.py:74 | the substring test holds iff the needle occurs at some position |
| `Text.DecimalRoundTrip` | autolysis.py:76 | the decimal rendering of a status code reads back as that code |
| `Narrative.Classify` | autolysis.py:67-86 | an attempt returns iff the reply is HTML or a non-HTML 200 with content. An HTML reply returns the placeholder for any status, before the status is looked at. A non-HTML 200 with content returns the content. A non-HTML 200 that does not parse raises with its body. Any other non-HTML status raises. A non-HTML 200 whose body lacks the content raises `NoContent`, and a transport failure raises `Transport` |
| `Narrative.ContentType` | autolysis.py:74 | definition: the Content-Type header, `""` when absent (no ensures) |
| `Narrative.IsHtml` | autolysis.py:74 | definition: a reply whose Content-Type contains `html`, case-sensitively (no ensures; see `Classify`) |
| `Narrative.HtmlPlaceholder` | autolysis.py:76 | definition: the fixed HTML error text followed by the status code in decimal (no ensures; see `HtmlPlaceholderStatus`) |
| `Narrative.HtmlPlaceholderStatus` | autolysis.py:76 | the HTML placeholder text determines the status code it reports |
| `Narrative.Retrying` | autolysis.py:66 | the retried call makes at least one and at most 3 attempts |
| `Narrative.RetryingFirstSuccess` | autolysis.py:66-88 | every attempt before the last one made raised. The outcome is the last attempt's text when it returned. The call gives up only at the third attempt, with that attempt's failure |
| `Narrative.GaveUpIffAllRaise` | autolysis.py:66 | the call fails iff all 3 attempts raise |
| `Narrative.HtmlNotRetried` | autolysis.py:74-76 | an HTML first reply is returned after one attempt, never retried |
| `Narrative.RetryingPrefix` | autolysis.py:66 | only the replies to the first three requests affect the result |
| `Narrative.FailTwiceThenSucceed` | autolysis.py:66-88 | two failures then a good reply return that reply after 3 requests |
| `Narrative.AlwaysFailing` | autolysis.py:66-86 | an endpoint answering 500 three times is given up on after 3 requests, with that status as the failure |
| `Narrative.Waits` | autolysis.py:66 | one wait of 2 units before each retry: attempts − 1 waits |
| `Narrative.Chat` | autolysis.py:66-88 | the attempt loop returns the outcome and attempt count of the retry policy, between 1 and 3 attempts, and attempts − 1 waits of 2 units |
| `Narrative.KeyAbsent` | autolysis.py:52 | definition: `not together_api_key`, true for an unset or empty key (no ensures; see `GetTogetherAiResponse`) |
| `Narrative.GetTogetherAiResponse` | autolysis.py:49-88 | an unset or empty key sends no request and aborts. Otherwise the result, request count and waits are those of the retried call |
| `Report.Sections` | autolysis.py:94-104 | the report is written as ten non-empty pieces |
| `Report.ReportText` | autolysis.py:94-104 | definition: the concatenation of the ten sections (no ensures; see the next rows) |
| `Report.ReportInOrder` | autolysis.py:94-104 | the ten sections sit unchanged at strictly increasing offsets covering the whole report: title, dataset name, summary, missing values, correlation matrix, insights, in that order |
| `Report.ReportEnds` | autolysis.py:95-104 | the report starts with the title and ends with the insights followed by a newline |
| `Report.ReportNamesDataset` | autolysis.py:96 | the dataset's file name occurs in the report |
| `Report.ReportTextSpelled` | autolysis.py:95-104 | the report text is exactly the ten writes, concatenated in source order |
| `Report.Write` | autolysis.py:95-104 | one write extends the open report by its text and changes nothing else |
| `Report.GenerateReport` | autolysis.py:92-104 | the directory afterwards is the old one with `README.md` replaced by the report text |
| `Pipeline.ChartsNeverReport` | autolysis.py:46 | no chart file is named `README.md` |
| `Pipeline.Run` | autolysis.py:106-123 | a wrong argument count or an unreadable file changes nothing and sends nothing. Otherwise the charts are written. A missing key then stops with no request. An exhausted retry stops with its last failure. A returned narrative writes the report from the analysis and that narrative. The run completes iff the arguments, the load, the key and the retried call all succeed, and otherwise the report file is untouched |

## Left out

- `df.describe` and `df.corr` (floating-point statistics inside pandas). Their rendered tables are opaque strings given to the model.
- `to_markdown`, `to_string` and the prompt f-string. These are opaque strings, and the missing-value table's rendering is a function parameter.
- seaborn/matplotlib drawing and PNG encoding. A chart is its title and the values it plots.
- The HTTP POST itself: the URL, headers, model name and JSON body. The endpoint is the sequence of its replies to successive requests, and `Run`, `Chat` and `GetTogetherAiResponse` require that it answers the three requests the loop may make.
- The real sleeping in tenacity. Waits are returned as a sequence of durations.
- CSV loading and ISO-8859-1 decoding. The loaded table is an input, `None` when the file cannot be read.
- `print` logging, including the status-code log line. A body that fails to parse is carried in the failure value instead of being printed.
- `sys.exit` codes. Exits are `RunOutcome` values.
- Exception types. A JSON body lacking `choices[0].message.content` (`KeyError`, `IndexError`, `TypeError`) is one failure, `NoContent`. Content that is not a string, and the resulting `TypeError` in `generate_report`, are not modelled: content is text.
- Failures of `savefig` or of writing the report, and per-column chart failure isolation (the code has none). Rendering and writing always succeed in the model.
- Column names and file paths. A column name is treated as plain text, so a name holding a path separator does not write into another directory. Non-string column labels are not modelled.
- The correlation matrix's symmetry and diagonal, which belong to `df.corr`, outside this model.
