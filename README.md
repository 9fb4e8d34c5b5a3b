# DMARC report analysis, modelled in Dafny

This project models the analysis pipeline of `dmarc_analysis_tool.py`. The
tool reads DMARC aggregate reports, the reporting format of RFC 7489,
Appendix C. Its pipeline has four steps:

1. It extracts one record per `<record>` element of each report, all or nothing per file.
2. It concatenates the records of the selected files.
3. It sums the email counts: total, SPF+DKIM pass, and unauthorized (the disposition is not "pass").
4. It computes the fail rate and recommends a DMARC policy: `reject`, then `quarantine`, then `none`.

The project also models the numbers behind the two charts and the parsing of
the typed file choices.

| file | module | models |
|---|---|---|
| `wrappers.dfy` | `Wrappers` | `Option`, for Python's `None` |
| `seqs.dfy` | `Seqs` | list comprehensions with a condition, all-or-nothing mapping, concatenation of per-item lists |
| `pyint.dfy` | `PyInt` | Python's `int(text)` in base 10 with its own white-space trimming, `str.strip`, and `str(n)` |
| `report.dfy` | `Report` | `parse_dmarc_report` over an already-parsed record tree |
| `analysis.dfy` | `Analysis` | `analyze_data` |
| `charts.dfy` | `Charts` | the counts computed in `generate_visualizations` |
| `selection.dfy` | `Selection` | the answer parsing and path building of `select_reports` |
| `pipeline.dfy` | `Pipeline` | the driver loop and stop conditions of `main` |

Modelling choices:

- A report is `Malformed` when the XML parser raises. Otherwise it is the
  list of its `<record>` nodes in document order. A node keeps the six
  sub-elements the tool looks up. Each sub-element may be absent, and a
  present one may have no text.
- A required element that is present but empty does not fail the file. The
  record then holds `None` in that field, so string fields are
  `Option<string>`. The count is the exception: `int(None)` raises.
- "Unknown" is substituted for the domain when `identifiers/header_from` is
  absent. A present `header_from` gives its text, which may itself be
  "Unknown". A present but empty `header_from` gives `None`.
- Comparisons follow Python. `None == 'pass'` is false and `None != 'pass'`
  is true, so a record whose disposition has no text counts as unauthorized.
- `int()` accepts a sign, surrounding white space and underscores between
  digits, so counts can be negative. Claims that need non-negative counts
  state that requirement. The limit on digit count in recent Python
  versions is not modelled (see "## Left out").
- `int()` trims a narrower set of white space than `str.strip`. The four
  ASCII separators U+001C to U+001F count as white space for `str.isspace`,
  but `int()` does not skip them. The model keeps the two sets apart:
  `IsSpace` for `str.strip` and `IsIntSpace` for `int()`.
- The fail rate is an exact `real`, defined only for a non-zero total.
- The failing domains are a set, because the source builds them with
  `list(set(...))` and their order is undefined.

Three behaviours of the code that are easy to miss:

- The count may be any integer, negative ones included.
- A present element without text fails the file only when it is the count
  element. Any other required element only has to be present, and
  `header_from` may be absent altogether.
- The third recommendation is the full string "Stay at 'none' policy and
  investigate further.", and the model uses it unchanged.

## Model

| member | source | states |
|---|---|---|
| `Report.ParseReport` | dmarc_analysis_tool.py:6-32 | The record loop returns exactly what the whole-file definition gives: `[]` for a malformed document, otherwise every record in order, or `[]` once any record cannot be read |
| `Report.ExtractRecordsSpec` | dmarc_analysis_tool.py:13-29 | Extraction fails exactly when some node cannot be read. When it succeeds, the result has one record per node, each read from its node |
| `Report.ExtractionShape` | dmarc_analysis_tool.py:13-29 | If every record is readable, a well-formed document yields one record per `<record>`, in document order, each read from the matching node |
| `Report.AllOrNothing` | dmarc_analysis_tool.py:11-32 | One unreadable record anywhere, even after valid ones, makes the whole file yield `[]` |
| `Report.ResultSize` | dmarc_analysis_tool.py:8-32 | A malformed file yields nothing. A well-formed file yields either nothing or exactly one record per `<record>` element |
| `Report.RecordFields` | dmarc_analysis_tool.py:14-19 | A node is readable iff the five required elements exist and the count has integer text. Empty string elements give `None` without failing. Fields are copied from their tags. The domain is "Unknown" when `header_from` is absent and the element's text otherwise |
| `Report.ReadNodeOf` | dmarc_analysis_tool.py:14-19 | If a record is written as a node with its count in decimal, reading that node gives back the same record |
| `Report.ParseDocumentOf` | dmarc_analysis_tool.py:11-29 | A document listing the nodes of any record sequence parses back to that sequence |
| `PyInt.TrimStart` | dmarc_analysis_tool.py:173 | Removes exactly the leading white space: the result is a suffix of the input, every removed character is white space, and the result does not begin with white space |
| `PyInt.TrimEnd` | dmarc_analysis_tool.py:173 | Removes exactly the trailing white space, in the same sense as `TrimStart` |
| `PyInt.Strip` | dmarc_analysis_tool.py:173 | The result is empty, or it begins and ends with a character that is not white space |
| `PyInt.StripIsInfix` | dmarc_analysis_tool.py:173 | The result of `Strip` is a slice of the input with only white space before and after it |
| `PyInt.StripUnchanged` | dmarc_analysis_tool.py:173 | Text that neither begins nor ends with white space is left unchanged |
| `PyInt.IntTrimStart` | dmarc_analysis_tool.py:18 | Removes exactly the leading characters that `int()` skips: the result is a suffix of the input, every removed character is such white space, and the result does not begin with one |
| `PyInt.IntTrimEnd` | dmarc_analysis_tool.py:18 | Removes exactly the trailing characters that `int()` skips, in the same sense as `IntTrimStart` |
| `PyInt.IntStrip` | dmarc_analysis_tool.py:18 | The text `int()` reads is empty, or it begins and ends with a character that `int()` does not skip |
| `PyInt.IntStripUnchanged` | dmarc_analysis_tool.py:18 | Text that neither begins nor ends with a character `int()` skips is read as it stands |
| `PyInt.ParseInt` | dmarc_analysis_tool.py:18 | Whenever `int()` succeeds, its trimmed text is non-empty and holds only digits and underscores after an optional sign. A negative value was written with a leading `-` |
| `PyInt.ParseShowInt` | dmarc_analysis_tool.py:18 | `int(str(n)) == n` for every integer, negative ones included. The digit-count limit of recent Python versions is not modelled |
| `PyInt.ParseIgnoresPadding` | dmarc_analysis_tool.py:18 | White space that `int()` skips, added around the count text, does not change the parsed value or the error |
| `PyInt.PaddedIntStrip` | dmarc_analysis_tool.py:18 | Adding white space that `int()` skips to either end of a text does not change what `int()` trims it to |
| `PyInt.SeparatorIsNotIntSpace` | dmarc_analysis_tool.py:18 | Each of U+001C to U+001F is white space for `str.isspace` but not for `int()`. So `int()` rejects a digit group after one of them, while `int()` of the stripped text reads the digits |
| `PyInt.ParseIntOfStrip` | dmarc_analysis_tool.py:173 | For `int(choice.strip())`, once `str.strip` has run, `int()`'s own trimming changes nothing, so `int()` reads the stripped text as it stands |
| `Analysis.AnalyzeData` | dmarc_analysis_tool.py:34-38 | Returns the no-data result exactly when the counts sum to 0, which includes an empty list. No rate is computed in that case |
| `Analysis.Recommendation` | dmarc_analysis_tool.py:50-56 | `reject` iff the fail rate is below 5 and fewer than 2 emails are unauthorized. Otherwise `quarantine` iff the fail rate is below 15. Otherwise `none`. Exactly one of the three is chosen |
| `Analysis.Conservation` | dmarc_analysis_tool.py:40-42 | The failed count equals the summed counts of the records that are not both SPF and DKIM pass, and `passed + failed == total` |
| `Analysis.RecordContribution` | dmarc_analysis_tool.py:36-45 | One more record adds its count to the total. It adds its count to the passed count only if SPF and DKIM both pass; a partial pass adds 0. It adds its count to the unauthorized count, and its domain to the failing domains, exactly when its alignment is not "pass" |
| `Analysis.CountsAdditive` | dmarc_analysis_tool.py:36-45 | For a concatenation, the total, passed and unauthorized counts are sums over the parts, and the failing domains are the union of the parts' domains |
| `Analysis.FailureDomainsMembers` | dmarc_analysis_tool.py:63 | A domain is listed iff some record with that domain has alignment other than "pass", including records whose count is 0 |
| `Analysis.FailRateIsFailedShare` | dmarc_analysis_tool.py:42-48 | `100 - pass_rate` equals the failed count as a percentage of the total |
| `Analysis.CountBounds` | dmarc_analysis_tool.py:36-48 | With non-negative counts, the passed and unauthorized counts lie between 0 and the total, and the fail rate lies between 0 and 100 |
| `Analysis.RateBelow` | dmarc_analysis_tool.py:47-48 | For a positive total, the fail rate is below `k` percent iff `100 * failed < k * total` |
| `Analysis.RateThresholds` | dmarc_analysis_tool.py:47-53 | For a positive total, the 5% and 15% thresholds equal `20 * failed < total` and `20 * failed < 3 * total` |
| `Analysis.RecommendationInCounts` | dmarc_analysis_tool.py:47-56 | For a positive total, the recommendation in whole-number terms: `reject` iff `20 * failed < total` and unauthorized < 2. Otherwise `quarantine` iff `20 * failed < 3 * total` |
| `Analysis.RecommendationMonotone` | dmarc_analysis_tool.py:50-56 | A higher fail rate or more unauthorized email never yields a stricter policy |
| `Analysis.ThresholdExamples` | dmarc_analysis_tool.py:50-56 | 4.9% with 1 unauthorized gives `reject`. 4.9% with 2 gives `quarantine`. 14.9% gives `quarantine`. 20% gives `none` |
| `Analysis.SumCountsPermutation` | dmarc_analysis_tool.py:36 | The summed count does not depend on the order of the records |
| `Analysis.OrderIndependent` | dmarc_analysis_tool.py:36-63 | Any permutation of the records gives the same analysis: the same counts, fail rate, domain set and recommendation |
| `Charts.Max0` | dmarc_analysis_tool.py:79 | `max(0, x)` is non-negative, at least `x`, and equal to `x` or 0 |
| `Charts.PieOf` | dmarc_analysis_tool.py:72-84 | All three pie segments are non-negative |
| `Charts.DomainCounts` | dmarc_analysis_tool.py:103-104 | There is one bar for each failing domain, no more and no fewer |
| `Charts.PieTotal` | dmarc_analysis_tool.py:72-84 | With non-negative counts, the segments are the passed count, max(0, total - passed - unauthorized) and the unauthorized count. Their sum is the larger of the total and passed + unauthorized |
| `Charts.ChartsAgreeWithSummary` | dmarc_analysis_tool.py:72-104 | With non-negative counts and a non-zero total, charts are drawn. The pie shows the summary's passed and unauthorized counts, and the bars show exactly the summary's failing domains |
| `Charts.ChartsExactlyWithData` | dmarc_analysis_tool.py:86-92 | With non-negative counts, charts are drawn exactly when the analysis has data |
| `Charts.BarCountsAllRecords` | dmarc_analysis_tool.py:104 | A domain's bar sums the counts of all its records, authorized ones included |
| `Selection.Split` | dmarc_analysis_tool.py:171 | Splitting the answer on commas gives at least one piece, and no piece contains a comma |
| `Selection.JoinSplit` | dmarc_analysis_tool.py:171 | Joining the pieces with commas gives back the typed answer |
| `Selection.SplitJoin` | dmarc_analysis_tool.py:171 | Comma-free pieces joined with commas split back into the same pieces |
| `Selection.ChoiceIndex` | dmarc_analysis_tool.py:172-174 | A choice is kept exactly when its stripped text parses to some n with 1 <= n <= the number of entries. It then gives index n - 1, which is always inside the offered list |
| `Selection.TypedNumberPicks` | dmarc_analysis_tool.py:165-175 | Typing the number printed beside entry j, `str(j + 1)`, chooses entry j |
| `Selection.SelectReports` | dmarc_analysis_tool.py:159-181 | With no `.xml` entries the result is `[]`. Otherwise it is the first 100 paths picked by the valid choices, in the order typed, duplicates kept |
| `Selection.SelectionBounds` | dmarc_analysis_tool.py:159-181 | At most 100 paths are returned, and each joins the folder with an offered `.xml` entry |
| `Pipeline.CollectRecords` | dmarc_analysis_tool.py:204-207 | `all_reports` is the concatenation of the per-file results, in file order |
| `Pipeline.RunPipeline` | dmarc_analysis_tool.py:196-214 | Stops when no file is selected, and stops with "no data parsed" iff the concatenation is empty, so the analysis never sees an empty list. Otherwise it analyses the concatenation once. Its no-data result ends the run without a crash. It differs from `main` as written only by that crash, and keeps the `TypeError` on a `None` domain |
| `Pipeline.FailingFileContributesNothing` | dmarc_analysis_tool.py:204-207 | A file that fails to parse adds nothing, whatever its position in the batch |
| `Pipeline.MalformedMiddleFile` | dmarc_analysis_tool.py:204-207 | With three files and the second malformed, the batch holds the records of the first and third files |
| `Pipeline.FileOrderIrrelevant` | dmarc_analysis_tool.py:204-214 | Reading the same files in any order gives the same analysis |
| `Pipeline.MainAsWritten` | dmarc_analysis_tool.py:196-221 | `main` as written raises `AttributeError` exactly when records were parsed but their counts sum to 0. It raises `TypeError` exactly when the total is not 0 and a failing domain is `None`. Otherwise it reaches the summary of the parsed records. Two crashes are not modelled (see "## Left out"): the `OverflowError` that line 47 can raise, and the `ValueError` that line 221 raises when it prints a number of more than 4300 digits |
| `Pipeline.ZeroCountCrashesMain` | dmarc_analysis_tool.py:213-217 | One report with one record whose count is "0" drives `main` as written to the `AttributeError` |
| `Pipeline.NoneDomainCrashesMain` | dmarc_analysis_tool.py:216-219 | One report with one unauthorized record whose `header_from` has no text drives `main` as written to the `TypeError` |

## Findings

| source | as written | input that shows it | evidently intended | confidence | as-written member | corrected member |
|---|---|---|---|---|---|---|
| dmarc_analysis_tool.py:209-217 | `main` guards only against an empty record list. `analyze_data` then returns its no-data string when the counts sum to 0, and `analysis.items()` raises `AttributeError` on that string | one report with one `<record>` whose `row/count` is `0` | report "No data available for analysis." and stop before the summary, charts and PDF | not executed | `Pipeline.MainAsWritten` | `Pipeline.RunPipeline` |

## Left out

- Parsing XML text (`ET.parse`) is not modelled. A document is either `Malformed` or its already-extracted `<record>` nodes in document order. Nested `record` elements at other depths, which `.//record` would also find, are assumed to appear in that list.
- A `find` path that matches several elements is not modelled; each node holds the one element that `find` returns.
- `PyInt.ParseInt`, `PyInt.ParseShowInt`: the limit on integer-string conversion is not modelled. Since Python 3.11, and in the 3.10.7 security release, `int()` and `str()` raise `ValueError` beyond 4300 digits by default, and the limit can be changed with `sys.set_int_max_str_digits`. Such a count makes line 18 fail and the file yield `[]`, while the model parses it.
- `PyInt.ParseInt` accepts ASCII digits only. Python's `int()` also accepts other Unicode decimal digits.
- Reading files, `os.listdir`, `os.path.exists`, `input()` and every `print` are left out. Directory listings, the typed answer and the documents read from files are parameters.
- A failing `os.listdir` makes `select_reports` return `[]`; this is not modelled.
- `Selection.SelectReports` models the path join for POSIX separators only.
- The "Invalid choice" and "Invalid input" messages are not modelled; invalid pieces are only skipped.
- The pie and bar drawing, `savefig` and all of `export_to_pdf` are left out. They are foreign-library I/O. Only the numbers passed to the charts are modelled.
- Printing the summary is not modelled beyond its two crashes: the `AttributeError` on the no-data string and the `TypeError` when `', '.join` meets a `None` domain (these are the outcomes `SummaryCrash` and `DomainJoinCrash`).
- `Pipeline.MainAsWritten`, `Pipeline.RunPipeline`: the `OverflowError` that line 47 raises is not modelled. Python's `passed_count / total_emails` raises it when the exact quotient is beyond the range of a double, about 1.8·10^308 in magnitude. That needs a count of more than 308 digits and, for a non-zero total that small, some negative count. For example, a passing record with count 10^309 and a failing one with count -(10^309 - 1) give a total of 1. The model then reaches the summary, where Python stops with `OverflowError`. The `ValueError` of the integer-string limit at line 221 is not modelled either. On Python 3.11 and later, and in 3.10.7, `f"{key}: {value}"` raises it when the total, the pass count or the unauthorized count has more than 4300 digits. Each count can be within the limit that line 18 enforces while the sum is not. For example, ten passing records with count 10^4300 - 1 give a 4301-digit total, and `main` stops on "Total Emails", while the model returns `Analysed`.
- The fail rate is an exact real. The source computes it in IEEE-754 doubles. At exactly 5% and 15% the two agree, because `(p / t) * 100` rounds back to 95.0 or 85.0. An exact rate within about 10^-14 below a threshold, which needs totals of roughly 10^16 or more, is rounded up to the threshold by the source and stays below it in the model. For example, a total of 10^16 with 5·10^14 - 1 failed gives `reject` in the model when fewer than 2 are unauthorized, and `quarantine` in the source.
- `failed_count` and `pass_rate` are computed but not returned. They appear only in lemmas (`Analysis.Conservation`, `Analysis.FailRateIsFailedShare`), not in the summary.
- `Charts.ChartsAgreeWithSummary`, `Charts.PieTotal`, `Charts.ChartsExactlyWithData`: hold only for non-negative counts. Negative counts are clamped to 0 in the pie but not in the summary.
- `Analysis.CountBounds`: holds only for non-negative counts, which `int()` does not guarantee.
