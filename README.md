# Sales dashboard core, modelled in Dafny

The dashboard is a single-page web app. It loads sales records from a built-in sample or
from an uploaded CSV file. It shows totals, best sellers and three revenue series, and it
sends a digest of the data along with each question to an AI assistant panel. This project
models the app's core and proves properties of it:

- **CSV parsing** (`CsvParser`, over `Text`, `Numbers` and `Sequences`).
  - The text is split into lines and blank lines are dropped.
  - The header line names the columns. It is trimmed and lower-cased.
  - Each body line becomes a row, built by the `headers.forEach` loop (`BuildRow`).
  - The numeric columns are read with JavaScript's `parseFloat` rules.
  - Rows without a date or a product are dropped.
- **The page** (`Workspace.Home`): the loaded records, the loaded flag and the handlers for
  the sample, reset and upload buttons.
- **The dashboard statistics** (`Dashboard`, over `Records`, `Series` and `Sorting`).
  - The totals.
  - Three revenue tallies, per product, per region and per month. The `forEach` loop builds
    them (`Tally`). They are insertion-ordered dictionaries, modelled as `Series`.
  - The best product and the best region.
  - The bar series, sorted by value, descending. The sort is stable.
  - The line series, sorted by month name.
  - The pie series, in first-seen order.
- **The data digest and the class-name joiner** (`Utils`): `buildDataSummary` and `cn`.
- **The assistant panel** (`Insights`).
  - Its four state fields.
  - The ask handler, split into its start and its settlement.
  - The clear button and the retry button.
  - Pure transition functions (`Begun`, `Settled`, `Asked`, `Cleared`, `RetryQuestion`,
    `Run`), and the class `InsightsPanel` whose methods are proved against them.

## Model

| member | source | states |
|---|---|---|
| Text.TrimIsInfix | src/app/page.tsx:49 | `trim` keeps exactly the infix between leading and trailing whitespace; the result neither starts nor ends with whitespace |
| Text.BlankIffAllSpace | src/app/page.tsx:49 | a line trims to "" exactly when every character is whitespace |
| Text.ToLowerNormalises | src/app/page.tsx:52 | a lower-cased header has no upper-case ASCII letter, and lower-casing again changes nothing |
| Text.Split | src/app/page.tsx:55 | `split(',')` yields at least one piece, and no piece holds the separator |
| Text.JoinSplit | src/app/page.tsx:55 | joining the pieces of a split with the separator gives back the original text |
| Text.SplitJoin | src/lib/utils.ts:20 | splitting a join gives the pieces back when no piece holds the separator |
| Text.SplitLines | src/app/page.tsx:49 | `split(/\r?\n/)` yields as many lines as a split on `\n`, none holding a newline |
| Text.SplitLinesRoundTrip | src/app/page.tsx:49 | joining the lines with `\n` gives the text with every `\r` that directly precedes a `\n` removed, and the lines are exactly the `\n`-pieces of that text |
| TextOrder.LessTransitive | src/components/Dashboard.tsx:56 | the month-name order is transitive |
| TextOrder.LessTotal | src/components/Dashboard.tsx:56 | any two different month names are ordered one way or the other |
| Numbers.ParseFloatIntText | src/app/page.tsx:60 | `parseFloat` reads the decimal text of any integer back as that integer |
| Numbers.ParseFloatNeedsDigit | src/app/page.tsx:60 | `parseFloat` yields a number only for text holding a digit |
| Numbers.ParseFloatReadsExponent | src/app/page.tsx:60 | `parseFloat("12.5e1x")` is 125: the exponent scales, and the stray tail is ignored |
| Numbers.ParseFloatFractionAndNaN | src/app/page.tsx:60 | `parseFloat("-.5")` is -0.5, and text without digits, including "", is NaN |
| Numbers.NatText | src/app/page.tsx:60 | the decimal text of a natural number is all digits and denotes that number; it is the inverse `parseFloat` reads back here, and, through `IntText` and `Utils.Render`, how `join` in src/lib/utils.ts line 20 writes a number |
| Sequences.FilterKeepsExactlyInOrder | src/app/page.tsx:66 | `filter` keeps exactly the elements that satisfy the test, in their original order |
| CsvParser.BuildRow | src/app/page.tsx:56-64 | the `forEach` loop builds the row that `RowOf` describes |
| CsvParser.RowOfKeys | src/app/page.tsx:56-64 | the row's keys are exactly the header names |
| CsvParser.RowOfCellKinds | src/app/page.tsx:59-63 | `revenue` and `units_sold` hold numbers; every other column holds text |
| CsvParser.RowOfLastOccurrenceWins | src/app/page.tsx:56-64 | under a repeated header name, the cell of its last occurrence is kept |
| CsvParser.RowOfIgnoresExtraCells | src/app/page.tsx:57 | cells beyond the last header do not change the row |
| CsvParser.HeaderNameNormalised | src/app/page.tsx:52 | a header name has no edge whitespace and no upper-case ASCII letter |
| CsvParser.ParseCSV | src/app/page.tsx:46-67 | one record per kept row |
| CsvParser.ShortInputGivesNoRecords | src/app/page.tsx:50 | fewer than two non-blank lines give no records and no error |
| CsvParser.EmptyTextGivesNoRecords | src/app/page.tsx:49-50 | the empty text parses to no records |
| CsvParser.ParseRowsKeepsWellFormedLinesInOrder | src/app/page.tsx:54-66 | the kept rows are exactly the body lines whose row has a date and a product, in line order |
| CsvParser.ParsedRecordsHaveDateAndProduct | src/app/page.tsx:66 | every parsed record has a non-empty date and a non-empty product |
| CsvParser.NumericValueReadsIntegers | src/app/page.tsx:60 | a numeric cell holding an integer's text is read as that integer |
| CsvParser.NumericValueDefaultsToZero | src/app/page.tsx:60 | a missing, empty or unreadable numeric cell reads as 0 |
| Records.MonthOf | src/components/Dashboard.tsx:43 | `substring(0, 7)` is the prefix of length min(7, length of the date) |
| Series.Add | src/components/Dashboard.tsx:40 | an existing key is updated where it stands; a new key is appended; only that key's value grows, by the amount; the total grows by the amount; distinct names stay distinct |
| Series.GroupTallies | src/components/Dashboard.tsx:39-45 | the dictionary has one entry per distinct key, holding that key's summed revenue, and the values add up to the total revenue |
| Series.GroupFirstSeen | src/components/Dashboard.tsx:39-45 | the dictionary's keys appear in the order they are first seen in the data |
| Series.PermutationTallies | src/components/Dashboard.tsx:50-56 | any reordering of a tally is still a tally of the same data |
| Sorting.PrecedesIsStrictWeakOrder | src/components/Dashboard.tsx:52 | both comparators are irreflexive, transitive and have transitive incomparability |
| Sorting.SortIsStable | src/components/Dashboard.tsx:50-56 | the sort returns a permutation of its input in comparator order, and tied entries keep their input order |
| Dashboard.BestOfIsLastMaximum | src/components/Dashboard.tsx:47-48 | the reduce returns the last entry with the maximum value |
| Dashboard.TieGoesToTheLaterEntry | src/components/Dashboard.tsx:47 | with A and B both at 5, the reduce picks B; with A at 5, B at 4 and C at 5, it picks C |
| Dashboard.BestOfGroupIsBestKey | src/components/Dashboard.tsx:47-48 | the best product or region occurs in the data; none earns more; every other key earning as much was first seen earlier |
| Dashboard.TiesKeepOrder | src/components/Dashboard.tsx:50-52 | products tied on revenue keep their first-seen order in the bar series |
| Dashboard.Tally | src/components/Dashboard.tsx:35-45 | the `forEach` loop builds exactly the product, region and month tallies |
| Dashboard.ComputeStats | src/components/Dashboard.tsx:29-70 | no stats for empty data; otherwise the totals, the best keys, a bar series sorted descending (ties first-seen), a line series in month order and a pie series in first-seen order, each a tally of the data |
| Utils.SummaryBounds | src/lib/utils.ts:3-14 | the counts are between 1 and the record count for non-empty data; every field is 0 for empty data |
| Utils.SummaryAgreesWithBuckets | src/lib/utils.ts:4-6 | the distinct counts equal the number of dashboard buckets, and the revenue equals the buckets' sum |
| Utils.CnEmptyIffNothingTruthy | src/lib/utils.ts:19-21 | `cn` returns "" exactly when no argument is truthy |
| Utils.CnKeepsTruthyInOrder | src/lib/utils.ts:20 | `cn` keeps exactly the truthy arguments, in their order |
| Utils.CnSplitsBack | src/lib/utils.ts:20 | splitting `cn`'s result on spaces gives the kept texts back when none holds a space |
| Insights.ResolveCases | src/components/AIInsights.tsx:54-62 | only an ok response with a non-empty answer succeeds; otherwise the message is the server's error, else "Failed to get insights", or the thrown error's message, or the unavailability message |
| Insights.RefusedAskChangesNothing | src/components/AIInsights.tsx:38 | a blank question, or a question asked while loading, changes no state |
| Insights.BeginClearsErrorAndInput | src/components/AIInsights.tsx:40-42 | starting an ask sets loading and clears the error and the input |
| Insights.SuccessAppendsOneExchange | src/components/AIInsights.tsx:54-55 | a success appends exactly its own exchange and keeps every earlier one |
| Insights.FailureKeepsHistory | src/components/AIInsights.tsx:56-62 | a failure keeps the history and shows the failure's message |
| Insights.AskEndsIdle | src/components/AIInsights.tsx:63-65 | after an ask, nothing is loading |
| Insights.ClearEmptiesSession | src/components/AIInsights.tsx:90 | clear empties the history and the error and nothing else |
| Insights.AskKeepsExchangesComplete | src/components/AIInsights.tsx:38 | every stored exchange has a non-blank question and a non-empty answer |
| Insights.RetryAsksLastExchange | src/components/AIInsights.tsx:158 | retry re-asks the last stored exchange's question |
| Insights.RetryAfterFirstFailureIsNoOp | src/components/AIInsights.tsx:158 | a retry after a failed first question changes nothing, because the input was cleared |
| Insights.HistoryOnlyGrows | src/components/AIInsights.tsx:55 | without a clear, the history is only extended at its end |
| Insights.RunKeepsPanelSound | src/components/AIInsights.tsx:37-66 | from an idle panel, any sequence of events ends idle with complete exchanges |
| Insights.InsightsPanel.constructor | src/components/AIInsights.tsx:18-21 | empty history, empty input, not loading, no error |
| Insights.InsightsPanel.SetInput | src/components/AIInsights.tsx:216 | typing replaces the input |
| Insights.InsightsPanel.Start | src/components/AIInsights.tsx:38-42 | the start of an ask moves the state as `Begun` says, and reports whether the ask goes ahead |
| Insights.InsightsPanel.Finish | src/components/AIInsights.tsx:54-65 | the settlement moves the state as `Settled` says |
| Insights.InsightsPanel.HandleAsk | src/components/AIInsights.tsx:37-66 | a whole ask moves the state as `Asked` says |
| Insights.InsightsPanel.ClearSession | src/components/AIInsights.tsx:90 | the clear button moves the state as `Cleared` says |
| Insights.InsightsPanel.RetryLast | src/components/AIInsights.tsx:158 | the retry button asks `RetryQuestion` of the current state |
| Workspace.UploadKeepsOrReplaces | src/app/page.tsx:30-44 | an upload replaces the records with the parsed ones, or keeps them when there is no file or no record |
| Workspace.ShortFileKeepsRecords | src/app/page.tsx:38 | a file with fewer than two non-blank lines leaves the records as they were |
| Workspace.Home.Summary | src/app/page.tsx:17 | the digest counts the current records |
| Workspace.Home.constructor | src/app/page.tsx:13-14 | no records, not loaded |
| Workspace.Home.LoadSample | src/app/page.tsx:19-22 | the records become the seventeen sample records, and the page is loaded |
| Workspace.Home.Reset | src/app/page.tsx:24-28 | no records, not loaded |
| Workspace.Home.Upload | src/app/page.tsx:30-44 | the records become `AfterUpload` of the file; loaded exactly when there are records |

On a tie for the best product or region the later entry wins, because `a[1] > b[1] ? a : b`
keeps the accumulator only when it is strictly greater (`Dashboard.BestOfIsLastMaximum`,
`Dashboard.TieGoesToTheLaterEntry`).

## Left out

- Numbers are exact reals, not IEEE doubles. Rounding, NaN in the sums and `Infinity` in
  `parseFloat` are not modelled; a cell `parseFloat` cannot read is 0, as the `|| 0` makes it.
- CsvParser.Project: a column absent from the header is read as "" (text) or 0 (number);
  the source leaves it `undefined`.
- JavaScript objects enumerate integer-like keys first, in numeric order. The tallies
  assume first-seen order for every key.
- Keys that clash with `Object.prototype` members (such as `constructor`) are not modelled.
- Sorting.Precedes: `localeCompare` is modelled as code-point lexicographic order. This
  matches it on `YYYY-MM` month keys.
- Text.ToLower: only ASCII letters are lower-cased.
- `substring` counts code points here, not UTF-16 code units.
- Utils.Render: `cn` renders only integer numbers, always in plain digits. Non-integer and
  NaN arguments are not modelled, and integers of magnitude 10^21 or more, which `join`
  writes in exponent form ("1e+21"), are written in plain digits.
- The insights request, its 1.5 second minimum delay, the `dataSummary` it sends, and the
  response JSON parsing are not modelled. The ask is given its outcome as a parameter.
- The ask is atomic in the model: its start and settlement may be interleaved with other
  handlers only through the class's separate `Start` and `Finish` methods.
- `console.error`, clipboard copying, scrolling, suggestion chips and rendering are not
  modelled.
- Reading the uploaded file (`FileReader`) is not modelled: the upload handler receives the
  file's text. Resetting the file input's DOM value is not modelled.
- The server route src/app/api/insights/route.ts, the navigation bar and the canned
  insight messages are not part of this model.
