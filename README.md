# LLM analyzer frontend — a verified model of its computing core

This project models, in Dafny, the parts of the LLM-analyzer web frontend that
compute something rather than draw it:

- the **batch quality inspector** (`QualityInspector`): the mean and population
  standard deviation of each score, Pearson correlations between sampling
  parameters and overall quality, the z-score ranking of one response's
  strengths and weaknesses with its fallback, the Jaccard-based "variety", the
  per-metric verdicts and the threshold summary;
- the **strong pick** (`StrongHighlight`) and `bestFitId`, both a copy sorted
  stably by descending quality and its head: the first row of maximal quality;
- the three **CSV writers**: the detailed export with its fixed sixteen columns
  and BOM (`ExportCenter`), the per-experiment export whose header is the union
  of the row keys (`ExportButtons`), and the generic `exportCSV` with
  conditional quoting (`src/lib/csv.ts`), together with the row assembly of the
  two exports;
- the **chart data** of `QualityCharts` (the radar keys and their means, the
  scatter points, the sorted bars) and of `MetricsRadar` (the key union and the
  per-response matrix);
- the **request shaping** of the API client: `sanitizeGrid`, the
  `createExperiment` payload, the `runExperiment` path and body, `buildCursor`;
- the **live-run console**: its state machine over stream events and its render
  guard; the **navigation highlight** rule of the site header; and `cn`.

JavaScript values are the datatype `Domain.Value`; an object is its list of
properties in the order `Object.keys` lists them, which is insertion order for
the non-integer names the core uses, and a property read finds the first of
that name. Numbers are `real`. `Math.sqrt` is a function parameter known only to be
the non-negative square root on non-negative input. `JSON.stringify`,
`String(v)`, `toFixed(2)`, the Pacific-time formatting of `toPST` and the
percent-encoding of `URLSearchParams` are function parameters as well. The
writers' output is connected to a CSV reader (`CsvText.Records`, LF line ends,
fields quoted as in section 2, rules 6 and 7, of RFC 4180), and the model
proves that each writer's text reads back as the header and the cell texts.

Where the source changes things step by step, the model uses methods with
loops, and each method is proved equal to a specification function. These are
the `corr` accumulation, the `buildBatchStats` maps, the variety loop, the
note list, the summary pushes, the row pushes of the exports, the radar sums,
the chart pushes, `sanitizeGrid`'s assignments and `buildCursor`. The properties
of the specification functions are then proved as lemmas. The live console is a
class with the component's state as fields.

Sources and model differ in these places, where the model follows the code:

- `bestFitId` and the strong pick take the first row of maximal quality.
  This follows from the requirement of section 22.1.3.27 of ECMA-262 (10th
  edition, ECMAScript 2019) that `Array.prototype.sort` be stable.
- The batch statistics index metrics with `Map.set`, so a response with
  several metric rows is represented by its last row. The "sample metric" is
  the value of the first key inserted, which is the last row for that response.
  The inspector itself uses `metrics.find`, so the first row is shown.
- The per-experiment export takes `text ?? ""` for `responseText`. The detailed
  export also falls back to `content`. `ExportButtons.SameCellsAsDetailed`
  states that the two agree everywhere else.
- `exportCSV` and the per-experiment export write their header names unquoted.
  Their read-back lemmas assume names that need no quoting.
- The strong-pick card is built from the preview with a single ellipsis
  (U+2026). The component writes the suffix as three mis-decoded characters;
  that as-written preview is modelled beside it and listed under "Findings".
- A property assignment to a key the object does not have yet appends the key
  at the end, as JavaScript does. Each such assignment in `sanitizeGrid` and in
  the radar row is proved to add a fresh key.

## Model

| member | source | states |
|---|---|---|
| Numeric.Clamp01 | src/components/analysis/QualityInspector.tsx:7 | the result lies in [0, 1], equals x inside that range, 0 below it and 1 above it |
| Numeric.Round | src/components/analysis/QualityInspector.tsx:194 | `Math.round` gives the integer within half a unit, halves going up |
| Numeric.RoundMonotone | src/components/analysis/QualityInspector.tsx:194 | rounding never reverses an order |
| Numeric.Percent | src/components/analysis/QualityInspector.tsx:194 | a whole percentage in [0, 100]; 0 for x <= 0 and 100 for x >= 1 |
| Numeric.PercentMonotone | src/components/analysis/QualityInspector.tsx:194 | a higher score never shows a lower percentage |
| Numeric.SumSnoc | src/components/analysis/QualityInspector.tsx:8 | the running sum of the `reduce` adds the next element |
| Numeric.Mean | src/components/analysis/QualityInspector.tsx:8 | the mean of the empty list is 0 |
| Numeric.MeanBounds | src/components/analysis/QualityInspector.tsx:8 | the mean of values in [lo, hi] lies in [lo, hi] |
| Numeric.MeanOfConstant | src/components/analysis/QualityInspector.tsx:8 | the mean of a constant list is that constant |
| Numeric.VarianceNonNegative | src/components/analysis/QualityInspector.tsx:11 | the mean of squared deviations is never negative |
| Numeric.Stdev | src/components/analysis/QualityInspector.tsx:9-13 | 0 for fewer than two values, otherwise its square is the population variance; never negative |
| Numeric.CauchySchwarz | src/components/analysis/QualityInspector.tsx:17-18 | the three accumulators satisfy num * num <= dx * dy |
| Numeric.PearsonBounded | src/components/analysis/QualityInspector.tsx:19 | the quotient num / sqrt(dx * dy) lies in [-1, 1] |
| Numeric.CorrBounded | src/components/analysis/QualityInspector.tsx:14-20 | `corr` always lies in [-1, 1], including the 0 of its guards |
| Numeric.CorrSymmetric | src/components/analysis/QualityInspector.tsx:14-20 | `corr(x, y) == corr(y, x)` |
| Numeric.CorrSelf | src/components/analysis/QualityInspector.tsx:14-20 | a non-constant series correlates with itself at exactly 1 |
| Numeric.CorrOfConstant | src/components/analysis/QualityInspector.tsx:19 | a constant series has `dx == 0`, so the result is 0 |
| Numeric.Corr | src/components/analysis/QualityInspector.tsx:14-20 | the accumulating loop computes the coefficient: 0 for empty or mismatched input or a zero spread, otherwise Pearson's coefficient, in [-1, 1] |
| Lexical.LowerChar | src/components/analysis/QualityInspector.tsx:21 | lower-casing leaves no upper-case ASCII letter and keeps token characters |
| Lexical.Lower | src/components/analysis/QualityInspector.tsx:21 | lower-casing works character by character and keeps the length |
| Lexical.RunLength | src/components/analysis/QualityInspector.tsx:21 | the longest prefix of `[a-z0-9']` characters, stopped by a non-token character |
| Lexical.Runs | src/components/analysis/QualityInspector.tsx:21 | every match of `/[a-z0-9']+/g` is non-empty and made of token characters |
| Lexical.RunsCoverWordChars | src/components/analysis/QualityInspector.tsx:21 | the matches put together are the text with every non-token character removed |
| Lexical.RunsAppend | src/components/analysis/QualityInspector.tsx:21 | a text ending in a separator splits into its own matches and those of the rest |
| Lexical.Tokens | src/components/analysis/QualityInspector.tsx:21 | every token is longer than 2 characters and made only of `[a-z0-9']` |
| Lexical.TokensSplit | src/components/analysis/QualityInspector.tsx:21 | tokens on the two sides of a separator are found independently |
| Lexical.SingleWordToken | src/components/analysis/QualityInspector.tsx:21 | a lower-case word longer than two characters is one token |
| Lexical.TokenSet | src/components/analysis/QualityInspector.tsx:71 | the set holds exactly the tokens |
| Lexical.Jaccard | src/components/analysis/QualityInspector.tsx:22 | intersection size over union size, in [0, 1] |
| Lexical.JaccardSymmetric | src/components/analysis/QualityInspector.tsx:22 | the similarity does not depend on argument order |
| Lexical.JaccardBothEmpty | src/components/analysis/QualityInspector.tsx:22 | two empty sets have similarity 0 |
| Lexical.JaccardOne | src/components/analysis/QualityInspector.tsx:22 | the similarity is 1 exactly for identical non-empty sets |
| BatchStats.ParamOf | src/components/analysis/QualityInspector.tsx:26-34 | a parameter is present exactly when it is one of the four names and `params` holds a number there |
| BatchStats.QById | src/components/analysis/QualityInspector.tsx:38-40 | `qById` has a key for every response id that has a metric row |
| BatchStats.QByIdLastWins | src/components/analysis/QualityInspector.tsx:40 | the quality kept for an id is that of its last metric row |
| BatchStats.Scored | src/components/analysis/QualityInspector.tsx:42 | every kept row has a quality |
| BatchStats.QVals | src/components/analysis/QualityInspector.tsx:43 | one quality per scored row |
| BatchStats.Xs | src/components/analysis/QualityInspector.tsx:51-56 | one parameter value per row that carries the parameter |
| BatchStats.Ys | src/components/analysis/QualityInspector.tsx:51-56 | one quality per row that carries the parameter, aligned with the values |
| BatchStats.CollectSamples | src/components/analysis/QualityInspector.tsx:53-56 | the push loop builds exactly those two aligned lists |
| BatchStats.CorrelateParams | src/components/analysis/QualityInspector.tsx:50-58 | the key loop builds exactly the specified correlation record |
| BatchStats.CorrelationKeys | src/components/analysis/QualityInspector.tsx:57 | a parameter has an entry exactly when at least 3 scored rows carry it as a number; otherwise it is absent, not 0 |
| BatchStats.CorrelationValues | src/components/analysis/QualityInspector.tsx:57 | every entry is `corr` of its samples and lies in [-1, 1] |
| BatchStats.BatchCorrelations | src/components/analysis/QualityInspector.tsx:48-58 | the batch's correlations follow the four parameters, restricted to those with enough samples |
| BatchStats.SampleMetric | src/components/analysis/QualityInspector.tsx:61 | `mById.values().next()` is absent only without metrics; otherwise it is the last row for the first response id |
| BatchStats.Column | src/components/analysis/QualityInspector.tsx:65 | one value per scored row, a missing score counting as 0 |
| BatchStats.StatOf | src/components/analysis/QualityInspector.tsx:66 | the spread of a distribution is never negative |
| BatchStats.PerMetric | src/components/analysis/QualityInspector.tsx:62-67 | `perMetric` has exactly the sample metric's score names as keys |
| BatchStats.DistributeScores | src/components/analysis/QualityInspector.tsx:64-67 | the assignment loop builds exactly that record |
| BatchStats.TokById | src/components/analysis/QualityInspector.tsx:70-71 | there is a token set for exactly the ids of the responses |
| BatchStats.IndexTokens | src/components/analysis/QualityInspector.tsx:71 | the `set` loop builds exactly that map |
| BatchStats.IndexMetrics | src/components/analysis/QualityInspector.tsx:40 | the `forEach` builds `qById` and `mById` as specified |
| BatchStats.BuildBatchStats | src/components/analysis/QualityInspector.tsx:37-74 | the whole procedure returns the specified batch statistics |
| BatchStats.QualityOfRows | src/components/analysis/QualityInspector.tsx:40-43 | a response is a row exactly when it has a metric row, and its quality is that of its last metric row |
| BatchStats.SpreadsNonNegative | src/components/analysis/QualityInspector.tsx:44-66 | the quality spread and every per-score spread are non-negative |
| BatchStats.PerMetricEntries | src/components/analysis/QualityInspector.tsx:61-67 | each listed score gets the mean and population spread of that score over the scored rows, missing as 0 |
| Ranking.ItemOf | src/components/analysis/QualityInspector.tsx:81-86 | an item keeps the score's key and value and has a z-score exactly when the batch spread of the key is non-zero |
| Ranking.Items | src/components/analysis/QualityInspector.tsx:81-86 | one item per score, in score order |
| Ranking.TopOf | src/components/analysis/QualityInspector.tsx:90 | filter, stable descending sort and `slice(0, n)` keep min(n, count) items, in order, none beaten by one left out |
| Ranking.PrimaryStrengthsAreTopZ | src/components/analysis/QualityInspector.tsx:90 | at most three strengths, each with a spread and z >= 0.5, by non-increasing z, and the highest ones |
| Ranking.PrimaryWeaknessesAreBottomZ | src/components/analysis/QualityInspector.tsx:91 | at most three weaknesses, each with a spread and z <= -0.5, by non-decreasing z, and the lowest ones |
| Ranking.FlatScoreNeverPrimary | src/components/analysis/QualityInspector.tsx:82-91 | a score whose batch spread is 0, or that has no batch entry, is never a primary pick |
| Ranking.StrongWithoutDivision | src/components/analysis/QualityInspector.tsx:84-90 | with a positive spread, z >= 0.5 exactly when the value exceeds the mean by half a spread (and likewise for -0.5) |
| Ranking.Rank | src/components/analysis/QualityInspector.tsx:77-97 | primary picks when there are any, else the first item of maximal (or minimal) value; both lists non-empty exactly when there are scores, at most three each |
| Narrative.ExplanationsCoverOrder | src/components/analysis/QualityInspector.tsx:100-118 | every metric of `ORDER` has an explanation, in the same order |
| Narrative.ValueSummaryFollowsTable | src/components/analysis/QualityInspector.tsx:120-129 | each metric's verdict is its pass or fail text, chosen by its own threshold test |
| Narrative.ValueSummaryKnownNames | src/components/analysis/QualityInspector.tsx:120-129 | a verdict is non-empty exactly for the seven listed metrics |
| Narrative.CollectParts | src/components/analysis/QualityInspector.tsx:132-136 | the pushes build exactly the specified positive findings |
| Narrative.CollectIssues | src/components/analysis/QualityInspector.tsx:138-141 | the pushes build exactly the specified issues |
| Narrative.HumanSummary | src/components/analysis/QualityInspector.tsx:131-146 | the method returns the summary text of those findings |
| Narrative.PartsThresholds | src/components/analysis/QualityInspector.tsx:133-136 | each positive finding appears exactly when structure > 0.8, readability > 0.7, lexical_diversity > 0.6 or redundancy == 1, missing as 0 |
| Narrative.IssuesThresholds | src/components/analysis/QualityInspector.tsx:139-141 | each issue appears exactly when coherence < 0.4, length_adequacy < 0.5 or completeness < 0.6, missing as 1 |
| Narrative.MissingScoresCountNeither | src/components/analysis/QualityInspector.tsx:131-146 | without scores there is no finding and the text is "No decisive pattern detected." |
| Narrative.SummaryShape | src/components/analysis/QualityInspector.tsx:143-145 | the summary is never empty; it is the fallback exactly without findings, starts with "This response is " when there are positives, and is " However, …." with issues only |
| Narrative.SummaryOfOneEach | src/components/analysis/QualityInspector.tsx:143-145 | one positive and one issue read "This response is p. However, i." |
| Narrative.SummaryExample | src/components/analysis/QualityInspector.tsx:133-141 | structure 0.9 and coherence 0.3 give one praise and one criticism |
| Inspector.LinesCoverScored | src/components/analysis/QualityInspector.tsx:193 | the bullets are exactly the `ORDER` metrics that have a score, each once, in `ORDER`'s order |
| Inspector.LinesShowScores | src/components/analysis/QualityInspector.tsx:193-202 | each bullet shows the whole percentage of the response's own score, the name without underscores, and its verdict |
| Inspector.MetricLinesExplained | src/components/analysis/QualityInspector.tsx:193-201 | every bullet has its explanation and a non-empty verdict |
| Inspector.HintWords | src/components/analysis/QualityInspector.tsx:212 | at most the first three missed keywords, each written as `join` writes it |
| Inspector.KeywordHint | src/components/analysis/QualityInspector.tsx:208-214 | the hint appears exactly for a non-empty `keywordsMissed` array with completeness below 0.4 (missing as 0) and lists those keywords joined by ", " |
| Inspector.HintWithoutCompleteness | src/components/analysis/QualityInspector.tsx:209 | without a completeness score the hint can show while the summary reports no coverage issue |
| Inspector.HintListsFewKeywords | src/components/analysis/QualityInspector.tsx:212 | two keywords are joined by ", "; a null keyword becomes an empty item and a fourth one is cut |
| Inspector.ShowSummary | src/components/analysis/QualityInspector.tsx:220 | a truthy `details.summary` overrides the generated summary; what is shown is never falsy |
| Inspector.PeerSims | src/components/analysis/QualityInspector.tsx:169-173 | every peer similarity lies in [0, 1]; there is none exactly when no other response has a token set |
| Inspector.VarietyOf | src/components/analysis/QualityInspector.tsx:174 | the variety lies in [0, 1] |
| Inspector.Variety | src/components/analysis/QualityInspector.tsx:167-174 | the loop accumulating `avgJac` and `n` computes that variety |
| Inspector.VarietyWithoutPeers | src/components/analysis/QualityInspector.tsx:174 | without peers the variety is 0 |
| Inspector.VarietyOfCopies | src/components/analysis/QualityInspector.tsx:167-174 | peers with the same non-empty token set give variety 0 |
| Inspector.VarietyOfStrangers | src/components/analysis/QualityInspector.tsx:167-174 | peers sharing no token give variety 1 |
| Inspector.NotesOf | src/components/analysis/QualityInspector.tsx:179-182 | one note per correlation with abs(r) >= 0.2 |
| Inspector.ParamNotes | src/components/analysis/QualityInspector.tsx:178-182 | the push loop builds exactly those notes, in correlation order |
| Inspector.NoteWording | src/components/analysis/QualityInspector.tsx:181 | a note says "higher" exactly for r > 0 and "lower" otherwise |
| Inspector.NotesOfCorrelations | src/components/analysis/QualityInspector.tsx:179-182 | every note is about a parameter with at least 3 samples and abs(r) >= 0.2, in order |
| Inspector.NotesOfBatch | src/components/analysis/QualityInspector.tsx:179-182 | the batch's notes concern only the four parameters, each with enough samples |
| Inspector.Inspect | src/components/analysis/QualityInspector.tsx:158-222 | "no metrics" exactly when the focused response or its first metric row is missing; otherwise the bullets, hint and summary as specified, the strengths and weaknesses `rankStrengthsWeaknesses` picks against the batch's per-metric statistics (the primary picks, else the first best or worst score), at most 3 each and non-empty exactly with scores, and the notes and variety of the batch |
| BestPick.Top | src/components/analysis/StrongHighlight.tsx:15-21 | the top row is absent exactly for an empty list |
| BestPick.TopIsFirstMax | src/components/analysis/StrongHighlight.tsx:17-20 | the head of the stable sort is the first row of maximal `overallQuality ?? 0`, and no row is higher |
| BestPick.Pairs | src/app/exports/ExportCenter.tsx:85 | one `{ id, q }` pair per metric row, in order |
| BestPick.BestFitId | src/app/exports/ExportCenter.tsx:82-87 | `bestFitId` is undefined exactly for an empty list |
| BestPick.BestFitIdIsTop | src/app/exports/ExportCenter.tsx:82-87 | otherwise it is the response id of the first row of maximal quality, the same row the strong pick takes |
| BestPick.Best | src/components/analysis/StrongHighlight.tsx:15-25 | a pick is the top row, its quality and a present response with that row's id |
| BestPick.BestExactly | src/components/analysis/StrongHighlight.tsx:15-25 | there is a pick exactly when there are rows and the top row's response exists (no runner-up); its q is at least every row's quality |
| BestPick.PreviewBounds | src/components/analysis/StrongHighlight.tsx:40 | at most 321 characters, starting with the first 320 of the text, with the ellipsis exactly for texts longer than 320, "(no preview)" for a missing or empty text |
| BestPick.PreviewMojibake | src/components/analysis/StrongHighlight.tsx:40 | the suffix as written is three characters, U+00E2 U+20AC U+00A6, instead of one ellipsis |
| BestPick.Chips | src/components/analysis/StrongHighlight.tsx:44-48 | one chip per score, named without underscores, with a percentage in [0, 100] |
| BestPick.Highlight | src/components/analysis/StrongHighlight.tsx:27-58 | a card exactly when there is a pick: the pick's whole percentage, in [0, 100], the preview of its response's text, at most 321 characters, its chips, and its response id to open |
| StableSort.SortDesc | src/components/analysis/QualityCharts.tsx:131 | the sort keeps the length and the multiset of elements |
| StableSort.SortDescSorted | src/components/analysis/QualityCharts.tsx:131 | the result is ordered by non-increasing key |
| StableSort.SortDescStable | src/components/analysis/QualityCharts.tsx:131 | elements with equal keys keep their input order |
| StableSort.FirstMaxIndex | src/components/analysis/StrongHighlight.tsx:17-20 | the first position of a maximal key |
| StableSort.SortDescHead | src/components/analysis/StrongHighlight.tsx:17-20 | the head of the stable descending sort is the first maximal element |
| StableSort.FirstMaxUnique | src/components/analysis/StrongHighlight.tsx:17-20 | any position that no element exceeds and no earlier element equals is that first maximum |
| CsvText.DoubleQuotes | src/app/exports/ExportCenter.tsx:47 | doubling the quotes never shortens the text |
| CsvText.Quote | src/app/exports/ExportCenter.tsx:47 | a quoted cell starts and ends with a double quote |
| CsvText.InsideDoubled | src/app/exports/ExportCenter.tsx:47 | the doubled text and its closing quote read back as the text |
| CsvText.QuoteInjective | src/app/exports/ExportCenter.tsx:47 | different texts never give the same quoted cell |
| CsvText.Field | src/lib/csv.ts:22 | the cell is quoted when the text holds `"`, `,` or LF, verbatim otherwise |
| CsvText.CarriageReturnVerbatim | src/lib/csv.ts:22 | a carriage return alone does not trigger quoting |
| CsvText.QuotedField | src/lib/csv.ts:22 | a quoted cell reads back as its text |
| CsvText.BareField | src/lib/csv.ts:22 | a cell without `"`, `,` or LF reads back verbatim |
| CsvText.CellRoundTrip | src/lib/csv.ts:22 | any cell written for a text reads back as that text |
| CsvText.Lines | src/lib/csv.ts:10-26 | one line per record, its cells joined by commas |
| CsvText.RecordRoundTrip | src/lib/csv.ts:11-24 | a written record reads back as its texts, followed by the records after it |
| CsvText.HeaderThenTable | src/lib/csv.ts:9-28 | a header line of names needing no quoting, LF and a table read back as the header followed by the table; all three writers use it |
| CsvText.TableRoundTrip | src/lib/csv.ts:10-26 | the LF-joined lines read back as the texts they were written from |
| CsvLib.CellText | src/lib/csv.ts:14-20 | null and undefined give the empty text; objects go through JSON and the rest through `String(v)` |
| CsvLib.CellQuoting | src/lib/csv.ts:22 | a cell is quoted exactly when its text holds `"`, `,` or LF, is the text itself otherwise, and reads back as the text |
| CsvLib.CellGrid | src/lib/csv.ts:10-26 | one cell per column per row, for that row's value under that column |
| CsvLib.CellTexts | src/lib/csv.ts:14-20 | the texts those cells stand for |
| CsvLib.EmptyIsNewline | src/lib/csv.ts:28 | no rows give the text "\n" |
| CsvLib.GridEncodes | src/lib/csv.ts:13-23 | every cell encodes the text at its place |
| CsvLib.RowsReadBack | src/lib/csv.ts:9-28 | with rows, the text reads back as the columns and one record per row, one text per column |
| CsvLib.CsvReadsBack | src/lib/csv.ts:1-28 | `exportCSV` reads back as the key union and each row's texts in column order; a missing key reads back as "" |
| Collections.KeyUnion | src/lib/csv.ts:2-7 | the union of all keys, without duplicates, holding exactly the keys of some row |
| Collections.KeyUnionOrder | src/lib/csv.ts:2-7 | the union lists keys in first-seen order |
| Collections.KeyUnionOfUniform | src/app/exports/ExportButtons.tsx:9-11 | rows that all have the same distinct keys give those keys, in that order |
| Collections.FindIndex | src/components/analysis/QualityCharts.tsx:91 | the first position satisfying the predicate, absent exactly when there is none |
| Collections.Find | src/components/analysis/QualityCharts.tsx:91 | `find` returns the first element satisfying the predicate, absent exactly when there is none |
| Collections.SpaceName | src/components/analysis/QualityInspector.tsx:195 | `replaceAll("_", " ")` keeps the length, leaves no underscore and keeps every other character |
| Collections.Take | src/components/analysis/StrongHighlight.tsx:40 | `slice(0, n)` is the prefix of length min(n, length) |
| Collections.DecimalInjective | src/components/charts/MetricsRadar.tsx:29 | different numbers give different `${i + 1}` texts |
| Domain.Get | src/lib/csv.ts:14 | a property read is `undefined` for a missing key or a non-object, otherwise a property of that name |
| Domain.ScoresValue | src/app/exports/ExportCenter.tsx:133 | the scores object has the score names as keys, in order |
| Domain.LastFor | src/app/exports/ExportCenter.tsx:107 | the last metric row of a response id |
| Domain.IndexByResponse | src/app/exports/ExportCenter.tsx:107 | `new Map(metrics.map(...))` has exactly the response ids of the rows as keys |
| Domain.IndexByResponseLastWins | src/app/exports/ExportCenter.tsx:107 | the entry for an id is its last row |
| Domain.FindResponse | src/components/analysis/QualityInspector.tsx:160 | `find` gives a response with the id, absent exactly when there is none |
| Domain.FindMetric | src/components/analysis/QualityInspector.tsx:159 | `find` gives a metric row for the id, absent exactly when there is none |
| ExportCenter.ColsDistinct | src/app/exports/ExportCenter.tsx:9-26 | sixteen distinct column names |
| ExportCenter.ColsPlain | src/app/exports/ExportCenter.tsx:9-26 | no column name needs quoting |
| ExportCenter.Cells | src/app/exports/ExportCenter.tsx:27 | a row has one value per column |
| ExportCenter.AtColumn | src/app/exports/ExportCenter.tsx:50 | reading the j-th column name gives the j-th value: cells follow `COLS` |
| ExportCenter.Grid | src/app/exports/ExportCenter.tsx:50 | every row has one escaped cell per column, in column order |
| ExportCenter.CellTexts | src/app/exports/ExportCenter.tsx:45-48 | the cell text is the string itself, or `JSON.stringify(x ?? "")` for anything else |
| ExportCenter.HeaderOnlyReadsBack | src/app/exports/ExportCenter.tsx:44 | without rows the text is the BOM, the header and LF, which reads back as the header and one empty record |
| ExportCenter.GridEncodes | src/app/exports/ExportCenter.tsx:45-50 | every quoted cell encodes its text |
| ExportCenter.BomThenTable | src/app/exports/ExportCenter.tsx:49-51 | the BOM, a plain header, LF and a table read back as the header followed by the table |
| ExportCenter.RowsReadBack | src/app/exports/ExportCenter.tsx:43-52 | with rows, the text after the BOM reads back as the columns and the cell texts, with no trailing LF |
| ExportCenter.ToCsvReadsBack | src/app/exports/ExportCenter.tsx:43-52 | the detailed export starts with the BOM and reads back as the sixteen names and, per row, the text of each value in `COLS` order |
| ExportCenter.ToPst | src/app/exports/ExportCenter.tsx:29-40 | the time text is empty exactly for a missing timestamp |
| ExportCenter.ExperimentRows | src/app/exports/ExportCenter.tsx:111-140 | one row per response |
| ExportCenter.AllRowsCount | src/app/exports/ExportCenter.tsx:98-141 | `allRows` holds one row per fetched response |
| ExportCenter.ExperimentRowPosition | src/app/exports/ExportCenter.tsx:111-136 | row i has the experiment's id, index i + 1, the response's id, the text falling back to `content` then "", and `isBestFit` exactly for the best-fit response |
| ExportCenter.ExperimentRowMetric | src/app/exports/ExportCenter.tsx:107-134 | without a metric row the quality is "", scores and details `{}`; otherwise they come from the last metric row |
| ExportCenter.ExperimentRowNumbers | src/app/exports/ExportCenter.tsx:121-130 | missing counts and latency become "", missing params `{}`, and the time text is empty only without a timestamp |
| ExportCenter.PushExperimentRows | src/app/exports/ExportCenter.tsx:111-140 | the `forEach` appends exactly the experiment's rows |
| ExportCenter.DetailedCsv | src/app/exports/ExportCenter.tsx:94-143 | the experiment loop and `toCSV` produce the CSV of all rows, experiment after experiment |
| ExportButtons.CellGrid | src/app/exports/ExportButtons.tsx:17 | one escaped cell per header per row, for that row's property |
| ExportButtons.CellTexts | src/app/exports/ExportButtons.tsx:12-15 | the texts those cells stand for |
| ExportButtons.BodyLines | src/app/exports/ExportButtons.tsx:17 | one line per row, in row order |
| ExportButtons.CsvOf | src/app/exports/ExportButtons.tsx:7-19 | the text is empty exactly when there are no rows |
| ExportButtons.ToCsv | src/app/exports/ExportButtons.tsx:7-19 | the push loop builds exactly that text |
| ExportButtons.BodyIsTable | src/app/exports/ExportButtons.tsx:16-18 | the row lines are the lines of the cell grid |
| ExportButtons.GridEncodes | src/app/exports/ExportButtons.tsx:12-17 | every cell encodes the text at its place |
| ExportButtons.LinesReadBack | src/app/exports/ExportButtons.tsx:16-18 | the header line and the row lines read back as the headers and the cell texts |
| ExportButtons.CsvReadsBack | src/app/exports/ExportButtons.tsx:7-19 | with rows, the text reads back as the key union and one record per row, one text per header: rows + 1 lines |
| ExportButtons.MissingKeyCell | src/app/exports/ExportButtons.tsx:13-14 | a property a row lacks is written as the quoted `JSON.stringify("")` |
| ExportButtons.RowKeysDistinct | src/app/exports/ExportButtons.tsx:60-84 | a row has sixteen distinct keys |
| ExportButtons.RowValues | src/app/exports/ExportButtons.tsx:60-84 | sixteen values, one per key |
| ExportButtons.RowOf | src/app/exports/ExportButtons.tsx:58-85 | the row's keys are those of the object literal, in its order |
| ExportButtons.Rows | src/app/exports/ExportButtons.tsx:54-86 | one row per response, every one with those keys |
| ExportButtons.RowsHeader | src/app/exports/ExportButtons.tsx:9-11 | with a response, the header is exactly the row keys in literal order |
| ExportButtons.KeysAreColumns | src/app/exports/ExportButtons.tsx:60-84 | the keys are the detailed export's columns, with latency and the two token counts reordered |
| ExportButtons.ValuesAreCells | src/app/exports/ExportButtons.tsx:60-84 | each value equals the detailed row's cell at the matching column, unless the text is given only as `content` |
| ExportButtons.SameCellsAsDetailed | src/app/exports/ExportButtons.tsx:58-85 | under each key a row holds what the detailed row of the same response holds under that column, with the same exception |
| QualityCharts.OrderDistinct | src/components/analysis/QualityCharts.tsx:56-64 | seven distinct names |
| QualityCharts.KeepIn | src/components/analysis/QualityCharts.tsx:93 | `order.filter(k => keys.includes(k))` keeps exactly the names in both, none for no keys |
| QualityCharts.KeepInOrder | src/components/analysis/QualityCharts.tsx:93 | what is kept is duplicate-free and in the order's order |
| QualityCharts.FirstIndexUnique | src/components/analysis/QualityCharts.tsx:91-92 | the keys come from the one first row with scores |
| QualityCharts.MetricKeysSpec | src/components/analysis/QualityCharts.tsx:90-94 | the radar keys are exactly the `ORDER` names of the first row with scores, each once, in `ORDER`'s order, and none without such a row |
| QualityCharts.HasMetricsIff | src/components/analysis/QualityCharts.tsx:135 | `hasMetrics` holds exactly when some row has scores and the first such row has an `ORDER` name |
| QualityCharts.Column | src/components/analysis/QualityCharts.tsx:102-104 | one clamped value per row, a missing score counting as 0 |
| QualityCharts.KeyScore | src/components/analysis/QualityCharts.tsx:111-112 | a key's radar score is the mean of those values and lies in [0, 1] |
| QualityCharts.KeyScoreOfUniform | src/components/analysis/QualityCharts.tsx:111-112 | when every row has the same score in [0, 1], the radar shows it |
| QualityCharts.PointOf | src/components/analysis/QualityCharts.tsx:109-113 | each point's score lies in [0, 1] and its percent is that score as a whole percentage |
| QualityCharts.Radar | src/components/analysis/QualityCharts.tsx:96-114 | one point per radar key, in key order; none without keys |
| QualityCharts.AddRow | src/components/analysis/QualityCharts.tsx:101-107 | the inner loop adds the row's clamped score to each key's sum and 1 to its count |
| QualityCharts.Accumulate | src/components/analysis/QualityCharts.tsx:98-108 | after all rows each key holds the sum of its column and the number of rows |
| QualityCharts.RadarData | src/components/analysis/QualityCharts.tsx:96-114 | the accumulating computation returns exactly the radar |
| QualityCharts.ScatterOf | src/components/analysis/QualityCharts.tsx:119-121 | a point has the row's id and the whole percentages of coherence and quality, both in [0, 100] |
| QualityCharts.ScatterData | src/components/analysis/QualityCharts.tsx:116-124 | one point per row, in row order |
| QualityCharts.BarOf | src/components/analysis/QualityCharts.tsx:129 | a bar's height lies in [0, 100] |
| QualityCharts.Unsorted | src/components/analysis/QualityCharts.tsx:127-130 | one bar `#i+1` per row before sorting |
| QualityCharts.BarsData | src/components/analysis/QualityCharts.tsx:126-133 | the pushes and the sort give the stably sorted bars |
| QualityCharts.BarsSorted | src/components/analysis/QualityCharts.tsx:131 | one bar per row (the same bars, reordered), non-increasing, equal heights in row order |
| MetricsRadar.ScoreRecords | src/components/charts/MetricsRadar.tsx:12 | the `scores ?? {}` of every row |
| MetricsRadar.ScoreKeysEmpty | src/components/charts/MetricsRadar.tsx:11-16 | the key union is empty exactly when no row has a score |
| MetricsRadar.RespNamesDistinct | src/components/charts/MetricsRadar.tsx:29 | the names `resp{i+1}` are distinct and never `metric` |
| MetricsRadar.RowKeys | src/components/charts/MetricsRadar.tsx:27-30 | a chart row's fields are `metric`, then `resp1` to `respN` |
| MetricsRadar.RowKeysDistinct | src/components/charts/MetricsRadar.tsx:27-30 | those field names are distinct |
| MetricsRadar.RowValues | src/components/charts/MetricsRadar.tsx:27-30 | one value per field |
| MetricsRadar.RowFields | src/components/charts/MetricsRadar.tsx:26-31 | a chart row holds the key under `metric` and the i-th row's score, or 0 when missing, under `resp{i+1}` |
| MetricsRadar.RowStart | src/components/charts/MetricsRadar.tsx:27 | the row starts as `{ metric: k }` |
| MetricsRadar.RowSnoc | src/components/charts/MetricsRadar.tsx:28-30 | each assignment adds a new field at the end |
| MetricsRadar.FillRow | src/components/charts/MetricsRadar.tsx:27-31 | the assignment loop builds exactly the chart row |
| MetricsRadar.Radar | src/components/charts/MetricsRadar.tsx:16-32 | the chart has one row per key, in key order |
| MetricsRadar.RadarPlaceholder | src/components/charts/MetricsRadar.tsx:16-23 | the placeholder is shown exactly when no row has a score; otherwise the keys are distinct and row j names key j |
| MetricsRadar.RadarData | src/components/charts/MetricsRadar.tsx:26-32 | the component's loop returns exactly that view |
| Api.GridKeysDistinct | src/services/api.ts:62-67 | six distinct property names |
| Api.PickedKeys | src/services/api.ts:61-67 | only names among those checked so far are copied |
| Api.PickStep | src/services/api.ts:62-67 | each assignment adds a fresh key at the end when its test holds, and nothing otherwise |
| Api.Sanitized | src/services/api.ts:59-69 | the result is always an object |
| Api.SanitizeGrid | src/services/api.ts:59-69 | the assignments build exactly that object |
| Api.GetPicked | src/services/api.ts:62-67 | a property of the copy is the input's when it was copied, `undefined` otherwise |
| Api.SanitizedSpec | src/services/api.ts:59-69 | `{}` for a falsy or non-object input; only the six names; arrays kept only as arrays, `samples` only as a number, `seed` only as a number or null |
| Api.PickedAgain | src/services/api.ts:62-67 | the sanitized grid passes its own tests again |
| Api.SanitizeIdempotent | src/services/api.ts:59-69 | sanitizing twice is sanitizing once |
| Api.EmptyPicksNothing | src/services/api.ts:60 | `{}` has none of the properties |
| Api.CreatePayload | src/services/api.ts:75 | title, prompt and model are kept and the grid is sanitized |
| Api.CreatePayloadIdempotent | src/services/api.ts:75 | shaping a payload twice changes nothing more |
| Api.RunRequestSpec | src/services/api.ts:80-87 | the path names the id of either input form; a body is sent exactly for a truthy override and is `{ gridOverride: sanitizeGrid(override) }` |
| Api.Pair | src/services/api.ts:153-154 | an encoded pair contains `=` |
| Api.QueryString | src/services/api.ts:155 | the query string is empty exactly without parameters |
| Api.BuildCursor | src/services/api.ts:151-157 | the step-by-step `qs.set` calls give exactly the specified suffix |
| Api.CursorSpec | src/services/api.ts:151-157 | "" exactly when neither a cursor nor a limit is set; otherwise "?" and the pairs, the cursor before the limit |
| LiveConsole.Next | src/components/console/LiveRunConsole.tsx:17-25 | a delta appends `delta ?? ""`; `completed` and `failed` set their status whatever it was; other events change nothing |
| LiveConsole.RunText | src/components/console/LiveRunConsole.tsx:18-19 | the text is the old text followed by the deltas in arrival order |
| LiveConsole.RunStatusKept | src/components/console/LiveRunConsole.tsx:17-25 | without `completed` or `failed` the status does not change |
| LiveConsole.RunStatusLast | src/components/console/LiveRunConsole.tsx:20-23 | the status is set by the last `completed` or `failed`; an earlier `completed` does not block a later `failed` |
| LiveConsole.RunNeverIdle | src/components/console/LiveRunConsole.tsx:14-25 | once a run is watched the status never returns to `IDLE` |
| LiveConsole.Console.constructor | src/components/console/LiveRunConsole.tsx:8-14 | mounting leaves the text empty and the status `RUNNING` with a non-empty run id, `IDLE` without |
| LiveConsole.Console.Reset | src/components/console/LiveRunConsole.tsx:12-15 | a run id change empties the text and sets `RUNNING` or `IDLE` the same way |
| LiveConsole.Console.Step | src/components/console/LiveRunConsole.tsx:17-25 | handling an event updates the state as `Next` says and keeps the console consistent |
| LiveConsole.Console.Feed | src/components/console/LiveRunConsole.tsx:17-25 | handling events one by one gives the state after all of them |
| LiveConsole.Console.Render | src/components/console/LiveRunConsole.tsx:36-57 | nothing without a run id; otherwise the id's first 8 characters, the status, and the text or "…" while it is empty |
| LiveConsole.RenderedBadge | src/components/console/LiveRunConsole.tsx:43-49 | a rendered console always shows one of the three badges, never an idle one |
| SiteHeader.ActiveExtends | src/components/layout/SiteHeader.tsx:13 | an item is active on its own path and, except for "/", on every extension of it |
| SiteHeader.RootOnlyExact | src/components/layout/SiteHeader.tsx:13 | "/" is active only on exactly "/" |
| SiteHeader.NoSegmentBoundary | src/components/layout/SiteHeader.tsx:13 | "/exports-old" activates "/exports" |
| SiteHeader.NavItem | src/components/layout/SiteHeader.tsx:22-26 | a disabled item is a span whatever the path; an enabled one is a link highlighted exactly when active |
| SiteHeader.Nav | src/components/layout/SiteHeader.tsx:39-41 | the three items are rendered enabled |
| SiteHeader.ActiveApart | src/components/layout/SiteHeader.tsx:13 | two hrefs that differ at a position both reach are never active together |
| SiteHeader.NavLinks | src/components/layout/SiteHeader.tsx:39-41 | all three items are links and at most one is highlighted on any path |
| Ui.Classes | src/lib/ui.tsx:4 | at most one kept string per argument, none of them empty |
| Ui.ClassesAppend | src/lib/ui.tsx:4 | filtering keeps the argument order |
| Ui.ClassesMember | src/lib/ui.tsx:4 | a string is kept exactly when it is a non-empty string argument; `false`, `null`, `undefined` and "" are dropped |
| Ui.CnEmpty | src/lib/ui.tsx:4 | the result is "" exactly when no argument is kept |
| Ui.CnAppend | src/lib/ui.tsx:4 | the kept strings of two argument lists are joined by one space |
| Ui.CnSingle | src/lib/ui.tsx:4 | a single non-empty string among falsy arguments is returned as it is |

## Left out

- Network and streaming: `getJSON`, `postJSON`, the query hooks, `openRunStream` and `fetchAllPages`. The model starts from the fetched data and the request each call would post.
- Stream: the console receives already decoded events. The JSON decoding of stream payloads is not part of this model, and a delta that is not a string is not modelled.
- Browser work: the Blob and object-URL downloads, the JSON export file, printing and the auto-scroll effect. They are output, not computation.
- Charts: Recharts rendering and the JSX layout. The model stops at the data handed to the charts.
- Foreign calls: `JSON.stringify`, `String(v)`, `toFixed(2)`, the Date/Intl formatting in `toPST` and `URLSearchParams` encoding are function parameters with no further properties.
- Lower-casing: `toLowerCase` and the token pattern are restricted to ASCII.
- Floating point: numbers are reals, so IEEE rounding, NaN and infinities are not modelled.
- QualityCharts.KeyScore: does not model the `Number.isNaN` skip, because without NaN every row counts.
- Numeric.Percent: does not model the mapping of a non-finite input to 0, because every real is finite.
- Display text: `formatPct`, the `toFixed(2)` text in the notes, the parameter chips and the wording of the z-score display are only modelled as far as the bullets and notes above state.
- QualityCharts.Label: has no lemma about its spelling; it is a fixed lookup with `LABEL[k] ?? k`.
- QualityCharts: the `byId` map is left out, because none of the chart data reads it.
- Sorting: the stable sorts of `barsData` and the picks are modelled on sequences. JavaScript sorts an array in place, but the source sorts fresh arrays or copies, so the input is never reordered; Dafny values cannot be reordered anyway.
- BestPick.PreviewBounds: lengths and slices count code points (Dafny characters), while `text.length` and `slice(0, 320)` count UTF-16 code units. The two agree on text without characters outside the Basic Multilingual Plane. A slice that splits a surrogate pair leaves a lone surrogate, which the model cannot represent.
- Collections.Take: counts code points, not UTF-16 code units, for the same reason. This also applies to the 8-character run id in `LiveConsole.Console.Render`.
- BestPick.Highlight: shows the corrected preview with U+2026 rather than the three-character suffix the component writes, so a long text's card preview is 321 characters where the component shows 323. `BestPick.PreviewMojibake` states the as-written length.
- Collections.KeyUnion: lists keys in first-seen order. `Object.keys` lists integer-like names ("0", "42") first, in ascending numeric order, so for rows with such keys the column order of `exportCSV`, the per-experiment export and the radar differs from the model. The property names the frontend writes itself are not integer-like; score names and the rows given to `exportCSV` come from data.
- CsvLib.CsvReadsBack: stated only for column names that need no quoting, because `exportCSV` writes the header unquoted and a name with a comma would not read back.
- ExportButtons.CsvReadsBack: stated only for header names that need no quoting, for the same reason.
- Metric rows: the `versions` field is not modelled, because no modelled computation reads it.
- SiteHeader: `useHasExperiments` and the unused `guard` are left out. `NavItem` takes the path as a parameter rather than calling `usePathname`.
- Also not part of this model: the stores, forms, presets, the run banner, the stream animation, the pages and the configuration.

## Findings

| source | as written | input that shows it | evidently intended | confidence | as-written member | corrected member |
|---|---|---|---|---|---|---|
| src/components/analysis/StrongHighlight.tsx:40 | a text longer than 320 characters gets the three-character suffix U+00E2 U+20AC U+00A6 ("â€¦"), the UTF-8 bytes of an ellipsis decoded as Windows-1252 | any response text of 321 characters | a single ellipsis U+2026 | not executed | BestPick.PreviewMojibake | BestPick.PreviewBounds |
