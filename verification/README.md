# CBS well-being dashboard: data pipeline model

This project models the data pipeline under the Streamlit dashboard `untitled91.py`.
The dashboard analyses well-being survey scores from the CBS open-data service.
Each stage is written as pure functions over sequences of rows:

- **Code mapper.** The fixed table from CBS category codes (`Kenmerken`) to labels.
- **Normaliser.** Runs `dropna` over every column of the frame, then projects to the eight relevant columns (a missing column is a `KeyError`). It strips the code, keeps only rows whose code is in the table and replaces the code by its label. Last, it turns `Perioden` into a year with `int(str(period)[:4])`.
- **Merger.** Appends the supplementary rows after the primary rows. Each supplementary row gets the constant category `"Team 7"`.
- **Composite.** `TotaalTevredenheid`, the mean of the five scores, computed exactly over `real`.
- **Filter.** Keeps a row when its year is in the inclusive slider range and its category is among the chosen ones. The slider's default range is the table's own min/max year.
- **Comparison gate.** Decides what the statistics page does: no data, fewer than two chosen groups, insufficient data in some chosen group, or a Welch t-test on the first two groups. The result is significant when p < 0.05.

Modules, one per file: `Wrappers` (Option/Result), `Seqs` (order-preserving selection), `Text` (Python's `str.strip()` and `int()` on strings), `Table` (records), `CodeMapper`, `Normalizer`, `Merger`, `Composite`, `FilterEngine`, `Comparison`, `Pipeline` (the base table and the statistics page end to end).

The normaliser takes the code table as a parameter. `Pipeline.BaseTable` passes the source's fixed table, `CodeMapper.Mapping`.

Behaviour of the code that is easy to misread:

- `dropna()` runs before the projection. A row with a null in *any* column of the frame is dropped, not only a null in the score or code columns (`Normalizer.DropIncomplete`, `Pipeline.NullOutsideProjectionDrops`).
- A period whose first four characters `int()` rejects aborts the whole batch. It is not skipped row by row (`Normalizer.BadPeriodAbortsBatch`). Only rows that survive `dropna` and the mapping filter are converted. A bad period on a dropped row is harmless (`Normalizer.DroppedRowIgnored`).
- The year is not always four digits. `int()` accepts surrounding whitespace, a sign and single underscores between digits, so `" 12"` gives 12 and `"-12"` gives -12. The whitespace `int()` skips is narrower than the whitespace `strip()` removes: the ASCII separators U+001C..U+001F are stripped from a code but make a period unreadable (`Text.IsIntSpace`, `Text.SeparatorPaddingExample`). Four leading digits give their value, at most 9999 (`Text.FourDigitPrefix`). Every accepted prefix lies in [-999, 9999] (`Text.ParsedPrefixRange`).
- The "insufficient data" check covers every chosen group, not only the two being compared (`Comparison.ShortLaterGroupBlocks`).
- An empty filtered table shows "no data" before any group check (line 122).
- The multiselect only offers the education levels and `"Team 7"`. So with the default choice, rows for totals, sexes and age groups never reach the statistics (`FilterEngine.DefaultChoiceExcludesOtherCategories`).

Inputs that stand for code outside the model:

- `show: real -> string` is pandas' `astype(str)` rendering of a numeric cell. A null cell never reaches `astype(str)`, because `dropna` runs first; `AsStr` maps it to `"nan"` only to be total.
- `pValue: (seq<real>, seq<real>) -> real` is the p-value of `scipy.stats.ttest_ind(a, b, equal_var=False)`. For two constant groups with equal means scipy gives NaN, which compares false with 0.05. Any real `p >= 0.05` stands in for it, because the page then reports no significant difference (`Comparison.NotSignificantAboveAlpha`).
- `fetched: Option<RawTable>` is the result of the HTTP request. It is `None` when the status was not 200.
- The supplementary file is an input sequence of `Merger.Supplementary` rows. Their year is an `int` and their scores are `real`.

## Model

| member | source | states |
|---|---|---|
| CodeMapper.MappingInjective | untitled91.py:45-61 | No two codes of the table share a label |
| CodeMapper.LabelsAreNotCodes | untitled91.py:45-61 | No label is itself a code of the table |
| Seqs.Keep | untitled91.py:67 | Row selection keeps exactly the rows that satisfy the test, each one a row of the input |
| Seqs.KeepAppend | untitled91.py:75 | Selection distributes over concatenation, so kept rows stay in their original relative order |
| Seqs.KeepAll | untitled91.py:117-118 | When every row passes the test, selection returns the input unchanged |
| Seqs.KeepSingleton | untitled91.py:75 | A single row is kept exactly when it passes the test |
| Seqs.KeepIdempotent | untitled91.py:116-119 | Selecting twice with the same test is selecting once |
| Seqs.KeepNone | untitled91.py:118 | When no row passes the test, selection returns nothing |
| Seqs.FirstFailing | untitled91.py:77 | Finds no position exactly when every element passes the test; otherwise the position found fails the test and every earlier element passes |
| Seqs.KeepCongruent | untitled91.py:116-119 | Two tests that agree on every row select the same rows |
| Text.Trim | untitled91.py:74-77 | Trimming returns the slice between the leading and the trailing run of the given whitespace class, removing nothing else, and the result neither starts nor ends with such a character |
| Text.TrimUnpadded | untitled91.py:74-77 | A string that neither starts nor ends with a character of the class is its own trim |
| Text.Strip | untitled91.py:74 | `strip()` returns the slice between leading and trailing whitespace, removing whitespace only, and the result neither starts nor ends with whitespace |
| Text.StripIdempotent | untitled91.py:74 | Stripping twice is stripping once |
| Text.StripUnpadded | untitled91.py:74 | A string without whitespace at either end is its own strip |
| Text.ParseInt | untitled91.py:77 | `int()` yields a number exactly when the string spells one (`int()` whitespace, an optional sign, a digit group with single underscores, `int()` whitespace), and then it is the number spelled |
| Text.SpellingAnchored | untitled91.py:77 | A spelling of an integer is unique: its sign or first digit is the first non-whitespace character and its last digit the last one |
| Text.Prefix | untitled91.py:77 | `s[:n]` has length min(n, len(s)) and is a prefix of `s` |
| Text.StripExample | untitled91.py:74 | The padded code " 3000 " strips to "3000" |
| Text.FourDigitPrefix | untitled91.py:77 | When a period starts with four decimal digits, `int(period[:4])` is their decimal value, at most 9999 |
| Text.ParsedPrefixRange | untitled91.py:77 | Any year `int()` reads from four characters lies between -999 and 9999 |
| Text.ForeignCharacterRejected | untitled91.py:77 | A character that is not `int()` whitespace, digit, sign or underscore makes `int()` fail wherever it stands |
| Text.PeriodExample | untitled91.py:77 | "2019JJ00" gives the year 2019 |
| Text.NonNumericPeriodExample | untitled91.py:77 | A period with a non-numeric prefix ("JJ2019") is rejected |
| Text.SeparatorPaddingExample | untitled91.py:74-77 | U+001C is removed by `strip()` from a code but makes `int()` reject a period prefix |
| Normalizer.DropIncomplete | untitled91.py:67 | Exactly the rows with no null in any column of the frame are kept, each one an input row |
| Normalizer.FirstMissing | untitled91.py:70-73 | The projection fails exactly when one of the eight relevant columns is absent, and it names one of the absent columns |
| Normalizer.Relabel | untitled91.py:74-76 | The rows with a mapped stripped code are kept, in order, and each carries the label of its code |
| Normalizer.FirstBadPeriod | untitled91.py:77 | Reports a rejected period prefix exactly when some kept row's period fails `int()`, and the prefix it reports is that of the first such row |
| Normalizer.Numeric | untitled91.py:83-87 | The five scores can be read as numbers exactly when every one of them is a number, and then the numbers are the cells' own values, each in its own field |
| Normalizer.Finish | untitled91.py:77 | The year conversion succeeds exactly when every kept row converts; the i-th output row is the i-th kept row with its year and numeric scores; a reported bad period is the prefix of a kept row `int()` rejects, and this stage never reports a missing column |
| Normalizer.Normalize | untitled91.py:67-77 | Every output row carries a label from the code table's range and a non-null identifier |
| Normalizer.SurvivorWellFormed | untitled91.py:67-76 | A row that survives `dropna` and the mapping has an identifier and a label from the table's range |
| Normalizer.RelabelAppend | untitled91.py:74-76 | Relabelling distributes over concatenation |
| Normalizer.RelabelSingleton | untitled91.py:75-76 | A single row is relabelled exactly when its stripped code is mapped |
| Normalizer.SurvivorsMatch | untitled91.py:67-76 | The source's two passes (`dropna`, then the mapping filter) keep the same rows, in the same order, as one pass testing both conditions |
| Normalizer.SurvivorsAppend | untitled91.py:67-76 | Survival is decided row by row, so the survivors of a concatenation are the survivors of each part in order |
| Normalizer.SurvivorMembership | untitled91.py:67-76 | A labelled row survives exactly when it is the labelling of a complete input row whose stripped code is mapped |
| Normalizer.NormalizeOutput | untitled91.py:67-77 | On success the output has one row per survivor, in order, with the survivor's identifier, label, parsed year and scores |
| Normalizer.NormalizeFails | untitled91.py:70-77 | Normalisation fails exactly when a relevant column is missing or some survivor has an unreadable period or a non-numeric score |
| Normalizer.MissingColumnReported | untitled91.py:73 | A reported missing column is a relevant column the frame lacks |
| Normalizer.SameSurvivorsSameOutcome | untitled91.py:67-77 | Two frames with the same columns and the same survivors normalise to the same outcome |
| Normalizer.DroppedRowIgnored | untitled91.py:67-77 | An incomplete or unmapped row anywhere in the frame has no effect on the outcome, even with a bad period |
| Normalizer.BadPeriodAbortsBatch | untitled91.py:77 | One survivor with an unreadable period fails the whole batch with a period error |
| Merger.Merge | untitled91.py:80 | The combined table is the primary rows unchanged and in order, then each supplementary row in order with category "Team 7" and its own identifier, year and scores |
| Merger.MergeCategories | untitled91.py:42 | Every category of the combined table is a primary category or "Team 7" |
| Merger.MergeAppend | untitled91.py:80 | Merging no rows is the identity, and merging two batches one after the other is merging their concatenation |
| Composite.CompositeScore | untitled91.py:83-87 | Five times the composite is the sum of the five scores, and it lies between the least and the greatest score |
| Composite.Augment | untitled91.py:83-87 | One scored row per row, in order; each row is unchanged and five times its composite is its score sum |
| Composite.CompositeInRange | untitled91.py:83-87 | Scores on a common scale give a composite on that scale |
| Composite.CompositeMonotone | untitled91.py:83-87 | Raising any score never lowers the composite |
| Composite.CompositeExample | untitled91.py:83-87 | The scores 8, 6, 7, 9, 5 give exactly 7 |
| Composite.AugmentAppend | untitled91.py:83-87 | Computing the composite column before or after concatenation gives the same table |
| FilterEngine.Filter | untitled91.py:116-119 | A row is kept exactly when its year lies in the inclusive range and its category is chosen; kept rows come from the table |
| FilterEngine.FilterAppend | untitled91.py:116-119 | Filtering keeps table order |
| FilterEngine.EmptySelection | untitled91.py:118 | Choosing no category gives an empty table, whatever the year range |
| FilterEngine.FilterIdempotent | untitled91.py:116-119 | Filtering twice with the same settings is filtering once |
| FilterEngine.YearSpan | untitled91.py:99-100 | An empty table has no year span; otherwise both bounds are years of the table and every year lies between them |
| FilterEngine.FullSpanKeepsEveryYear | untitled91.py:99-101 | With the default slider range the year test excludes nothing |
| FilterEngine.DefaultChoiceExcludesOtherCategories | untitled91.py:90-97 | With the default multiselect choice no totals, sex or age-group row passes the filter |
| Comparison.Group | untitled91.py:163 | A group is the chosen measure of each row of its category, in table order |
| Comparison.GroupSize | untitled91.py:163-165 | A group has one value per row of its category |
| Comparison.GroupSnoc | untitled91.py:163 | Appending a row adds its measure to its own category's group only |
| Comparison.CollectGroup | untitled91.py:163 | A scan over the table builds exactly the group of a category |
| Comparison.CollectGroups | untitled91.py:163 | The list of groups has one group per chosen category, in choice order |
| Comparison.AllLarge | untitled91.py:165 | The `all` check holds exactly when every group has more than one value |
| Comparison.GroupSizes | untitled91.py:163 | Each chosen category's group has one value per row of that category |
| Comparison.Analyse | untitled91.py:122-179 | "No data" exactly when the filtered table is empty; "too few groups" exactly when it is not and fewer than two categories are chosen; "insufficient data" exactly when two or more are chosen and some chosen group has at most one value; otherwise the groups of the first two chosen categories are compared, each with more than one value, and the result is significant exactly when p < 0.05 |
| Comparison.RunAnalysis | untitled91.py:161-176 | The loop-based page logic gives the same verdict as the declarative gate |
| Comparison.ComparedExactly | untitled91.py:161-176 | The test runs exactly when the table is non-empty, at least two categories are chosen and each has more than one row |
| Comparison.OnlyFirstTwoCompared | untitled91.py:167 | Choices that agree on the first two categories and have enough data give the same verdict |
| Comparison.ShortLaterGroupBlocks | untitled91.py:165 | A chosen category beyond the first two with at most one row still gives "insufficient data" |
| Comparison.EnoughDataNeedsRows | untitled91.py:122 | When every chosen group has more than one row the table is not empty, so "no data" never hides a runnable test |
| Comparison.CountBound | untitled91.py:163 | A category cannot have more rows than the table |
| Comparison.NotSignificantAboveAlpha | untitled91.py:169-172 | A p-value at or above 0.05 is never reported as significant |
| Pipeline.BaseTable | untitled91.py:63-87 | The base table fails exactly when the fetch failed, the frame is empty or normalisation fails; otherwise it has one row per normalised and supplementary row, each with a mapped label or "Team 7" and its composite; which rows come where is stated by `Pipeline.BaseTableRows` |
| Pipeline.BaseTableRows | untitled91.py:63-87 | The combined table holds the normalised rows first, in order, and after them each supplementary row in order, tagged "Team 7" |
| Pipeline.StatisticsPage | untitled91.py:116-179 | The page shows "no data" exactly when no row of the base table passes the year and category filter; with nothing chosen it always shows "no data", never the request for two groups |
| Pipeline.SupplementaryIgnoredWhenUnchosen | untitled91.py:116-119 | When "Team 7" is not chosen, the supplementary rows never reach the filtered table |
| Pipeline.StatisticsIgnoreSupplementary | untitled91.py:159-176 | Comparing two chosen code-table categories gives the same verdict whatever supplementary rows were merged in |
| Pipeline.NormalizeSample | untitled91.py:74-77 | A complete row with code " 3000 " and period "2019JJ00" normalises to a "Male" row for 2019 |
| Pipeline.NullOutsideProjectionDrops | untitled91.py:67-73 | A null in a column outside the eight relevant ones still drops the row |

## Left out

- The HTTP request and the `@st.cache_data` memoisation (untitled91.py:25-36) are network I/O and process-wide caching. The fetch result is the input `fetched`.
- The CSV load of the supplementary file (untitled91.py:39) is file I/O. Its rows are the input sequence `supplementary`, typed with an integer year and real scores. The source never converts their period, and NaN scores in that file are not modelled.
- Streamlit widgets, page navigation and every `st.*` output (untitled91.py:12-19, 96-113, 121-181) are UI. The sidebar's choices are parameters.
- Plotly charts and the group-by aggregation behind the line plot (untitled91.py:138-157) are rendering.
- Mean, maximum, minimum, standard deviation, median and the Welch t-test (untitled91.py:125-129, 167) are floating-point numerics from pandas and scipy. Only the p < 0.05 decision is modelled, with the p-value as the input function `pValue`.
- Scores are exact `real` numbers, so floating-point rounding of the composite is not modelled.
- Text.ParseInt accepts ASCII decimal digits only. Python's `int()` also accepts other Unicode decimal digits.
- Text.ForeignCharacterRejected treats a non-ASCII decimal digit such as U+0662 as foreign, for the same reason: Python's `int()` accepts it.
- Normalizer.AsStr leaves pandas' rendering of a numeric code or period cell to the parameter `show`, because float-to-string formatting is not part of this model.
- Normalizer.Finish reports a text score as a normalisation failure. In the source the same batch fails later, when the composite at line 83 raises a TypeError.
- Normalising an already normalised table: no label is a code (`CodeMapper.LabelsAreNotCodes`), so the source cannot re-run its mapping on its own output. This idempotence is not stated.
