# logstack, modelled in Dafny

logstack collects error-count snapshots ("flamecharts") and stores one row per prefix and upload.
A prefix is a slash-separated path such as `/api/users`. Each row also holds an error count, the
upload uuid, the file name, a from/to date, the upload time and an optional environment. On top of
that store, logstack answers analytic queries:

- the paged row listing;
- per-upload totals;
- per-prefix improvement and degradation counts between consecutive uploads;
- linear error trends per prefix and for one prefix's chart;
- per-prefix and per-date summary statistics (sum, mean, median, spread, min, max);
- a side-by-side comparison of two uploads;
- next-segment autocompletion for prefixes.

The model covers the query layer in `logstack/controllers.py` and the ingestion endpoints:

- `logstack/api/ingestion.py` turns an uploaded text file into rows, or stores a single event.
- `logstack/file_management_api.py` is the older file upload without an environment.

The store is an immutable sequence of `Store.Record` values in insertion order. Each query is a
function of that sequence and of the request parameters.

A few conventions hold throughout the model:

- **Ordering.** SQL `ORDER BY` and Python's `sorted` are both one stable insertion sort,
  `Seqs.SortBy`. It takes any total preorder. `OFFSET`/`LIMIT` is `Seqs.Page`.
- **Grouping.** `GROUP BY` yields groups in order of the key's first appearance (`Store.GroupKeys`,
  `Store.Members`).
- **Code with loops.** The code that works with loops is modelled as methods with loop invariants,
  each proved equal to a specification function:
  - `calculate_trends` → `Trends.CalculateTrends`;
  - the segment loop of `get_prefix_autocomplete` → `Autocomplete.CollectSegments`;
  - the line loops of both `upload_file` endpoints → `Ingest.UploadLines`, `Ingestion.UploadFile`,
    `FileManagement.UploadFile`.
- **Integers** are unbounded, as in Python.
- **Floating-point results** (mean, median, `np.polyfit`) are exact reals.

Modules:

- `Wrappers` holds `Option` and `Result`.
- `Text` models the Python string operations used: `strip`, `rstrip(c)`, `replace`, `rsplit(" ", 1)`,
  `split`, `startswith` and code-point order.
- `Seqs` holds the generic sorting, filtering, paging and deduplication.
- `Orders` holds the orderings used by the queries.
- `Store` holds the row type and the prefix filters.
- `Regression` holds the least-squares line fit.
- `Uploads`, `Diffs`, `Trends`, `TrendViews`, `Stats`, `Compare` and `Autocomplete` hold the queries.
- `Ingest` holds the parsing of an upload line and of a whole file.
- `Ingestion` and `FileManagement` hold the endpoints.

## Model

| member | source | states |
|---|---|---|
| Store.ApplyPrefixFilter | logstack/controllers.py:10-15 | Without a prefix, nothing is filtered. With one, a row is kept exactly when its prefix starts with the query with all trailing `/` removed. |
| Store.TrailingSlashIgnored | logstack/controllers.py:12-14 | A trailing `/` on the query does not change the filtered rows. |
| Store.StartsWithFilter | logstack/controllers.py:25-26 | The `startswith(prefix)` filter keeps exactly the rows whose prefix starts with the query, and keeps everything without one. |
| Uploads.ListUploadTimes | logstack/controllers.py:18-41 | The result is one page of rows, exactly as long as the rows under the prefix leave for that page, ordered by upload time. Every row is a stored row under the prefix. A page past the end is empty. |
| Uploads.EveryUploadTimeListed | logstack/controllers.py:24-40 | Every stored row under the prefix appears on some page. |
| Uploads.GetAllUploads | logstack/controllers.py:44-87 | An unknown `order_by` is a KeyError naming it. Otherwise the result is one page of the per-upload totals, exactly as long as the totals leave for that page. |
| Uploads.EveryUploadPaged | logstack/controllers.py:44-87 | Every per-upload total appears on some page, whatever the ordering. |
| Uploads.GetAllUploadsOrdered | logstack/controllers.py:76 | A page of totals is ordered by the chosen column, ascending or descending. |
| Uploads.UploadTotals | logstack/controllers.py:64-75 | No upload (uuid, file name, time) is listed twice. |
| Uploads.UploadTotalsAreGroupSums | logstack/controllers.py:60-75 | Each listed upload has a stored row, and its `errors_total` is the sum of its rows' error counts. |
| Uploads.EveryUploadTotalled | logstack/controllers.py:71-75 | Every stored row's upload is listed. |
| Uploads.UploadTotalsAddUp | logstack/controllers.py:60-75 | The listed totals add up to the total error count of the store. |
| Diffs.Lag | logstack/controllers.py:103-107 | `lag()` gives one diff per row of a partition. |
| Diffs.LagTelescopes | logstack/controllers.py:103-107 | The diffs along a partition add up to its last error count minus its first. |
| Diffs.LinesArePrefixLines | logstack/controllers.py:122-130 | Each aggregated line is the line of a listed prefix. |
| Diffs.LinesDistinct | logstack/controllers.py:130 | No two aggregated lines share a prefix. |
| Diffs.DiffLinesArePrefixLines | logstack/controllers.py:109-130 | Under the trailing-slash-normalised prefix filter and the uuid filter, there is one line for each prefix that has a kept row, and no other line. |
| Diffs.NoImprovementNoDrop | logstack/controllers.py:123 | Without an improvement, the diffs cannot add up to a drop. |
| Diffs.NoDegradationNoRise | logstack/controllers.py:124 | Without a degradation, the diffs cannot add up to a rise. |
| Diffs.NetChangeIsCounted | logstack/controllers.py:103-130 | A prefix whose latest count is below its earliest has at least one improvement. One whose latest count is above its earliest has at least one degradation. |
| Diffs.DiffOrderTotal | logstack/controllers.py:140 | Ordering by improvements or degradations is a total preorder. |
| Diffs.GetUploadDiffs | logstack/controllers.py:131-140 | As written: the result is an error exactly when `order_by` is unknown and the page is non-empty, and that error is a KeyError. Otherwise it is the page's lines, permuted into the chosen order. |
| Diffs.FallingLines | logstack/controllers.py:103-130 | Rows "a" (once) and "b" (5 then 3) give "a" no change and "b" one improvement. |
| Diffs.OneLinePage | logstack/controllers.py:131-140 | A one-line page is returned as it is, whatever the order. |
| Diffs.PagingBeforeSortingMisorders | logstack/controllers.py:131-140 | As written, page 1 of a by-improvements, descending, one-line-per-page listing shows the line with 0 improvements and page 2 the one with 1. |
| Diffs.GetUploadDiffsSorted | logstack/controllers.py:90-140 | Corrected, with order before paging: the result is a KeyError exactly when `order_by` is unknown and the query has some line, whichever page is asked for. Otherwise it is one page of the query's lines, exactly as long as the lines leave for that page, in the chosen order. |
| Diffs.EveryDiffLinePaged | logstack/controllers.py:131-140 | Corrected: every line of the query appears on some page. |
| Diffs.SortedPagesInOrder | logstack/controllers.py:131-140 | Corrected: every line on a page ranks at or above every line on the next page. |
| Diffs.SortingBeforePagingOrders | logstack/controllers.py:131-140 | Corrected, the line with 1 improvement comes first. |
| Regression.FitMeetsNormalSums | logstack/controllers.py:157 | The fitted line (`Regression.Fit`, the least-squares solution) meets both normal equations written with the raw sums of x, y, x² and xy. |
| Regression.NormalEquations | logstack/controllers.py:157 | The fitted slope and intercept satisfy the normal equations of least squares. |
| Regression.FitMinimisesSquaredError | logstack/controllers.py:157 | No line has a smaller sum of squared errors than the fitted one (`np.polyfit(x, y, 1)`). |
| Regression.PositionsSpread | logstack/controllers.py:155-157 | The x values 0..n-1 with n >= 2 have positive spread, so the fit is well defined. |
| Trends.RunsAreGrouping | logstack/controllers.py:149 | `groupby` is a grouping of the rows: its runs are non-empty, share one key each, differ in key from their neighbours and concatenate back to the rows. |
| Trends.RunsFlatten | logstack/controllers.py:149 | `groupby` splits the rows into consecutive runs that concatenate back to the rows. |
| Trends.RunsOneKey | logstack/controllers.py:149 | All rows of a run share its key. |
| Trends.RunsSplitAtKeyChanges | logstack/controllers.py:149 | Adjacent runs have different keys, so runs are maximal. |
| Trends.InOrder | logstack/controllers.py:150 | A run's rows sorted by the sorting key are a permutation of the run, in ascending order. |
| Trends.FitCountsIsLeastSquares | logstack/controllers.py:155-157 | The fit of a run's error counts against their positions minimises the squared error and zeroes both residual sums. |
| Trends.CalculateTrends | logstack/controllers.py:143-160 | The loop returns one (key, line) per run, in order. A run of fewer than two rows gets (1, 0); any other run gets the least-squares fit. |
| Trends.SortedRunsHaveDistinctKeys | logstack/controllers.py:207-216 | When the rows are ordered by key, the trend keys are strictly ascending, so each key has exactly one trend. |
| Trends.RunKeysAreKeys | logstack/controllers.py:149 | The run keys are exactly the keys of the rows. |
| Trends.TrendKeysFromRows | logstack/controllers.py:148-160 | Every trend's key is some row's key. |
| Trends.RowKeysHaveTrends | logstack/controllers.py:148-160 | Every row's key has a trend. |
| Trends.Lookup | logstack/controllers.py:180-183 | `dict(...).get(prefix, (1, 0))` returns (1, 0) when the key is absent. Otherwise it returns the line of the last entry with that key, as building a dict keeps the last value. |
| TrendViews.SeriesOrderedByKey | logstack/controllers.py:207-211 | The series is ordered by prefix. |
| TrendViews.TrendsFromMatchingRows | logstack/controllers.py:207-216 | Every trend's prefix is the prefix of some row matching the filter. |
| TrendViews.MatchingRowsHaveTrends | logstack/controllers.py:207-216 | Every row matching the filter has a trend for its prefix; with the row above, the trends are exactly those of the matching prefixes. |
| TrendViews.ComputeTrends | logstack/controllers.py:195-229 | The result is one page of trends, exactly as long as the trends leave for that page, with prefixes strictly ascending (or strictly descending), each a trend of the filtered series. |
| TrendViews.EveryTrendPaged | logstack/controllers.py:218-229 | Every trend of the filtered series appears on some page. |
| TrendViews.TrendKeysDistinct | logstack/controllers.py:216-217 | No prefix has two trends. |
| TrendViews.Substr | logstack/controllers.py:164-167 | `substr(prefix, 1, n)` is the first n characters, or the whole prefix when it is shorter. |
| TrendViews.ChartQueryTotals | logstack/controllers.py:168-179 | Each chart bucket is labelled with the query and carries the total error count of its (upload, to_date) group. |
| TrendViews.ChartQueryCovers | logstack/controllers.py:168-179 | Every matching row falls in some bucket. |
| TrendViews.ChartQueryDistinct | logstack/controllers.py:176 | No two buckets share a group. |
| TrendViews.ChartQueryAscending | logstack/controllers.py:177 | Buckets come in ascending to_date order. |
| TrendViews.ChartSeriesIsOneRun | logstack/controllers.py:180-182 | The chart's samples form a single run, already in to_date order. |
| TrendViews.ChartLine | logstack/controllers.py:180-183 | The looked-up line is the least-squares fit of the bucket totals, or (1, 0) for fewer than two buckets. |
| TrendViews.ChartPredictsOwnFit | logstack/controllers.py:183-192 | The n-th point predicts slope * n + intercept, using the fit of the chart's own error counts. |
| TrendViews.ComputeTrendChart | logstack/controllers.py:163-192 | There is one point per bucket of the chart query, in the query's order, carrying that bucket's upload, to_date and total. |
| TrendViews.ChartSums | logstack/controllers.py:173-192 | Each point's error count is the total of its (upload, to_date) group. |
| TrendViews.ChartCoversRows | logstack/controllers.py:175-192 | Every matching row's upload and to_date has a point. |
| TrendViews.ChartOrder | logstack/controllers.py:176-192 | Points are in ascending to_date order, and no two share both upload and to_date. |
| Stats.MeanBetween | logstack/controllers.py:242 | `avg` lies between `min` and `max`. |
| Stats.MedianBetween | logstack/controllers.py:243-245 | `percentile_cont(0.5)` lies between `min` and `max`. |
| Stats.MedianSplits | logstack/controllers.py:243-245 | At least half of the sorted values are at most the median, and at least half are at least the median. |
| Stats.VarianceNonNegative | logstack/controllers.py:246 | The population variance is non-negative. |
| Stats.ConstantGroup | logstack/controllers.py:241-248 | Equal counts c give min = max = c and mean = median = c. |
| Stats.ConstantGroupNoSpread | logstack/controllers.py:246 | ... and variance 0. |
| Stats.OneToFour | logstack/controllers.py:241-248 | The counts 1, 2, 3, 4 give sum 10, mean 2.5, median 2.5, variance 1.25, min 1 and max 4. |
| Stats.SummaryConsistent | logstack/controllers.py:241-259 | Each summary of a non-empty group is consistent: min <= mean, median <= max, variance >= 0. Its count is the group total. |
| Stats.GetBasicStats | logstack/controllers.py:232-293 | A key outside `ordering_map` is a ValueError whatever the rows are. Otherwise the result is one page of the per-prefix lines, exactly as long as the lines leave for that page. |
| Stats.EveryStatsLinePaged | logstack/controllers.py:277-293 | Every per-prefix line appears on some page, whatever the ordering. |
| Stats.GetBasicStatsOrdered | logstack/controllers.py:277-278 | A page is ordered by the named aggregate. |
| Stats.StatsLinesAreGroups | logstack/controllers.py:251-263 | Each line is a distinct prefix of a matching row, and carries the summary of exactly that prefix's matching rows. |
| Stats.EveryPrefixSummarised | logstack/controllers.py:259-263 | Every matching row's prefix has a line. |
| Stats.StatsCountsAddUp | logstack/controllers.py:241-263 | The per-prefix counts add up to the total error count of the matching rows. |
| Stats.GetBasicStatsChart | logstack/controllers.py:296-338 | Corrected: one line per (prefix, to_date) group of the matching rows, and none when no row matches. |
| Stats.GetBasicStatsChartAsWritten | logstack/controllers.py:296-351 | As written: one line per corrected line, whose "count" is the corrected to_date, "mean" the corrected count and "max" the corrected minimum. |
| Stats.ShiftAll | logstack/controllers.py:340-351 | As written, each output field holds the preceding column: "count" is the to_date, "mean" is the sum, and so on. |
| Stats.ShiftedChartMislabels | logstack/controllers.py:340-351 | For a single row, the as-written "count" is its to_date and "mean" is its error count. The corrected line carries the error count as count. |
| Stats.ChartStatsAreGroups | logstack/controllers.py:296-338 | Corrected: each chart line is a (prefix, to_date) group of matching rows, labelled with the query or None, and carries its total and consistent aggregates. |
| Stats.ChartDatesDistinct | logstack/controllers.py:310-338 | Corrected: no two chart lines share a to_date. |
| Stats.EveryDateCharted | logstack/controllers.py:310-338 | Corrected: every matching row's to_date has a line. |
| Compare.Join | logstack/controllers.py:365-379 | Each joined line pairs a row of the first upload with a row of the second that has the same prefix, and there is one line per such pair. |
| Compare.JoinHasEveryPair | logstack/controllers.py:368-379 | Every matching pair of rows has a line. |
| Compare.CompareUploads | logstack/controllers.py:354-396 | The uploads must differ, and pages hold at most 100 lines. The result is at most one page of joined lines, largest absolute delta first. |
| Compare.CompareRowsArePairs | logstack/controllers.py:374-382 | Every line comes from one row of each upload with its prefix (under the filter). Its delta is error_count_2 - error_count_1. |
| Compare.EveryPairCompared | logstack/controllers.py:368-382 | Every pair of rows of the two uploads with the same prefix (under the filter) is listed. |
| Compare.EveryPairPaged | logstack/controllers.py:384-396 | ... and appears on some page. |
| Compare.PagesByChange | logstack/controllers.py:385-396 | Lines on one page change at least as much as those on the next. |
| Autocomplete.Segment | logstack/controllers.py:411-415 | A remainder's segment is the remainder itself when it has no `/`. Otherwise it is the text up to and including the first `/`. |
| Autocomplete.Candidates | logstack/controllers.py:400-406 | The rows read are stored rows matching the pattern, at most 1000 of them. |
| Autocomplete.CollectSegments | logstack/controllers.py:405-417 | The loop builds, without duplicates, exactly the set of segments the rows contribute. |
| Autocomplete.Suggestions | logstack/controllers.py:418 | `sorted(next_segments)` is strictly ascending and holds exactly the contributed segments. |
| Autocomplete.GetPrefixAutocompleteAsWritten | logstack/controllers.py:399-418 | As written, the rows are filtered with the query's trailing slashes removed, then cut at the query's typed length. |
| Autocomplete.StrippedQueryCutsSiblings | logstack/controllers.py:400-407 | As written, "app/" against the stored "apple/x" suggests "e/", although no stored prefix starts with "app/e/". Corrected, nothing is suggested. |
| Autocomplete.GetPrefixAutocomplete | logstack/controllers.py:399-418 | Corrected: the rows are filtered with the query as typed. The suggestions are strictly ascending. |
| Autocomplete.SuggestionsExtendQuery | logstack/controllers.py:405-418 | Corrected: every suggestion continues the query into a stored prefix. |
| Autocomplete.LongerPrefixesSuggested | logstack/controllers.py:405-418 | Corrected: every row read whose prefix is longer than the query is continued by some suggestion. |
| Autocomplete.ShortPrefixesIgnored | logstack/controllers.py:407-409 | A prefix no longer than the query contributes nothing. |
| Text.Strip | logstack/api/ingestion.py:26 | `strip()` removes leading and trailing whitespace, leaving a contiguous slice with no space at either end; everything removed is whitespace. It is empty exactly when the line is all whitespace. |
| Text.Split | logstack/api/ingestion.py:25 | `split("\n")` gives pieces without separators that join back to the text. |
| Text.LastIndex | logstack/api/ingestion.py:30 | `rsplit(" ", 1)` cuts at the last space. There is no space after it. |
| Text.ReplaceChar | logstack/api/ingestion.py:34 | `replace(";", "/")` changes every `;` and nothing else. |
| Ingest.ParseShow | logstack/api/ingestion.py:38 | `int()` reads back any integer written in decimal. |
| Ingest.StoredPrefix | logstack/api/ingestion.py:34-36 | A stored prefix contains no `;`. A non-empty head gives a non-empty prefix. |
| Ingest.ParseLineCases | logstack/api/ingestion.py:26-38 | `Ingest.ParseLine`, one line of the upload: a line is skipped exactly when it is blank or has no space. It is a ValueError exactly when the text after the last space is no integer. Otherwise it gives a non-empty prefix and that integer. |
| Ingest.DoubleSlashLosesOne | logstack/api/ingestion.py:35-36 | A head that starts `//` after `;` becomes `/` is stored with exactly its first character removed, so it still starts with `/`. |
| Ingest.FormatLineRoundTrip | logstack/api/ingestion.py:26-38 | The line `prefix count` of a storable prefix parses back to that prefix and count. |
| Ingest.UploadLines | logstack/api/ingestion.py:25-50 | The loop stores the rows of the file's lines, or stops at the first line that raises. |
| Ingest.IngestedConcat | logstack/api/ingestion.py:25-50 | Ingesting two runs of lines is ingesting the first, then the second, and an error in the first aborts. |
| Ingest.FailsOnFirstBadLine | logstack/api/ingestion.py:38 | The upload fails exactly when some line raises, and with the error of the first such line. |
| Ingest.IngestedRows | logstack/api/ingestion.py:40-50 | There is at most one row per line. Every row carries the upload's fields and comes from a parsed line, and every parsed line has its row. |
| Ingestion.UploadFile | logstack/api/ingestion.py:14-53 | `upload-file` stores the rows of the content's lines, all under the new uuid, file name, dates, environment and upload time. |
| Ingestion.ReceiveEvent | logstack/api/ingestion.py:56-79 | `event` stores the payload's prefix, count and environment, and any fields it gives. A missing uuid or file name becomes `event`, and missing dates become the arrival time. |
| Ingestion.BareEventDefaults | logstack/api/models.py:104-111 | An event giving only a prefix stores one error under `event` as uuid and file name, dated at its arrival, with no environment. |
| Ingestion.EventIsOneLineUpload | logstack/api/ingestion.py:61-75 | An event stores the same row as uploading the one-line file `prefix count` with the event's fields. |
| FileManagement.UploadFile | logstack/file_management_api.py:12-49 | `files/upload` stores the rows of the content's lines under the new uuid, file name, dates and upload time, with no environment. |

## Left out

- **HTTP and the database.** Routing, request validation, sessions, `commit`/`refresh` and
  database-assigned row ids are left out. The request bounds the source validates become
  `requires` clauses:
  - `page >= 1` and `1 <= page_size <= 1000` everywhere;
  - `page_size <= 100` and two different uploads for the comparison.
- **Inputs from outside.** The clock (`datetime.now`), `uuid.uuid4()` and the `EVENT` constant are
  parameters. logstack/constants.py is not part of this model.
- **Dates** are integers.
- **Floating point.** Averages, medians and fitted lines are exact reals.
  - `np.polyfit` is specified as the least-squares line, not as numpy's algorithm.
- Stats.GetBasicStats: the spread column models `stddev_pop` by its square, the population variance,
  because Dafny's reals have no square root.
- Stats.ShiftAll: its "min" column, which as written holds the spread, carries the variance rather
  than `stddev_pop`, for the same reason.
- Stats.ChartStatsAreGroups: the consistency it states for the spread is about the variance, for
  the same reason.
- **SQL `LIKE` and `startswith`** are both plain prefix tests. `%` and `_` in a stored or queried
  prefix are not treated as wildcards.
- **Collation.** Strings are compared by code point. Database collation is left out.
- **Tie order.**
  - Rows that tie under `ORDER BY` come out in their stored order (the sort is stable).
  - `GROUP BY` lists groups in order of first appearance.
  - A database may choose otherwise, so the model makes no claim about tie order.
- **`DISTINCT`** in `list_upload_times` selects whole rows, which already differ by id. It is left
  out.
- **`LIMIT 1000`** in `get_prefix_autocomplete` takes the first 1000 matching rows in stored order.
  Which rows a database picks is left out.
- **`int()`** is modelled as an optional sign followed by ASCII digits. Python also accepts
  surrounding whitespace, underscores between digits and non-ASCII digits; those are left out.
  - The ValueError carries the offending text rather than Python's message.
- **The `environment` column.** `logstack/database_models.py` declares no such column, yet both
  ingestion paths pass `environment=`. The model keeps the environment on the stored entry.
- **`next_segments = set()`** is a duplicate-free sequence in insertion order, and is sorted before
  it is returned.
- **Trailing slashes.** `rstrip("/")` removes every trailing `/` from the query, and the model does
  the same; see Store.TrailingSlashIgnored.
- **Filter spelling.** `get_basic_stats` filters with `like(prefix%)` on the query as given (no
  `rstrip`). `list_upload_times`, `compute_trends`, `compute_trend_chart`, `get_basic_stats_chart`
  and `compare_uploads` use `startswith`. The model keeps these differences.
- **Text decoding.** The uploaded bytes are decoded as UTF-8 (`f.decode()`), which raises on
  invalid input. The model takes the already-decoded text (Ingest.Lines), so that error is not
  modelled.
- **The front end** (`logstack/static/js/shared.js`) is not part of this model.

## Findings

| source | as written | input that shows it | evidently intended | confidence | as-written member | corrected member |
|---|---|---|---|---|---|---|
| logstack/controllers.py:131-140 | `get_upload_diffs` takes `OFFSET`/`LIMIT` first and then sorts only that page, so the order does not hold across pages | rows "a" (one upload) and "b" (5 then 3); `order_by="improvements"`, descending, `page_size=1`: page 1 shows "a" with 0 improvements, page 2 shows "b" with 1 | order all lines first, then page them | not executed | Diffs.PagingBeforeSortingMisorders | Diffs.SortedPagesInOrder |
| logstack/controllers.py:340-351 | `get_basic_stats_chart` labels each column with the next field's name: "count" is the to_date, "mean" is the sum, "median" is the mean, and so on; "max" is the minimum | one row with to_date 0 and error count 7: "count" is 0 and "mean" is 7 | each aggregate under its own name, with to_date reported alongside | not executed | Stats.ShiftedChartMislabels | Stats.ChartStatsAreGroups |
| logstack/controllers.py:400-407 | `get_prefix_autocomplete` filters with the query's trailing `/` removed, but cuts each prefix at the length of the query as typed, so sibling prefixes leak in | query "app/", stored prefix "apple/x": suggests "e/", and no stored prefix starts with "app/e/" | filter and cut with the same query, so that every suggestion continues the query | not executed | Autocomplete.StrippedQueryCutsSiblings | Autocomplete.SuggestionsExtendQuery |
