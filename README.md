# bp-tools: blood-pressure log analysis, modelled in Dafny

bp-tools turns the CSV exports of a blood-pressure monitor into a report. Each reading is a
timestamp in the first column and three integer readings in the next three columns; which
reading sits in which column depends on the export, hence the optional swap of the first two.
Two scripts share one pipeline:

- `analise_csv.py` (the later script): load every input file, skip files narrower than four
  columns, coerce the timestamp and the three readings, drop malformed rows, concatenate the files,
  drop duplicate rows and optionally swap the first two readings; keep the readings inside an
  optional date range and sort them by time; describe each metric (min, quartiles, max) over all
  readings and over the readings before and after 12:00; and write a text summary, a plot and a
  workbook. The workbook has a Summary sheet with the three statistics tables and a chart of daily
  averages read from a ChartData sheet, whose deviation columns are passed to each series as
  its plus/minus ranges.
- `analize_csv.py` (the earlier script) has the same filter, statistics and midday split, a
  simpler merge without cleaning, and no workbook.

`debug_stats.py` puts each reading in a time slot (morning, midday, evening) by its hour, counts
the readings per day and slot, and gives each group's standard deviation only when the group has
more than one reading.

The model works on values. A timestamp is an integer number of seconds since the epoch. The
calendar day is `ts / 86400` and the hour is `(ts % 86400) / 3600`. Readings are exact `real`s.
In the two analysis scripts, CSV reading and the `to_datetime`/`to_numeric` coercions are
function parameters that return an `Option`. The debug script's rows are taken as already parsed
readings. The workbook and its chart are modelled by where each value is written: a `Worksheet`
class holds a map from (row, column) to cell value and its methods write into it.

Each module follows one piece of the pipeline:

- `Cleaning` and `EarlyMerge`: the two versions of `read_and_merge_files`.
- `Dedup`: pandas' `drop_duplicates`.
- `RangeFilter`: `filter_and_sort_data`.
- `Describe`: the quantile arithmetic of `generate_statistics`.
- `Midday`: the 12:00 split.
- `Daily`: the per-date mean and standard deviation.
- `Workbook`, `SummarySheet` and `ChartData`: the spreadsheet layout.
- `Artifacts`: `splitext`-based output naming.
- `TimeSlots`: the debug script.
- `Seqs`, `Sorting` and `Grouping`: generic support for boolean masks, sorting and `groupby`.

Three behaviours of the code are worth stating plainly, because the model follows them:

- Merging fails only when no file produced a frame at all, because `pd.concat([])` raises. A
  usable file whose rows are all dropped still contributes an empty frame, so zero surviving rows
  is not an error.
- A bare `--end-date` is read as midnight at the start of that day, although the option's help
  text (analise_csv.py:21) calls the end date inclusive (see Findings).
- For an empty scope pandas' `describe` gives NaN. The model gives `None`, and the Summary sheet
  shows NaN for those cells.

## Model

| member | source | states |
|---|---|---|
| Cleaning.Field | analise_csv.py:28 | a cell is present exactly when the row reaches that column; `read_csv` pads short rows with NaN |
| Cleaning.Coerce | analise_csv.py:37-41 | coercing with `errors='coerce'` succeeds iff the cell is present and parses, and then gives the parser's value |
| Cleaning.Extras | analise_csv.py:28 | columns 4 onward are kept unchanged: there are `width - 4` of them, each the cell as read |
| Cleaning.CleanRow | analise_csv.py:35-44 | a row survives iff its timestamp and all three readings coerce, and the surviving sample carries exactly the parsed values |
| Cleaning.CleanRows | analise_csv.py:44 | `dropna` never adds rows |
| Cleaning.SwapColumns | analise_csv.py:56-59 | the swap exchanges readings 1 and 2 and leaves the timestamp, reading 3 and the extra columns unchanged |
| Cleaning.SwapAll | analise_csv.py:56-59 | the swap keeps the number of rows and is applied to each row in place |
| Cleaning.ReadAndMerge | analise_csv.py:24-61 | the file loop (append one cleaned frame per readable file of at least 4 columns, then concat, dedup and optional swap) computes exactly `Merge` |
| Cleaning.Merge | analise_csv.py:24-61 | the reference definition of the merge as a value: `concat` of the usable cleaned frames, `drop_duplicates`, then the optional swap; what it computes is stated by the Cleaning lemmas below |
| Cleaning.LoadedFrames | analise_csv.py:25-46 | the `dfs` list, as a value: one cleaned frame per usable file in argument order; stated by Cleaning.LoadedFramesMember and Cleaning.MergeFailsIffNoUsableFile |
| Cleaning.CleanRowsMember | analise_csv.py:44 | a sample is among a file's survivors iff some row of the file cleans to it |
| Cleaning.LoadedFramesMember | analise_csv.py:46-52 | a row is in the concatenation iff some readable file of at least 4 columns has a row that cleans to it |
| Cleaning.MergeFailsIffNoUsableFile | analise_csv.py:26-52 | the merge fails (`concat` of no frames) iff no file was both readable and at least 4 columns wide; unreadable and narrow files are skipped |
| Cleaning.MergedRowsAreCleanedRows | analise_csv.py:44-59 | a row is merged iff it, with readings 1 and 2 exchanged back when the swap is on, is a cleaned row of some usable file; and every cleaned row of a usable file is merged, swapped when the swap is on |
| Cleaning.MergedRowsValid | analise_csv.py:35-59 | every merged row comes from a usable file in which all four typed cells parsed, with readings 1 and 2 exchanged back when the swap is on |
| Cleaning.MergedRowsDistinctAndFirst | analise_csv.py:52-59 | with or without the swap, merged rows are pairwise different and are the first occurrences of the (swapped) concatenated rows, in concatenation order, and every first occurrence is kept |
| Cleaning.SwapTwice | analise_csv.py:56-59 | swapping twice restores a row |
| Cleaning.SwapAllTwice | analise_csv.py:56-59 | swapping twice restores the frame |
| Cleaning.SwapCommutesWithDedup | analise_csv.py:53-59 | swapping after dropping duplicates gives the same frame as swapping before |
| Cleaning.AllRowsDroppedStillMerges | analise_csv.py:44-52 | a usable file whose rows are all malformed still makes the merge succeed, with no rows |
| Dedup.DropDuplicates | analise_csv.py:53 | every kept row is an input row, every input row is kept once, and no two kept rows are equal |
| Dedup.KeepsFirstOccurrences | analise_csv.py:53 | `drop_duplicates` keeps exactly the first occurrence of each row, in input order |
| Dedup.DropDuplicatesIdempotent | analise_csv.py:53 | a frame without duplicates is left unchanged |
| EarlyMerge.FirstFailure | analize_csv.py:24 | the list comprehension stops at the first file whose reading raises, after reading all earlier ones |
| EarlyMerge.SwapCells | analize_csv.py:27-30 | the swap exchanges cells 1 and 2 of a row and keeps every other cell |
| EarlyMerge.SwapRows | analize_csv.py:27-30 | the swap goes row by row |
| EarlyMerge.EarlyReadAndMerge | analize_csv.py:23-31 | a successful merge keeps the files' column count, and with the swap it succeeds only on frames at least 3 columns wide |
| EarlyMerge.AllRowsMember | analize_csv.py:25 | a row is in the concatenation iff some file has it |
| EarlyMerge.EarlyMergeOutcome | analize_csv.py:23-31 | the merge fails with the first unreadable file's error, fails on `concat` of no frames iff there are no files, and fails on `cols[2]` iff swapping frames narrower than 3 columns |
| EarlyMerge.EarlyMergedDistinct | analize_csv.py:26-30 | no two merged rows are equal, with or without the swap |
| EarlyMerge.EarlyMergedRowsRead | analize_csv.py:24-30 | every merged row is a row read from some file, with cells 1 and 2 exchanged back when the swap is on |
| EarlyMerge.EarlyReadRowsMerged | analize_csv.py:24-30 | conversely, every row read from a file has the frames' width and is merged, with cells 1 and 2 exchanged when the swap is on |
| EarlyMerge.EarlyMergedFirstOccurrences | analize_csv.py:25-30 | the merged rows are, in order, the first occurrences of the concatenated rows (exchanged back when the swap is on), and every first occurrence is kept |
| EarlyMerge.SwapCellsTwice | analize_csv.py:27-30 | swapping twice restores a row |
| Seqs.Select | analise_csv.py:63-66 | a boolean mask keeps only input rows that pass the mask, never more rows than the input |
| Seqs.SelectCount | analise_csv.py:63-66 | a mask keeps each passing row as often as the input holds it, and drops failing rows |
| Seqs.SelectMember | analise_csv.py:63-66 | a row is kept iff it is in the input and passes the mask |
| Sorting.SortBy | analise_csv.py:67 | `sort_values` returns a permutation of its input sorted ascending by the key |
| Sorting.SelectSorted | analise_csv.py:276-281 | masking a sorted frame keeps it sorted |
| RangeFilter.FilterAndSort | analise_csv.py:63-69 | the two masks followed by `sort_values`, as a value; its meaning is stated by RangeFilter.FilterAndSortSpec |
| RangeFilter.NotBefore | analise_csv.py:64-65 | the start-date mask, as a value; stated by RangeFilter.FilterKeepsExactlyInRange and RangeFilter.StartDateAdmitsWholeDay |
| RangeFilter.NotAfter | analise_csv.py:66-67 | the end-date mask as written, as a value; stated by RangeFilter.FilterKeepsExactlyInRange and RangeFilter.EndDateExcludesLaterReadings |
| RangeFilter.FilterAndSortSpec | analise_csv.py:63-69 | the result is sorted by timestamp and holds each row as often as the input when it lies inside both bounds, else not at all |
| RangeFilter.FilterKeepsExactlyInRange | analize_csv.py:33-39 | a row is kept iff it is in the input, not before the start bound (if given) and not after the end bound (if given) |
| RangeFilter.NoBoundsOnlySorts | analise_csv.py:63-69 | without bounds the result is a sorted permutation of the input |
| RangeFilter.StartDateAdmitsWholeDay | analise_csv.py:63-64 | a bare start date admits every reading of that day and later |
| RangeFilter.EndDateExcludesLaterReadings | analise_csv.py:65-66 | as written, a bare end date drops every reading after midnight on that date |
| RangeFilter.EndDateCounterexample | analise_csv.py:65-66 | a reading at 08:00 on 2025-06-01 is dropped by `--end-date 2025-06-01` |
| RangeFilter.NotAfterDay | analise_csv.py:21 | the corrected end-date mask that admits the whole end day, as a value; stated by RangeFilter.WholeDaysKeepsDateRange |
| RangeFilter.FilterAndSortWholeDays | analise_csv.py:63-69 | the corrected filter, as a value; stated by RangeFilter.WholeDaysKeepsDateRange |
| RangeFilter.WholeDaysKeepsDateRange | analise_csv.py:20-21 | corrected filter: with bare dates, exactly the readings whose calendar day lies in the inclusive range are kept, sorted |
| Describe.MinOf | analise_csv.py:71 | `min` is a value of the column and no value is smaller |
| Describe.MaxOf | analise_csv.py:71 | `max` is a value of the column and no value is larger |
| Describe.QuarterPoint | analise_csv.py:72 | linear interpolation between the order statistics around position (n-1)k/4; its bounds and order are stated by the three QuarterPoint lemmas below |
| Describe.QuarterPointBracket | analise_csv.py:71 | each quantile lies between the two order statistics around position (n-1)p |
| Describe.QuarterPointMonotone | analise_csv.py:71 | a higher percentile never gives a smaller quantile |
| Describe.QuarterPointEnds | analise_csv.py:71 | the 0th and 100th percentiles are the first and last sorted values |
| Describe.Stat | analise_csv.py:72-73 | a statistic is found by name exactly for min, q1, median, q3 and max, the labels `describe` gives once the percentiles are renamed |
| Describe.DescribeColumn | analise_csv.py:72 | there is no summary iff the column is empty, and min and max are values of the column |
| Describe.Statistics | analise_csv.py:71-74 | one summary per metric, present exactly when the scope has readings, with each column's minimum and maximum among that column's values |
| Describe.DescribeOrdered | analise_csv.py:71-73 | min <= q1 <= median <= q3 <= max; min and max are column values bounding all others; the quartiles interpolate linearly at p = 0.25, 0.5, 0.75; no summary iff the scope is empty |
| Describe.MinIsFirstOrderStatistic | analize_csv.py:42 | min and max are the first and last of the sorted column |
| Describe.DescribeOneToTen | analize_csv.py:42 | for 1..10 the quartiles are 3.25, 5.5 and 7.75 |
| Midday.BeforeMidday | analise_csv.py:276 | the `dt.time < 12:00` mask, as a value; stated by Midday.MiddaySplitPartition |
| Midday.AfterMidday | analise_csv.py:281 | the `dt.time >= 12:00` mask, as a value; stated by Midday.MiddaySplitPartition |
| Midday.MiddaySplitPartition | analise_csv.py:275-284 | the before-12:00 and from-12:00 scopes together hold every row exactly as often as the input, each row goes to the scope its time of day selects, and no row goes to both |
| Midday.MiddaySplitKeepsOrder | analize_csv.py:162-172 | both scopes of a time-sorted frame are time-sorted |
| Grouping.GroupBy | analise_csv.py:185 | groups hold the input rows, every group is non-empty and shares one key, and group keys strictly increase |
| Grouping.GroupContents | analise_csv.py:185 | each group holds exactly the input rows with the group's key |
| Grouping.ExactlyOneGroup | debug_stats.py:18 | every input row lies in exactly one group |
| Grouping.GroupSizesSum | debug_stats.py:18 | the group sizes add up to the number of rows |
| Samples.DateOf | analise_csv.py:184 | the calendar day is the d with d * 86400 <= ts < (d + 1) * 86400 |
| Samples.SecondOfDay | analise_csv.py:276 | the time of day lies in [0, 86400) and adds to the day's start to give the timestamp |
| Samples.HourOf | debug_stats.py:14 | the hour lies in [0, 24) and is the one whose 3600-second span holds the time of day |
| Daily.Mean | analise_csv.py:185 | sum over count; bounded by Daily.MeanBetweenExtremes |
| Daily.SampleVariance | analise_csv.py:186 | the variance is defined iff there are at least two readings, and is then non-negative |
| Daily.VariancePermutation | analise_csv.py:186 | reordering the values leaves the sample variance unchanged |
| Daily.Days | analise_csv.py:184-185 | `groupby('date_only')`, as a value; stated by Daily.DayIsReadingsOn and Grouping.GroupBy |
| Daily.MeansOf | analise_csv.py:185 | one group's means, as a value; stated by Daily.DailyMeanIsMeanOfDay |
| Daily.SpreadOf | analise_csv.py:186 | one group's spreads, as a value; stated by Daily.DailySpreadDefinedIffTwoReadings |
| Daily.SpreadOfPermutation | analise_csv.py:186 | a day's spread depends only on which readings it holds, not on their order |
| Daily.DayIsReadingsOn | analise_csv.py:184-186 | each day group is non-empty and holds exactly the readings on its date, as many times as the input does |
| Daily.DailyMeans | analise_csv.py:185 | one daily mean per group of readings sharing a date |
| Daily.DailySpreads | analise_csv.py:186 | one daily spread per group of readings sharing a date |
| Daily.DailyDates | analize_csv.py:50-52 | daily dates strictly increase, and the spreads line up with the averages date by date |
| Daily.EveryDateHasAnEntry | analize_csv.py:51-52 | every reading's date has a daily entry |
| Daily.EveryEntryHasAReading | analise_csv.py:184-185 | every daily entry is the date of some reading |
| Daily.DailyMeanIsMeanOfDay | analize_csv.py:52 | each daily value is the arithmetic mean of that date's readings of the metric |
| Daily.DailySpreadDefinedIffTwoReadings | analise_csv.py:186 | a day's standard deviation is defined iff that date has at least two readings, and is then the sample variance of that date's readings of the metric |
| Daily.MeanBetweenExtremes | analise_csv.py:185 | a mean lies between the smallest and the largest value |
| Daily.SpreadExamples | analise_csv.py:186 | two readings of 10 give mean 10 and deviation 0; one reading gives no deviation |
| Workbook.Worksheet.constructor | analise_csv.py:195 | a new sheet is empty |
| Workbook.Worksheet.Write | analise_csv.py:225 | `write` sets one cell and keeps all others |
| Workbook.Worksheet.WriteRow | analise_csv.py:219 | `write_row` puts the values into consecutive columns of one row |
| Workbook.RowCellsAt | analise_csv.py:219-220 | `write_row(row, col, values)` fills exactly `(row, col + k)` for k < number of values, with value k |
| Workbook.Texts | analise_csv.py:202 | a label row has one text cell per name, in order |
| Workbook.DeviationValue | analise_csv.py:229 | an undefined deviation is written as NaN, a defined one as a deviation cell carrying the variance |
| Workbook.CellRef | analise_csv.py:219-220 | an A1 reference with one column letter names a cell with column 0-25 and a non-negative row |
| Workbook.ReportReferences | analise_csv.py:258 | A1 is (0, 0), E1 is (0, 4) and H3 is (2, 7) |
| SummarySheet.SummaryRow | analise_csv.py:72-74 | a metric's row has one cell per statistic name, and the cell under each name holds the statistic of that name, or NaN for an empty scope |
| SummarySheet.StatsTable | analise_csv.py:72-74 | the transposed table is rectangular, with one row per metric and the statistic names as columns, and cell (a, b) holds metric a's statistic named by column b |
| SummarySheet.WriteHead | analise_csv.py:200-202 | the title and the header row are written and nothing else changes |
| SummarySheet.WriteDataRow | analise_csv.py:203-206 | one data row's label and values are written and nothing else changes |
| SummarySheet.WriteTable | analise_csv.py:199-206 | `write_df` adds exactly the block's cells to the sheet |
| SummarySheet.Block | analise_csv.py:199-206 | the cells `write_df` writes, as a map; stated by SummarySheet.BlockAt |
| SummarySheet.DataRowsAt | analise_csv.py:203-206 | the data rows fill exactly rows r+2.., columns c..c+width, with row a's label at (r+2+a, c) and value (a, b) at (r+2+a, c+1+b) |
| SummarySheet.BlockAt | analise_csv.py:199-206 | a block holds exactly its title at (r, c), header b at (r+1, c+1+b), label a at (r+2+a, c) and value (a, b) at (r+2+a, c+1+b) |
| SummarySheet.BlockBounds | analise_csv.py:199-206 | a block stays within rows r..r+1+rows and columns c..c+columns |
| SummarySheet.WriteSummary | analise_csv.py:208-210 | the Summary sheet gets the three blocks at rows 0, 10 and 20, in that order |
| SummarySheet.SummaryBlocksDisjoint | analise_csv.py:208-210 | with at most 8 rows per table the three blocks share no cell, and each block's cells keep its own values on the finished sheet |
| SummarySheet.NineRowsCollide | analise_csv.py:208-209 | the bound is tight: a 9-row table would reach the next block's title cell |
| SummarySheet.ScopeBlockCell | analise_csv.py:199-206 | a statistics block holds, cell by cell, exactly the independent layout ScopeCell: the title at the top, the statistic names one row below, each metric's name in column 0 and, under name b, that metric's statistic named b |
| SummarySheet.SummarySheetLayout | analise_csv.py:199-210 | a cell of the finished Summary sheet is written iff the reference layout places something there, and holds exactly that: each scope's title at rows 0, 10 and 20, the statistic names below it, and each metric's statistics by name |
| SummarySheet.SheetStatCell | analise_csv.py:199-210 | on the finished Summary sheet, the scope whose block starts at row 0, 10 or 20 has metric a's statistic named b at row top + 2 + a, column 1 + b |
| SummarySheet.ReportSummarySheet | analise_csv.py:274-284 | the Summary sheet filled with the statistics of all readings and of the readings before and from midday is exactly the reference layout of those statistics |
| SummarySheet.ReportStatCell | analise_csv.py:274-284 | on that sheet, the cell of metric a and statistic b in the block at row 0, 10 or 20 holds that statistic of column a over all readings, the readings before midday or the readings from midday on |
| SummarySheet.ReportLayoutFits | analise_csv.py:208-258 | the statistics tables have 3 rows, so the blocks fit, and the chart anchor H3 is outside every block |
| ChartData.ChartCells | analise_csv.py:219-229 | the ChartData cells, as a map; stated by ChartData.ChartCellAt and ChartData.WriteChartData |
| ChartData.SeriesOf | analise_csv.py:238-249 | the ranges of one series, as a value; stated by ChartData.SeriesRanges, SeriesHeadersRead and SeriesDayRead |
| ChartData.StdNames | analise_csv.py:220 | each deviation header is the metric's name followed by `_std` |
| ChartData.WriteHeaders | analise_csv.py:219-220 | the header writes from A1 and E1 add exactly the header cells |
| ChartData.WriteDay | analise_csv.py:224-229 | one day row adds exactly the date and each metric's mean and deviation cells |
| ChartData.WriteChartData | analise_csv.py:219-229 | the ChartData writes add exactly the header row and one row per day |
| ChartData.AddSeries | analise_csv.py:237-250 | one series per metric k: name at (0, k+1), categories column 0, values column k+1 and the plus/minus ranges passed to `add_series` column k+4, each over rows 1 to the number of days |
| ChartData.RowUpToAt | analise_csv.py:225-229 | day i is on row i+1: the date in column 0, metric j's mean in column j and its deviation in column j+3 |
| ChartData.DayRowsAt | analise_csv.py:223-229 | the day rows fill exactly rows 1..n and columns 0..6, day t-1 on row t |
| ChartData.HeaderAt | analise_csv.py:219-220 | the header row holds `date_only`, the metric names in columns 1-3 and the `_std` names in columns 4-6 |
| ChartData.ChartCellAt | analise_csv.py:219-229 | a ChartData cell is written iff it is a header or day-row cell, and holds its header value on row 0 and its day-row value below |
| ChartData.SeriesRanges | analise_csv.py:239-246 | each series range is one column wide and covers rows 1 to the number of days |
| ChartData.SeriesHeadersRead | analise_csv.py:223-249 | each series' name cell holds its own metric's name and the column passed as its plus/minus range is headed by the same metric's `_std` name |
| ChartData.SeriesDayRead | analise_csv.py:223-249 | on every row of a series' ranges, the category, value and plus/minus cells hold the same day's date, mean and deviation of the series' own metric |
| ChartData.ChartRowsAreTheDays | analise_csv.py:223-241 | the written data sits exactly on rows 0..number of days, columns 0-6 |
| Artifacts.LastIndex | analise_csv.py:172 | `rfind` gives the last position of the character, or -1 |
| Artifacts.SplitExt | analise_csv.py:172 | root and extension concatenate back to the path |
| Artifacts.ExtensionShape | analise_csv.py:181 | an extension is empty, or is a dot followed by neither dots nor slashes |
| Artifacts.SplitAfterAppend | analise_csv.py:271 | splitting stem + extension gives the stem and the extension back |
| Artifacts.ReportArtifacts | analise_csv.py:271-286 | the later script's output names, as a value; stated by Artifacts.ReportArtifactsShareStem |
| Artifacts.EarlyReportArtifacts | analize_csv.py:159-174 | the earlier script's output names, as a value; stated by Artifacts.EarlyArtifactsShareStem |
| Artifacts.ReportArtifactsShareStem | analise_csv.py:271-286 | the .csv, .txt, .xlsx and .png artifacts (lines 172, 181, 271, 286) split into the output's stem and their own extension, and are pairwise different |
| Artifacts.EarlyArtifactsShareStem | analize_csv.py:159-174 | the earlier script's .png and .txt (lines 142, 174) split into the output's stem and their extension, and its CSV is that stem plus the output's own extension |
| Artifacts.OutputExtensionInteractions | analize_csv.py:159-174 | with a .png output the earlier script's CSV and plot are the same file; with a .csv output both scripts write the CSV to the same path |
| Artifacts.SplitExtExamples | analise_csv.py:172 | "out/report.csv" splits into "out/report" and ".csv"; "report" has no extension |
| Artifacts.SplitExtDotExamples | analise_csv.py:172 | a leading dot (".bashrc") and a dot in a directory name ("a.b/c") start no extension |
| TimeSlots.TimeSlot | debug_stats.py:5-8 | `get_time_slot`, as a value; stated by TimeSlots.TimeSlotRanges |
| TimeSlots.SlotKey | debug_stats.py:13-18 | the (day, period) grouping key encoded as one number; stated by TimeSlots.SlotKeyIsDayAndPeriod |
| TimeSlots.SlotOf | debug_stats.py:13-15 | a reading's period, from its hour, as a value; stated by TimeSlots.SlotKeyIsDayAndPeriod and TimeSlots.SlotGroupsHomogeneous |
| TimeSlots.SlotGroups | debug_stats.py:18-23 | `groupby(['Day', 'Period'])`, as a value; stated by TimeSlots.SlotGroupsPartition and SlotGroupsHomogeneous |
| TimeSlots.TimeSlotRanges | debug_stats.py:5-8 | every hour gets exactly one slot: morning iff h < 10, midday iff 10 <= h < 16, evening iff h >= 16 |
| TimeSlots.TimeSlotBoundaries | debug_stats.py:6-8 | 9 is morning, 10 and 15 are midday, 16 is evening |
| TimeSlots.TimeSlotMonotone | debug_stats.py:5-8 | a later hour never gets an earlier slot |
| TimeSlots.AlphabeticalIsLabelOrder | debug_stats.py:15-18 | the group order of slots is the string order of their labels (evening, midday, morning), and distinct slots have distinct labels |
| TimeSlots.SlotKeyIsDayAndPeriod | debug_stats.py:13-18 | two readings share a grouping key iff they share day and slot, and keys order by day, then by label |
| TimeSlots.SlotGroupsPartition | debug_stats.py:18 | every parsed reading is in exactly one (day, slot) group and the counts add up to the number of readings |
| TimeSlots.SlotGroupsHomogeneous | debug_stats.py:23 | all members of a group share its day and slot |
| TimeSlots.ReportGroups | debug_stats.py:23-28 | one report per group in group order, with its day, slot and count, and spreads exactly when the group has more than one reading |
| TimeSlots.GroupSpreads | debug_stats.py:26 | one group's three sample variances, as a value; stated by TimeSlots.ReportedSpreadsDefined |
| TimeSlots.ReportedSpreadsDefined | debug_stats.py:25-26 | for readings whose cells are all present, a group of more than one reading gets three defined, non-negative variances |

## Left out

- Argument parsing, console output (colorama, printed tables) and the text of the `.txt` summary: I/O only.
- Reading files: `pd.read_csv`, `to_datetime` and `to_numeric` are parameters returning `Option`, and an unreadable file is a value (`Source.Unreadable`, `None`). This covers the two analysis scripts; the debug script is modelled differently, see the `TimeSlots` line.
- TimeSlots: the debug script's rows are taken as already parsed readings (`Sample`), because it reads its CSV without coercion or `dropna` (debug_stats.py:11-15). Three of its behaviours are therefore not modelled. (a) A timestamp string that does not parse makes `pd.to_datetime` raise, and the `except` at debug_stats.py:30-31 prints the error instead of any counts. (b) An empty timestamp cell becomes NaT, and `groupby(['Day', 'Period'])` drops that row from every group, so the counts can add up to fewer than the rows. (c) An empty reading cell is NaN and `std()` skips it, so a group of more than one row can still print NaN at debug_stats.py:26.
- The Data sheet (`df.to_excel`), cell formats, colours, chart titles, axes, dash styles and `insert_chart` scaling: library calls with no index arithmetic beyond what is modelled.
- xlsxwriter's sheet size limits and its handling of a NaN written with `write`: library behaviour outside the repository.
- matplotlib work in `generate_plot`: fonts, layout, tick locators, table styling, `savefig`, and the rounding to 2 decimals in its tables.
- `open_image`, `download_and_analyse.py` and `setup.py`: subprocess calls, file moves and packaging.
- Square roots and floating point: a standard deviation is kept as the sample variance over exact reals.
- Sorting.SortBy: the model sorts stably, but only sortedness and permutation are stated, because pandas' default quicksort is not stable.
- Cleaning.ReadAndMerge: the model joins the frames positionally, whereas `pd.concat` aligns columns by header name, so files with different headers or widths get NaN-filled columns in pandas; the properties hold for files that share one header.
- Cleaning.Merge: columns 4 onward are kept as raw strings rather than type-inferred by `read_csv` ("5" and "5.0" differ in the model), and an empty cell is a present empty string while pandas reads it as NaN like a padded cell, so `drop_duplicates` can keep rows that pandas would drop.
- ChartData.AddSeries: the model records the ranges passed to `add_series`, not what the chart draws; with `'type': 'standard_error'` xlsxwriter draws the standard error of the plotted means and ignores `plus_values`/`minus_values`, which it reads only for type `'custom'`.
- EarlyMerge.EarlyReadAndMerge: requires all readable files to share one column count, because differing headers make `concat` align columns by name, which is not modelled.
- EarlyMerge: `parse_dates=[0]` is not modelled; cells stay abstract values, so no timestamp semantics is claimed for the earlier merge.
- Timestamps are whole seconds; time zones and sub-second parts are not modelled.
- `--start-date`/`--end-date` strings are taken as already parsed bounds (`DateOnly` or `At`); `pd.to_datetime` of other formats is not modelled.
- Artifacts.SplitExt models POSIX `splitext` only; Windows paths with `\` or drive letters are not modelled.
- The whole-pipeline composition in `main` is not a separate function; each stage is modelled and proved on its own.

## Findings

| source | as written | input that shows it | evidently intended | confidence | as-written member | corrected member |
|---|---|---|---|---|---|---|
| analise_csv.py:65-66 | `df[ts] <= pd.to_datetime(end_date)`, where a bare date means midnight at the start of that day | `--end-date 2025-06-01` and a reading at 2025-06-01 08:00: the reading is dropped | the option's help (line 21, same in analize_csv.py:20) calls the end date inclusive, so every reading on that date should be kept | not executed | RangeFilter.EndDateCounterexample | RangeFilter.WholeDaysKeepsDateRange |
