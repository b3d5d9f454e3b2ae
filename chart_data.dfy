/** The ChartData sheet and the line chart over it: daily means in columns B..D, daily standard
    deviations in columns E..G, dates in column A, one row per day below a header row; each of the
    three series is given its values and, as the plus/minus ranges of its error bars, the
    deviation column of its metric. With error-bar type `standard_error` the chart itself does not
    draw those ranges; the model records what `add_series` is passed. */
module ChartData {
  import opened Wrappers
  import opened Samples
  import opened Daily
  import opened Workbook

  /** The names `write_row('E1', …)` writes: each metric's name with `_std` appended. */
  function StdNames(metrics: seq<string>): (r: seq<string>)
    ensures |r| == |metrics| && forall k :: 0 <= k < |metrics| ==> r[k] == metrics[k] + "_std"
  {
    seq(|metrics|, k requires 0 <= k < |metrics| => metrics[k] + "_std")
  }

  /** The header rows: `date_only` and the metric names from A1, the `_std` names from E1. */
  function HeaderCells(metrics: seq<string>): map<Cell, Value>
  {
    RowCells(0, 0, Texts(["date_only"] + metrics)) + RowCells(0, 4, Texts(StdNames(metrics)))
  }

  /** Sheet row `i + 1` after the date and metrics `1 .. j - 1`: each metric's mean in column `j`
      and its deviation in column `j + 3`. */
  function RowUpTo(i: nat, dm: DayMeans, ds: DaySpread, formatDate: int -> string, j: int): map<Cell, Value>
    requires 1 <= j <= 4
  {
    if j == 1 then map[(i + 1, 0) := Text(formatDate(dm.date))]
    else RowUpTo(i, dm, ds, formatDate, j - 1)[(i + 1, j - 1) := Number(MeanAt(dm, j - 1))][(i + 1, j + 2) := DeviationValue(VarianceAt(ds, j - 1))]
  }

  /** The first `n` day rows. */
  function DayRows(means: seq<DayMeans>, spreads: seq<DaySpread>, formatDate: int -> string, n: nat): map<Cell, Value>
    requires n <= |means| && n <= |spreads|
  {
    if n == 0 then map[]
    else DayRows(means, spreads, formatDate, n - 1) + RowUpTo(n - 1, means[n - 1], spreads[n - 1], formatDate, 4)
  }

  /** Everything written to ChartData for the readings `rows`. */
  function ChartCells(metrics: seq<string>, rows: seq<Sample>, formatDate: int -> string): map<Cell, Value>
  {
    HeaderCells(metrics) + DayRows(DailyMeans(rows), DailySpreads(rows), formatDate, |DailyMeans(rows)|)
  }

  /** The ChartData writes of `export_to_excel_with_chart`; `formatDate` stands for
      `strftime('%Y-%m-%d')` of a day number. */
  method WriteChartData(ws: Worksheet, metrics: seq<string>, rows: seq<Sample>, formatDate: int -> string)
    requires |metrics| == 3
    modifies ws
    ensures ws.cells == old(ws.cells) + ChartCells(metrics, rows, formatDate)
  {
    var means := DailyMeans(rows);
    var spreads := DailySpreads(rows);
    assert |spreads| == |means|;
    WriteHeaders(ws, metrics);
    ghost var headed := ws.cells;
    assert headed + DayRows(means, spreads, formatDate, 0) == headed;
    var i := 0;
    while i < |means|
      invariant 0 <= i <= |means| == |spreads|
      invariant ws.cells == headed + DayRows(means, spreads, formatDate, i)
    {
      WriteDay(ws, i, means[i], spreads[i], formatDate);
      UnionAssociative(headed, DayRows(means, spreads, formatDate, i), RowUpTo(i, means[i], spreads[i], formatDate, 4));
      i := i + 1;
    }
    UnionAssociative(old(ws.cells), HeaderCells(metrics), DayRows(means, spreads, formatDate, i));
  }

  /** `write_row('A1', daily_avg.columns)` and `write_row('E1', [f"{col}_std" …])`. */
  method WriteHeaders(ws: Worksheet, metrics: seq<string>)
    modifies ws
    ensures ws.cells == old(ws.cells) + HeaderCells(metrics)
  {
    ReportReferences();
    var a1, e1 := CellRef("A1").value, CellRef("E1").value;
    ws.WriteRow(a1.0, a1.1, Texts(["date_only"] + metrics));
    ws.WriteRow(e1.0, e1.1, Texts(StdNames(metrics)));
    UnionAssociative(old(ws.cells), RowCells(0, 0, Texts(["date_only"] + metrics)), RowCells(0, 4, Texts(StdNames(metrics))));
  }

  /** One day row: the formatted date, then for each metric `j` its mean in column `j` and its
      deviation in column `j + 3`. */
  method WriteDay(ws: Worksheet, i: nat, dm: DayMeans, ds: DaySpread, formatDate: int -> string)
    modifies ws
    ensures ws.cells == old(ws.cells) + RowUpTo(i, dm, ds, formatDate, 4)
  {
    ws.Write(i + 1, 0, Text(formatDate(dm.date)));
    UpdateIsUnion(old(ws.cells), (i + 1, 0), Text(formatDate(dm.date)));
    var j := 1;
    while j < 4
      invariant 1 <= j <= 4
      invariant ws.cells == old(ws.cells) + RowUpTo(i, dm, ds, formatDate, j)
    {
      var row := RowUpTo(i, dm, ds, formatDate, j);
      ws.Write(i + 1, j, Number(MeanAt(dm, j)));
      UnionUpdate(old(ws.cells), row, (i + 1, j), Number(MeanAt(dm, j)));
      ws.Write(i + 1, j + 3, DeviationValue(VarianceAt(ds, j)));
      UnionUpdate(old(ws.cells), row[(i + 1, j) := Number(MeanAt(dm, j))], (i + 1, j + 3), DeviationValue(VarianceAt(ds, j)));
      j := j + 1;
    }
  }

  /** An inclusive cell range `[sheet, first_row, first_col, last_row, last_col]`. */
  datatype Range = Range(firstRow: int, firstCol: int, lastRow: int, lastCol: int)

  /** What `chart.add_series` is given: the name cell, the category (date) range, the value
      range and the `plus_values`/`minus_values` range of the error bars (the same range for both). */
  datatype Series = Series(name: Cell, categories: Range, values: Range, plusMinus: Range)

  /** The series for metric `k` (zero-based) over `n` days. */
  function SeriesOf(k: nat, n: nat): Series
  {
    Series((0, k + 1), Range(1, 0, n, 0), Range(1, k + 1, n, k + 1), Range(1, k + 4, n, k + 4))
  }

  /** The series loop: one series per metric column of the daily averages. */
  method AddSeries(metrics: seq<string>, n: nat) returns (series: seq<Series>)
    ensures |series| == |metrics| && forall k :: 0 <= k < |metrics| ==> series[k] == SeriesOf(k, n)
  {
    series := [];
    var i := 0;
    while i < |metrics|
      invariant 0 <= i <= |metrics|
      invariant |series| == i && forall k :: 0 <= k < i ==> series[k] == SeriesOf(k, n)
    {
      series := series + [SeriesOf(i, n)];
      i := i + 1;
    }
  }

  /** Cell by cell, the day rows: date in column 0, mean of metric `j` in column `j` and its
      deviation in column `j + 3`, on sheet row `t` for day `t - 1`. */
  lemma {:induction false} RowUpToAt(i: nat, dm: DayMeans, ds: DaySpread, formatDate: int -> string, j: int, cell: Cell)
    requires 1 <= j <= 4
    ensures cell in RowUpTo(i, dm, ds, formatDate, j) <==> cell.0 == i + 1 && (cell.1 == 0 || 1 <= cell.1 < j || 4 <= cell.1 < j + 3)
    ensures cell == (i + 1, 0) ==> RowUpTo(i, dm, ds, formatDate, j)[cell] == Text(formatDate(dm.date))
    ensures cell.0 == i + 1 && 1 <= cell.1 < j ==> RowUpTo(i, dm, ds, formatDate, j)[cell] == Number(MeanAt(dm, cell.1))
    ensures cell.0 == i + 1 && 4 <= cell.1 < j + 3 ==> RowUpTo(i, dm, ds, formatDate, j)[cell] == DeviationValue(VarianceAt(ds, cell.1 - 3))
  {
    if j > 1 {
      RowUpToAt(i, dm, ds, formatDate, j - 1, cell);
    }
  }

  lemma {:induction false} DayRowsAt(means: seq<DayMeans>, spreads: seq<DaySpread>, formatDate: int -> string, n: nat, cell: Cell)
    requires n <= |means| && n <= |spreads|
    ensures cell in DayRows(means, spreads, formatDate, n) <==> 1 <= cell.0 <= n && 0 <= cell.1 <= 6
    ensures 1 <= cell.0 <= n && cell.1 == 0 ==> DayRows(means, spreads, formatDate, n)[cell] == Text(formatDate(means[cell.0 - 1].date))
    ensures 1 <= cell.0 <= n && 1 <= cell.1 <= 3 ==> DayRows(means, spreads, formatDate, n)[cell] == Number(MeanAt(means[cell.0 - 1], cell.1))
    ensures 1 <= cell.0 <= n && 4 <= cell.1 <= 6 ==> DayRows(means, spreads, formatDate, n)[cell] == DeviationValue(VarianceAt(spreads[cell.0 - 1], cell.1 - 3))
  {
    if n > 0 {
      DayRowsAt(means, spreads, formatDate, n - 1, cell);
      RowUpToAt(n - 1, means[n - 1], spreads[n - 1], formatDate, 4, cell);
    }
  }

  /** The header row: `date_only`, the metric names in columns 1..3, their `_std` names in
      columns 4..6. */
  lemma HeaderAt(metrics: seq<string>, cell: Cell)
    requires |metrics| == 3
    ensures cell in HeaderCells(metrics) <==> cell.0 == 0 && 0 <= cell.1 <= 6
    ensures cell == (0, 0) ==> HeaderCells(metrics)[cell] == Text("date_only")
    ensures cell.0 == 0 && 1 <= cell.1 <= 3 ==> HeaderCells(metrics)[cell] == Text(metrics[cell.1 - 1])
    ensures cell.0 == 0 && 4 <= cell.1 <= 6 ==> HeaderCells(metrics)[cell] == Text(metrics[cell.1 - 4] + "_std")
  {
    RowCellsAt(0, 0, Texts(["date_only"] + metrics), cell);
    RowCellsAt(0, 4, Texts(StdNames(metrics)), cell);
  }

  /** A ChartData cell holds its header on row 0 and its day-row value below. */
  lemma ChartCellAt(metrics: seq<string>, rows: seq<Sample>, formatDate: int -> string, cell: Cell)
    requires |metrics| == 3
    ensures cell in ChartCells(metrics, rows, formatDate) <==>
      cell in HeaderCells(metrics) || cell in DayRows(DailyMeans(rows), DailySpreads(rows), formatDate, |DailyMeans(rows)|)
    ensures cell.0 == 0 && cell in HeaderCells(metrics) ==> ChartCells(metrics, rows, formatDate)[cell] == HeaderCells(metrics)[cell]
    ensures cell.0 != 0 && cell in DayRows(DailyMeans(rows), DailySpreads(rows), formatDate, |DailyMeans(rows)|) ==>
      ChartCells(metrics, rows, formatDate)[cell] == DayRows(DailyMeans(rows), DailySpreads(rows), formatDate, |DailyMeans(rows)|)[cell]
  {
    DayRowsAt(DailyMeans(rows), DailySpreads(rows), formatDate, |DailyMeans(rows)|, cell);
  }

  /** Each series' ranges are single columns over rows 1 .. number of days, the rows the day
      loop wrote. */
  lemma SeriesRanges(k: nat, n: nat)
    ensures SeriesOf(k, n).categories.firstCol == SeriesOf(k, n).categories.lastCol == 0
    ensures SeriesOf(k, n).values.firstCol == SeriesOf(k, n).values.lastCol == k + 1
    ensures SeriesOf(k, n).plusMinus.firstCol == SeriesOf(k, n).plusMinus.lastCol == k + 4
    ensures SeriesOf(k, n).values.firstRow == SeriesOf(k, n).plusMinus.firstRow == SeriesOf(k, n).categories.firstRow == 1
    ensures SeriesOf(k, n).values.lastRow == SeriesOf(k, n).plusMinus.lastRow == SeriesOf(k, n).categories.lastRow == n
    ensures SeriesOf(k, n).name == (0, k + 1)
  {
  }

  /** Each series' name cell holds its metric's name, and the header of the column passed as its
      plus/minus range is the same metric's `_std` name. */
  lemma SeriesHeadersRead(metrics: seq<string>, rows: seq<Sample>, formatDate: int -> string, k: nat)
    requires |metrics| == 3 && k < 3
    ensures SeriesOf(k, |DailyMeans(rows)|).name in ChartCells(metrics, rows, formatDate) &&
      ChartCells(metrics, rows, formatDate)[SeriesOf(k, |DailyMeans(rows)|).name] == Text(metrics[k])
    ensures (0, SeriesOf(k, |DailyMeans(rows)|).plusMinus.firstCol) in ChartCells(metrics, rows, formatDate) &&
      ChartCells(metrics, rows, formatDate)[(0, SeriesOf(k, |DailyMeans(rows)|).plusMinus.firstCol)] == Text(metrics[k] + "_std")
  {
    HeaderAt(metrics, (0, k + 1));
    HeaderAt(metrics, (0, k + 4));
    ChartCellAt(metrics, rows, formatDate, (0, k + 1));
    ChartCellAt(metrics, rows, formatDate, (0, k + 4));
  }

  /** On every row `t` of a series' ranges, the category cell holds day `t - 1`'s date, the
      value cell that day's mean of the series' metric and the plus/minus cell that day's
      deviation of the same metric, computed for the same day. */
  lemma SeriesDayRead(metrics: seq<string>, rows: seq<Sample>, formatDate: int -> string, k: nat, t: int)
    requires |metrics| == 3 && k < 3
    requires 1 <= t <= |DailyMeans(rows)|
    ensures (t, SeriesOf(k, |DailyMeans(rows)|).categories.firstCol) in ChartCells(metrics, rows, formatDate) &&
      ChartCells(metrics, rows, formatDate)[(t, SeriesOf(k, |DailyMeans(rows)|).categories.firstCol)] == Text(formatDate(DailyMeans(rows)[t - 1].date))
    ensures (t, SeriesOf(k, |DailyMeans(rows)|).values.firstCol) in ChartCells(metrics, rows, formatDate) &&
      ChartCells(metrics, rows, formatDate)[(t, SeriesOf(k, |DailyMeans(rows)|).values.firstCol)] == Number(MeanAt(DailyMeans(rows)[t - 1], k + 1))
    ensures (t, SeriesOf(k, |DailyMeans(rows)|).plusMinus.firstCol) in ChartCells(metrics, rows, formatDate) &&
      ChartCells(metrics, rows, formatDate)[(t, SeriesOf(k, |DailyMeans(rows)|).plusMinus.firstCol)] == DeviationValue(VarianceAt(DailySpreads(rows)[t - 1], k + 1))
    ensures DailySpreads(rows)[t - 1].date == DailyMeans(rows)[t - 1].date
  {
    var means, spreads := DailyMeans(rows), DailySpreads(rows);
    var n := |means|;
    DayRowsAt(means, spreads, formatDate, n, (t, 0));
    DayRowsAt(means, spreads, formatDate, n, (t, k + 1));
    DayRowsAt(means, spreads, formatDate, n, (t, k + 4));
    ChartCellAt(metrics, rows, formatDate, (t, 0));
    ChartCellAt(metrics, rows, formatDate, (t, k + 1));
    ChartCellAt(metrics, rows, formatDate, (t, k + 4));
    DailyDates(rows);
  }

  /** The series ranges cover every written day row and nothing below it: the sheet has data
      exactly on rows 1 .. number of days. */
  lemma ChartRowsAreTheDays(metrics: seq<string>, rows: seq<Sample>, formatDate: int -> string, cell: Cell)
    requires |metrics| == 3
    ensures cell in ChartCells(metrics, rows, formatDate) <==> 0 <= cell.0 <= |DailyMeans(rows)| && 0 <= cell.1 <= 6
  {
    HeaderAt(metrics, cell);
    DayRowsAt(DailyMeans(rows), DailySpreads(rows), formatDate, |DailyMeans(rows)|, cell);
  }
}
