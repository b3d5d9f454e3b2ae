/** The Summary sheet of the workbook: `write_df` lays each statistics table out as a block
    (title, column headers, row labels, values) and the three scopes' blocks start at rows 0, 10
    and 20 of column 0. */
module SummarySheet {
  import opened Wrappers
  import opened Samples
  import opened Describe
  import opened Midday
  import opened Workbook

  /** A frame as `write_df` reads it: column names, row labels and the values by row. */
  datatype Table = Table(columns: seq<string>, index: seq<string>, values: seq<seq<Value>>)

  /** A frame is rectangular: one value per row label and column name. */
  predicate WellFormed(t: Table)
  {
    |t.values| == |t.index| && forall i :: 0 <= i < |t.values| ==> |t.values[i]| == |t.columns|
  }

  /** The cell `write_df` gets for the statistic labelled `name` of one scope's summary: the
      statistic itself, or NaN for an empty scope. */
  function StatCell(s: Option<Summary>, name: string): Value
    requires name in StatNames
  {
    if s.None? then NaN else Number(Stat(s.value, name).value)
  }

  /** One metric's row of the transposed statistics: the k-th value is the statistic named by the
      k-th column label; an empty scope gives NaN throughout. */
  function SummaryRow(s: Option<Summary>): (r: seq<Value>)
    ensures |r| == |StatNames|
    ensures forall b :: 0 <= b < |StatNames| ==> r[b] == StatCell(s, StatNames[b])
  {
    if s.None? then [NaN, NaN, NaN, NaN, NaN]
    else [Number(s.value.min), Number(s.value.q1), Number(s.value.median), Number(s.value.q3), Number(s.value.max)]
  }

  /** `generate_statistics`' table: one row per metric, labelled with the metric's name, and the
      five statistics as columns; the value in row `a` under column label `columns[b]` is that
      statistic of metric `a`. */
  function StatsTable(metrics: seq<string>, stats: seq<Option<Summary>>): (t: Table)
    requires |metrics| == |stats|
    ensures WellFormed(t) && t.columns == StatNames && t.index == metrics
    ensures forall a, b :: 0 <= a < |stats| && 0 <= b < |StatNames| ==>
      t.values[a][b] == StatCell(stats[a], StatNames[b])
  {
    Table(StatNames, metrics, seq(|stats|, i requires 0 <= i < |stats| => SummaryRow(stats[i])))
  }

  /** Title and header row of a block. */
  function Head(r: int, c: int, title: string, t: Table): map<Cell, Value>
  {
    map[(r, c) := Text(title)] + RowCells(r + 1, c + 1, Texts(t.columns))
  }

  /** One data row: its label in column `c`, its values from column `c + 1` on. */
  function DataRow(r: int, c: int, t: Table, i: nat): map<Cell, Value>
    requires i < |t.index| && WellFormed(t)
  {
    map[(r + 2 + i, c) := Text(t.index[i])] + RowCells(r + 2 + i, c + 1, t.values[i])
  }

  /** The first `n` data rows. */
  function DataRows(r: int, c: int, t: Table, n: nat): map<Cell, Value>
    requires n <= |t.index| && WellFormed(t)
  {
    if n == 0 then map[] else DataRows(r, c, t, n - 1) + DataRow(r, c, t, n - 1)
  }

  /** Everything `write_df(ws, r, c, title, t)` writes. */
  function Block(r: int, c: int, title: string, t: Table): map<Cell, Value>
    requires WellFormed(t)
  {
    Head(r, c, title, t) + DataRows(r, c, t, |t.index|)
  }

  /** The title in the block's corner, then one header per column. */
  method WriteHead(ws: Worksheet, r: int, c: int, title: string, t: Table)
    modifies ws
    ensures ws.cells == old(ws.cells) + Head(r, c, title, t)
  {
    ws.Write(r, c, Text(title));
    UpdateIsUnion(old(ws.cells), (r, c), Text(title));
    var start := ws.cells;
    var j := 0;
    while j < |t.columns|
      invariant 0 <= j <= |t.columns|
      invariant ws.cells == start + RowCells(r + 1, c + 1, Texts(t.columns)[..j])
    {
      RowCellsSnoc(r + 1, c + 1, Texts(t.columns)[..j], Text(t.columns[j]));
      UnionUpdate(start, RowCells(r + 1, c + 1, Texts(t.columns)[..j]), (r + 1, c + 1 + j), Text(t.columns[j]));
      assert Texts(t.columns)[..j + 1] == Texts(t.columns)[..j] + [Text(t.columns[j])];
      ws.Write(r + 1, c + 1 + j, Text(t.columns[j]));
      j := j + 1;
    }
    assert Texts(t.columns)[..j] == Texts(t.columns);
    UnionAssociative(old(ws.cells), map[(r, c) := Text(title)], RowCells(r + 1, c + 1, Texts(t.columns)));
  }

  /** Data row `i`: its label, then its values column by column. */
  method WriteDataRow(ws: Worksheet, r: int, c: int, t: Table, i: nat)
    requires i < |t.index| && WellFormed(t)
    modifies ws
    ensures ws.cells == old(ws.cells) + DataRow(r, c, t, i)
  {
    ws.Write(r + 2 + i, c, Text(t.index[i]));
    UpdateIsUnion(old(ws.cells), (r + 2 + i, c), Text(t.index[i]));
    var start := ws.cells;
    var j := 0;
    while j < |t.columns|
      invariant 0 <= j <= |t.columns|
      invariant ws.cells == start + RowCells(r + 2 + i, c + 1, t.values[i][..j])
    {
      RowCellsSnoc(r + 2 + i, c + 1, t.values[i][..j], t.values[i][j]);
      UnionUpdate(start, RowCells(r + 2 + i, c + 1, t.values[i][..j]), (r + 2 + i, c + 1 + j), t.values[i][j]);
      assert t.values[i][..j + 1] == t.values[i][..j] + [t.values[i][j]];
      ws.Write(r + 2 + i, c + 1 + j, t.values[i][j]);
      j := j + 1;
    }
    assert t.values[i][..j] == t.values[i];
    UnionAssociative(old(ws.cells), map[(r + 2 + i, c) := Text(t.index[i])], RowCells(r + 2 + i, c + 1, t.values[i]));
  }

  /** `write_df`: the title and the column headers, then row by row the label and the
      values. */
  method WriteTable(ws: Worksheet, r: int, c: int, title: string, t: Table)
    requires WellFormed(t)
    modifies ws
    ensures ws.cells == old(ws.cells) + Block(r, c, title, t)
  {
    WriteHead(ws, r, c, title, t);
    var i := 0;
    while i < |t.index|
      invariant 0 <= i <= |t.index|
      invariant ws.cells == old(ws.cells) + Head(r, c, title, t) + DataRows(r, c, t, i)
    {
      WriteDataRow(ws, r, c, t, i);
      UnionAssociative(old(ws.cells) + Head(r, c, title, t), DataRows(r, c, t, i), DataRow(r, c, t, i));
      i := i + 1;
    }
    UnionAssociative(old(ws.cells), Head(r, c, title, t), DataRows(r, c, t, |t.index|));
  }

  /** Where the data rows put things: label `a` in column `c`, value `(a, b)` in column
      `c + 1 + b`, both on row `r + 2 + a`. */
  function DataValue(r: int, c: int, t: Table, cell: Cell): Value
    requires WellFormed(t) && r + 2 <= cell.0 < r + 2 + |t.index| && c <= cell.1 <= c + |t.columns|
  {
    var a := cell.0 - r - 2;
    if cell.1 == c then Text(t.index[a]) else t.values[a][cell.1 - c - 1]
  }

  /** The first `n` data rows fill exactly rows `r + 2 .. r + 1 + n`, columns `c .. c + |columns|`,
      with the label and the values of that row. */
  lemma {:induction false} DataRowsAt(r: int, c: int, t: Table, n: nat, cell: Cell)
    requires n <= |t.index| && WellFormed(t)
    ensures cell in DataRows(r, c, t, n) <==> r + 2 <= cell.0 < r + 2 + n && c <= cell.1 <= c + |t.columns|
    ensures cell in DataRows(r, c, t, n) ==> DataRows(r, c, t, n)[cell] == DataValue(r, c, t, cell)
  {
    if n > 0 {
      DataRowsAt(r, c, t, n - 1, cell);
      RowCellsAt(r + 2 + n - 1, c + 1, t.values[n - 1], cell);
    }
  }

  /** The layout of one block: the title at `(r, c)`, column header `b` at `(r + 1, c + 1 + b)`,
      row label `a` at `(r + 2 + a, c)` and value `(a, b)` at `(r + 2 + a, c + 1 + b)`. */
  predicate InBlock(r: int, c: int, t: Table, cell: Cell)
  {
    cell == (r, c) || (cell.0 == r + 1 && c + 1 <= cell.1 <= c + |t.columns|) ||
    (r + 2 <= cell.0 < r + 2 + |t.index| && c <= cell.1 <= c + |t.columns|)
  }

  function BlockValue(r: int, c: int, title: string, t: Table, cell: Cell): Value
    requires WellFormed(t) && InBlock(r, c, t, cell)
  {
    if cell == (r, c) then Text(title)
    else if cell.0 == r + 1 then Text(t.columns[cell.1 - c - 1])
    else DataValue(r, c, t, cell)
  }

  /** `write_df` writes exactly the cells of the layout, each with its layout value. */
  lemma BlockAt(r: int, c: int, title: string, t: Table, cell: Cell)
    requires WellFormed(t)
    ensures cell in Block(r, c, title, t) <==> InBlock(r, c, t, cell)
    ensures cell in Block(r, c, title, t) ==> Block(r, c, title, t)[cell] == BlockValue(r, c, title, t, cell)
  {
    DataRowsAt(r, c, t, |t.index|, cell);
    RowCellsAt(r + 1, c + 1, Texts(t.columns), cell);
  }

  /** A block stays inside rows `r .. r + 1 + |index|` and columns `c .. c + |columns|`. */
  lemma BlockBounds(r: int, c: int, title: string, t: Table, cell: Cell)
    requires WellFormed(t) && cell in Block(r, c, title, t)
    ensures r <= cell.0 <= r + 1 + |t.index| && c <= cell.1 <= c + |t.columns|
  {
    BlockAt(r, c, title, t, cell);
  }

  const TitleAll: string := "\U{1F4CA} Summary: All Rows"
  const TitleBefore: string := "\U{1F305} Summary: Before Midday"
  const TitleAfter: string := "\U{1F307} Summary: After Midday"

  /** The three blocks as written one after the other. */
  function SummaryCells(all: Table, before: Table, after: Table): map<Cell, Value>
    requires WellFormed(all) && WellFormed(before) && WellFormed(after)
  {
    Block(0, 0, TitleAll, all) + Block(10, 0, TitleBefore, before) + Block(20, 0, TitleAfter, after)
  }

  /** The Summary sheet: the three scopes' tables at rows 0, 10 and 20. */
  method WriteSummary(ws: Worksheet, all: Table, before: Table, after: Table)
    requires WellFormed(all) && WellFormed(before) && WellFormed(after)
    modifies ws
    ensures ws.cells == old(ws.cells) + SummaryCells(all, before, after)
  {
    WriteTable(ws, 0, 0, TitleAll, all);
    WriteTable(ws, 10, 0, TitleBefore, before);
    WriteTable(ws, 20, 0, TitleAfter, after);
    UnionAssociative(old(ws.cells), Block(0, 0, TitleAll, all), Block(10, 0, TitleBefore, before));
    UnionAssociative(old(ws.cells), Block(0, 0, TitleAll, all) + Block(10, 0, TitleBefore, before), Block(20, 0, TitleAfter, after));
  }

  /** With at most 8 rows per table the blocks do not overlap, so every block survives the
      later ones intact. */
  lemma SummaryBlocksDisjoint(all: Table, before: Table, after: Table, cell: Cell)
    requires WellFormed(all) && WellFormed(before) && WellFormed(after)
    requires |all.index| <= 8 && |before.index| <= 8
    ensures cell in Block(0, 0, TitleAll, all) ==> cell !in Block(10, 0, TitleBefore, before) && cell !in Block(20, 0, TitleAfter, after)
    ensures cell in Block(10, 0, TitleBefore, before) ==> cell !in Block(20, 0, TitleAfter, after)
    ensures cell in Block(0, 0, TitleAll, all) ==> SummaryCells(all, before, after)[cell] == Block(0, 0, TitleAll, all)[cell]
    ensures cell in Block(10, 0, TitleBefore, before) ==> SummaryCells(all, before, after)[cell] == Block(10, 0, TitleBefore, before)[cell]
    ensures cell in Block(20, 0, TitleAfter, after) ==> SummaryCells(all, before, after)[cell] == Block(20, 0, TitleAfter, after)[cell]
  {
    BlockBounds3(all, before, after, cell);
  }

  lemma BlockBounds3(all: Table, before: Table, after: Table, cell: Cell)
    requires WellFormed(all) && WellFormed(before) && WellFormed(after)
    ensures cell in Block(0, 0, TitleAll, all) ==> 0 <= cell.0 <= 1 + |all.index|
    ensures cell in Block(10, 0, TitleBefore, before) ==> 10 <= cell.0 <= 11 + |before.index|
    ensures cell in Block(20, 0, TitleAfter, after) ==> 20 <= cell.0
  {
    if cell in Block(0, 0, TitleAll, all) {
      BlockBounds(0, 0, TitleAll, all, cell);
    }
    if cell in Block(10, 0, TitleBefore, before) {
      BlockBounds(10, 0, TitleBefore, before, cell);
    }
    if cell in Block(20, 0, TitleAfter, after) {
      BlockBounds(20, 0, TitleAfter, after, cell);
    }
  }

  /** The bound is tight: a 9-row table's last row lands on the next block's title cell. */
  lemma NineRowsCollide(all: Table, before: Table)
    requires WellFormed(all) && WellFormed(before) && |all.index| == 9
    ensures (10, 0) in Block(0, 0, TitleAll, all) && (10, 0) in Block(10, 0, TitleBefore, before)
  {
    BlockAt(0, 0, TitleAll, all, (10, 0));
    BlockAt(10, 0, TitleBefore, before, (10, 0));
  }

  /** What one scope's block should show, read off the report's design rather than off
      `write_df`: the title at `(top, 0)`, the statistic names along row `top + 1`, the metric
      names down column 0 from row `top + 2`, and where metric `a`'s row meets the column headed
      by a statistic's name, that statistic of metric `a` (NaN for an empty scope). */
  function ScopeCell(top: int, title: string, metrics: seq<string>, stats: seq<Option<Summary>>, cell: Cell): Option<Value>
    requires |stats| == |metrics|
  {
    var i, j := cell.0 - top, cell.1;
    if cell == (top, 0) then Some(Text(title))
    else if i == 1 && 1 <= j <= |StatNames| then Some(Text(StatNames[j - 1]))
    else if 2 <= i < 2 + |metrics| && j == 0 then Some(Text(metrics[i - 2]))
    else if 2 <= i < 2 + |metrics| && 1 <= j <= |StatNames| then Some(StatCell(stats[i - 2], StatNames[j - 1]))
    else None
  }

  lemma ScopeStatCell(top: int, title: string, metrics: seq<string>, stats: seq<Option<Summary>>, a: nat, b: nat)
    requires |stats| == |metrics| && a < |metrics| && b < |StatNames|
    ensures ScopeCell(top, title, metrics, stats, (top + 2 + a, 1 + b)) == Some(StatCell(stats[a], StatNames[b]))
  {
    var cell := (top + 2 + a, 1 + b);
    assert cell != (top, 0) && cell.0 - top == 2 + a && cell.1 - 1 == b;
  }

  /** The block `write_df` writes for a statistics table is exactly the designed one. */
  lemma ScopeBlockCell(top: int, title: string, metrics: seq<string>, stats: seq<Option<Summary>>, cell: Cell)
    requires |stats| == |metrics|
    ensures cell in Block(top, 0, title, StatsTable(metrics, stats)) <==> ScopeCell(top, title, metrics, stats, cell).Some?
    ensures cell in Block(top, 0, title, StatsTable(metrics, stats)) ==>
      Block(top, 0, title, StatsTable(metrics, stats))[cell] == ScopeCell(top, title, metrics, stats, cell).value
  {
    BlockAt(top, 0, title, StatsTable(metrics, stats), cell);
  }

  /** The designed Summary sheet: the three scopes' blocks at rows 0, 10 and 20. */
  function SummaryLayout(metrics: seq<string>, sAll: seq<Option<Summary>>, sBefore: seq<Option<Summary>>,
                         sAfter: seq<Option<Summary>>, cell: Cell): Option<Value>
    requires |metrics| == |sAll| == |sBefore| == |sAfter|
  {
    if cell.0 < 10 then ScopeCell(0, TitleAll, metrics, sAll, cell)
    else if cell.0 < 20 then ScopeCell(10, TitleBefore, metrics, sBefore, cell)
    else ScopeCell(20, TitleAfter, metrics, sAfter, cell)
  }

  /** With the report's three metrics, the finished Summary sheet is exactly the designed one:
      a cell is written iff the design has it, and it holds the designed value, so under each
      statistic's name stands that statistic of the row's metric in the block's scope. */
  lemma SummarySheetLayout(metrics: seq<string>, sAll: seq<Option<Summary>>, sBefore: seq<Option<Summary>>,
                           sAfter: seq<Option<Summary>>, cell: Cell)
    requires |metrics| == 3 && |sAll| == 3 && |sBefore| == 3 && |sAfter| == 3
    ensures var cells := SummaryCells(StatsTable(metrics, sAll), StatsTable(metrics, sBefore), StatsTable(metrics, sAfter));
      (cell in cells <==> SummaryLayout(metrics, sAll, sBefore, sAfter, cell).Some?) &&
      (cell in cells ==> cells[cell] == SummaryLayout(metrics, sAll, sBefore, sAfter, cell).value)
  {
    var all, before, after := StatsTable(metrics, sAll), StatsTable(metrics, sBefore), StatsTable(metrics, sAfter);
    SummaryBlocksDisjoint(all, before, after, cell);
    ScopeBlockCell(0, TitleAll, metrics, sAll, cell);
    ScopeBlockCell(10, TitleBefore, metrics, sBefore, cell);
    ScopeBlockCell(20, TitleAfter, metrics, sAfter, cell);
  }

  /** The Summary sheet of the report: the layout above, filled with the statistics of all
      readings and of the readings before and after midday. */
  lemma ReportSummarySheet(metrics: seq<string>, rows: seq<Sample>, cell: Cell)
    requires |metrics| == 3
    ensures var sAll, sBefore, sAfter := Statistics(rows), Statistics(BeforeMidday(rows)), Statistics(AfterMidday(rows));
      var cells := SummaryCells(StatsTable(metrics, sAll), StatsTable(metrics, sBefore), StatsTable(metrics, sAfter));
      (cell in cells <==> SummaryLayout(metrics, sAll, sBefore, sAfter, cell).Some?) &&
      (cell in cells ==> cells[cell] == SummaryLayout(metrics, sAll, sBefore, sAfter, cell).value)
  {
    SummarySheetLayout(metrics, Statistics(rows), Statistics(BeforeMidday(rows)), Statistics(AfterMidday(rows)), cell);
  }

  /** Metric `a`'s statistic named `StatNames[b]` of the scope whose block starts at row `top`
      stands at row top + 2 + a, column 1 + b of the finished Summary sheet. */
  lemma SheetStatCell(metrics: seq<string>, sAll: seq<Option<Summary>>, sBefore: seq<Option<Summary>>,
                      sAfter: seq<Option<Summary>>, top: int, a: nat, b: nat)
    requires |metrics| == 3 && |sAll| == 3 && |sBefore| == 3 && |sAfter| == 3 && a < 3 && b < 5
    requires top == 0 || top == 10 || top == 20
    ensures var cells := SummaryCells(StatsTable(metrics, sAll), StatsTable(metrics, sBefore), StatsTable(metrics, sAfter));
      var stats := if top == 0 then sAll else if top == 10 then sBefore else sAfter;
      (top + 2 + a, 1 + b) in cells && cells[(top + 2 + a, 1 + b)] == StatCell(stats[a], StatNames[b])
  {
    var cell := (top + 2 + a, 1 + b);
    SummarySheetLayout(metrics, sAll, sBefore, sAfter, cell);
    var title := if top == 0 then TitleAll else if top == 10 then TitleBefore else TitleAfter;
    var stats := if top == 0 then sAll else if top == 10 then sBefore else sAfter;
    assert SummaryLayout(metrics, sAll, sBefore, sAfter, cell) == ScopeCell(top, title, metrics, stats, cell);
    ScopeStatCell(top, title, metrics, stats, a, b);
  }

  lemma StatisticsAt(rows: seq<Sample>, a: nat)
    requires a < 3
    ensures Statistics(rows)[a] == DescribeColumn(Column(rows, a + 1))
  {
  }

  /** On the report's Summary sheet, metric `a`'s statistic named `StatNames[b]` stands at row
      top + 2 + a, column 1 + b, computed over all readings (top 0), over the readings before
      midday (top 10) or over the readings from midday on (top 20). */
  lemma ReportStatCell(metrics: seq<string>, rows: seq<Sample>, top: int, a: nat, b: nat)
    requires |metrics| == 3 && a < 3 && b < 5
    requires top == 0 || top == 10 || top == 20
    ensures var cells := SummaryCells(StatsTable(metrics, Statistics(rows)), StatsTable(metrics, Statistics(BeforeMidday(rows))),
                                      StatsTable(metrics, Statistics(AfterMidday(rows))));
      var inScope := if top == 0 then rows else if top == 10 then BeforeMidday(rows) else AfterMidday(rows);
      (top + 2 + a, 1 + b) in cells && cells[(top + 2 + a, 1 + b)] == StatCell(DescribeColumn(Column(inScope, a + 1)), StatNames[b])
  {
    var inScope := if top == 0 then rows else if top == 10 then BeforeMidday(rows) else AfterMidday(rows);
    StatisticsAt(inScope, a);
    SheetStatCell(metrics, Statistics(rows), Statistics(BeforeMidday(rows)), Statistics(AfterMidday(rows)), top, a, b);
  }

  /** The statistics tables have one row per metric (three) and five columns, so they fit, and
      the chart anchored at H3 (row 2, column 7) lies to the right of every block. */
  lemma ReportLayoutFits(metrics: seq<string>, sAll: seq<Option<Summary>>, sBefore: seq<Option<Summary>>, sAfter: seq<Option<Summary>>)
    requires |metrics| == 3 && |sAll| == 3 && |sBefore| == 3 && |sAfter| == 3
    ensures var all, before, after := StatsTable(metrics, sAll), StatsTable(metrics, sBefore), StatsTable(metrics, sAfter);
      |all.index| <= 8 && |before.index| <= 8 && CellRef("H3") == Some((2, 7)) &&
      (2, 7) !in SummaryCells(all, before, after)
  {
    var all, before, after := StatsTable(metrics, sAll), StatsTable(metrics, sBefore), StatsTable(metrics, sAfter);
    ReportReferences();
    BlockAt(0, 0, TitleAll, all, (2, 7));
    BlockAt(10, 0, TitleBefore, before, (2, 7));
    BlockAt(20, 0, TitleAfter, after, (2, 7));
  }
}
