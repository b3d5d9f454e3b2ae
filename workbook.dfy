/** The cell grid of an xlsxwriter worksheet as the report fills it: `ws.write(row, col, value)`
    and `ws.write_row(ref, values)`, with zero-based row and column numbers. */
module Workbook {
  import opened Wrappers

  /** What a cell holds: text, a number, a standard deviation (kept as its variance, since the
      square root is not modelled) or the NaN pandas produces for an undefined statistic. */
  datatype Value = Text(text: string) | Number(x: real) | Deviation(variance: real) | NaN

  type Cell = (int, int)

  /** A worksheet: the cells written so far. */
  class Worksheet {
    var cells: map<Cell, Value>

    constructor ()
      ensures cells == map[]
    {
      cells := map[];
    }

    /** `ws.write(row, col, v)`: a later write to the same cell replaces the earlier one. */
    method Write(row: int, col: int, v: Value)
      modifies this
      ensures cells == old(cells)[(row, col) := v]
    {
      cells := cells[(row, col) := v];
    }

    /** `ws.write_row(row, col, values)`: the values go to consecutive columns of one row. */
    method WriteRow(row: int, col: int, values: seq<Value>)
      modifies this
      ensures cells == old(cells) + RowCells(row, col, values)
    {
      var k := 0;
      while k < |values|
        invariant 0 <= k <= |values|
        invariant cells == old(cells) + RowCells(row, col, values[..k])
      {
        RowCellsSnoc(row, col, values[..k], values[k]);
        assert values[..k + 1] == values[..k] + [values[k]];
        Write(row, col + k, values[k]);
        k := k + 1;
      }
      assert values[..k] == values;
    }
  }

  /** The cells `write_row(row, col, values)` fills. */
  function RowCells(row: int, col: int, values: seq<Value>): map<Cell, Value>
  {
    if values == [] then map[]
    else RowCells(row, col, values[..|values| - 1])[(row, col + |values| - 1) := values[|values| - 1]]
  }

  lemma RowCellsSnoc(row: int, col: int, values: seq<Value>, v: Value)
    ensures RowCells(row, col, values + [v]) == RowCells(row, col, values)[(row, col + |values|) := v]
  {
    assert (values + [v])[..|values|] == values;
  }

  /** `write_row` fills exactly the cells `(row, col + k)` for `k < |values|`, cell `k` with the
      `k`th value. */
  lemma {:induction false} RowCellsAt(row: int, col: int, values: seq<Value>, cell: Cell)
    ensures cell in RowCells(row, col, values) <==> cell.0 == row && col <= cell.1 < col + |values|
    ensures cell in RowCells(row, col, values) ==> RowCells(row, col, values)[cell] == values[cell.1 - col]
  {
    if values != [] {
      RowCellsAt(row, col, values[..|values| - 1], cell);
    }
  }

  /** Writing a cell after a union is writing it into the right operand. */
  lemma UnionUpdate(a: map<Cell, Value>, b: map<Cell, Value>, cell: Cell, v: Value)
    ensures (a + b)[cell := v] == a + b[cell := v]
  {
  }

  lemma UnionAssociative(a: map<Cell, Value>, b: map<Cell, Value>, c: map<Cell, Value>)
    ensures a + (b + c) == (a + b) + c
  {
  }

  lemma UpdateIsUnion(a: map<Cell, Value>, cell: Cell, v: Value)
    ensures a[cell := v] == a + map[cell := v]
  {
  }

  /** Texts for a row of headers or labels. */
  function Texts(names: seq<string>): (r: seq<Value>)
    ensures |r| == |names| && forall k :: 0 <= k < |names| ==> r[k] == Text(names[k])
  {
    seq(|names|, k requires 0 <= k < |names| => Text(names[k]))
  }

  /** How an optional variance is written: NaN when it is undefined. */
  function DeviationValue(v: Option<real>): (r: Value)
    ensures r.NaN? <==> v.None?
    ensures v.Some? ==> r == Deviation(v.value)
  {
    if v.Some? then Deviation(v.value) else NaN
  }

  /** An A1-style reference with a single column letter, as the report uses ("A1", "E1",
      "H3"): the letter picks the column from 'A' = 0, the digits give the one-based row. */
  function CellRef(ref: string): (r: Option<Cell>)
    ensures r.Some? ==> r.value.0 >= 0 && 0 <= r.value.1 < 26
  {
    if |ref| < 2 || !('A' <= ref[0] <= 'Z') || !AllDigits(ref[1..]) || DecimalValue(ref[1..]) == 0 then None
    else Some((DecimalValue(ref[1..]) - 1, ref[0] as int - 'A' as int))
  }

  predicate AllDigits(s: string)
  {
    forall k :: 0 <= k < |s| ==> '0' <= s[k] <= '9'
  }

  function DecimalValue(s: string): nat
    requires AllDigits(s)
  {
    if s == [] then 0 else 10 * DecimalValue(s[..|s| - 1]) + (s[|s| - 1] as int - '0' as int)
  }

  /** The three references in the report. */
  lemma ReportReferences()
    ensures CellRef("A1") == Some((0, 0)) && CellRef("E1") == Some((0, 4)) && CellRef("H3") == Some((2, 7))
  {
    assert "A1"[1..] == "1" && "E1"[1..] == "1" && "H3"[1..] == "3";
    assert DecimalValue("1") == 1 by { assert "1"[..0] == ""; }
    assert DecimalValue("3") == 3 by { assert "3"[..0] == ""; }
  }
}
