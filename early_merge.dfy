/** The earlier merge of analize_csv.py: read every file, concatenate, drop duplicates and
    optionally swap columns 1 and 2, with no column check and no row cleaning.  Cells are left
    abstract (`C`): the rows pass through exactly as `pd.read_csv` produced them. */
module EarlyMerge {
  import opened Wrappers
  import opened Seqs
  import opened Dedup

  /** A frame of `width` columns. */
  datatype Table<C> = Table(width: nat, rows: seq<seq<C>>)

  /** `ReadFailed(i)`: reading file i raised (nothing catches it); `NoObjectsToConcatenate`:
      `pd.concat([])`; `ColumnIndexOutOfRange`: `cols[2]` on a frame of fewer than 3 columns. */
  datatype EarlyError = ReadFailed(file: nat) | NoObjectsToConcatenate | ColumnIndexOutOfRange

  /** Every row of the table has exactly `width` cells. */
  ghost predicate Rectangular<C>(t: Table<C>, width: nat)
  {
    t.width == width && forall r :: r in t.rows ==> |r| == width
  }

  /** The index of the first file whose reading failed, if any. */
  function FirstFailure<C>(files: seq<Option<Table<C>>>): (r: Option<nat>)
    ensures r.Some? ==>
      r.value < |files| && files[r.value].None? && forall i :: 0 <= i < r.value ==> files[i].Some?
    ensures r.None? ==> forall i :: 0 <= i < |files| ==> files[i].Some?
  {
    if files == [] then None
    else if files[0].None? then Some(0)
    else
      match FirstFailure(files[1..])
      case None => None
      case Some(i) => Some(i + 1)
  }

  /** The rows of all tables in argument order. */
  function AllRows<C>(files: seq<Option<Table<C>>>): seq<seq<C>>
    requires forall i :: 0 <= i < |files| ==> files[i].Some?
  {
    if files == [] then [] else AllRows(files[..|files| - 1]) + files[|files| - 1].value.rows
  }

  /** `cols[1], cols[2] = cols[2], cols[1]` on one row. */
  function SwapCells<C>(row: seq<C>): (r: seq<C>)
    requires |row| >= 3
    ensures |r| == |row| && r[1] == row[2] && r[2] == row[1]
    ensures forall k :: 0 <= k < |row| && k != 1 && k != 2 ==> r[k] == row[k]
  {
    [row[0], row[2], row[1]] + row[3..]
  }

  function SwapRows<C>(rows: seq<seq<C>>): (r: seq<seq<C>>)
    requires forall i :: 0 <= i < |rows| ==> |rows[i]| >= 3
    ensures |r| == |rows| && forall i :: 0 <= i < |rows| ==> r[i] == SwapCells(rows[i])
  {
    seq(|rows|, i requires 0 <= i < |rows| => SwapCells(rows[i]))
  }

  /** `read_and_merge_files` of analize_csv.py, for files that share one column layout. */
  function EarlyReadAndMerge<C(==)>(files: seq<Option<Table<C>>>, width: nat, swap: bool)
    : (r: Result<seq<seq<C>>, EarlyError>)
    requires forall i :: 0 <= i < |files| && files[i].Some? ==> Rectangular(files[i].value, width)
    ensures r.Ok? ==> forall k :: 0 <= k < |r.value| ==> |r.value[k]| == width
    ensures r.Ok? && swap ==> width >= 3
  {
    match FirstFailure(files)
    case Some(i) => Err(ReadFailed(i))
    case None =>
      if files == [] then Err(NoObjectsToConcatenate)
      else
        AllRowsWidth(files, width);
        var combined := DropDuplicates(AllRows(files));
        if !swap then Ok(combined)
        else if width < 3 then Err(ColumnIndexOutOfRange)
        else Ok(SwapRows(combined))
  }

  lemma {:induction false} AllRowsWidth<C>(files: seq<Option<Table<C>>>, width: nat)
    requires forall i :: 0 <= i < |files| ==> files[i].Some? && Rectangular(files[i].value, width)
    ensures forall k :: 0 <= k < |AllRows(files)| ==> |AllRows(files)[k]| == width
  {
    if files != [] {
      AllRowsWidth(files[..|files| - 1], width);
      var t := files[|files| - 1].value;
      assert forall k :: 0 <= k < |t.rows| ==> t.rows[k] in t.rows;
    }
  }

  /** A row of the concatenation was read from one of the files, and every read row is there. */
  lemma {:induction false} AllRowsMember<C>(files: seq<Option<Table<C>>>, row: seq<C>)
    requires forall i :: 0 <= i < |files| ==> files[i].Some?
    ensures row in AllRows(files) <==> exists i :: 0 <= i < |files| && row in files[i].value.rows
  {
    if files != [] {
      var init := files[..|files| - 1];
      AllRowsMember(init, row);
      assert forall i :: 0 <= i < |init| ==> init[i] == files[i];
    }
  }

  /** The outcome: failure of the first unreadable file, else `concat([])`, else the swap's index
      error on a frame narrower than 3 columns, else success. */
  lemma EarlyMergeOutcome<C>(files: seq<Option<Table<C>>>, width: nat, swap: bool)
    requires forall i :: 0 <= i < |files| && files[i].Some? ==> Rectangular(files[i].value, width)
    ensures var r := EarlyReadAndMerge(files, width, swap);
      && (forall i: nat :: r == Err(ReadFailed(i)) <==>
            i < |files| && files[i].None? && forall j :: 0 <= j < i ==> files[j].Some?)
      && (r == Err(NoObjectsToConcatenate) <==> files == [])
      && (r == Err(ColumnIndexOutOfRange) <==>
            files != [] && swap && width < 3 && forall j :: 0 <= j < |files| ==> files[j].Some?)
  {
    var r := EarlyReadAndMerge(files, width, swap);
    forall i: nat | i < |files| && files[i].None? && forall j :: 0 <= j < i ==> files[j].Some?
      ensures r == Err(ReadFailed(i))
    {
      var f := FirstFailure(files);
      assert f.Some?;
      assert !(f.value < i) && !(i < f.value);
    }
  }

  /** No two merged rows are equal. */
  lemma EarlyMergedDistinct<C>(files: seq<Option<Table<C>>>, width: nat, swap: bool)
    requires forall i :: 0 <= i < |files| && files[i].Some? ==> Rectangular(files[i].value, width)
    requires EarlyReadAndMerge(files, width, swap).Ok?
    ensures Distinct(EarlyReadAndMerge(files, width, swap).value)
  {
    if swap {
      var combined := DropDuplicates(AllRows(files));
      AllRowsWidth(files, width);
      var r := EarlyReadAndMerge(files, width, swap).value;
      assert r == SwapRows(combined);
      forall a, b | 0 <= a < b < |r| ensures r[a] != r[b] {
        SwapCellsTwice(combined[a]);
        SwapCellsTwice(combined[b]);
      }
    }
  }

  /** Every merged row is a read row, with cells 1 and 2 exchanged when the swap is on. */
  lemma EarlyMergedRowsRead<C>(files: seq<Option<Table<C>>>, width: nat, swap: bool, k: nat)
    requires forall i :: 0 <= i < |files| && files[i].Some? ==> Rectangular(files[i].value, width)
    requires EarlyReadAndMerge(files, width, swap).Ok?
    requires k < |EarlyReadAndMerge(files, width, swap).value|
    ensures var row := EarlyReadAndMerge(files, width, swap).value[k];
      |row| == width && exists i :: 0 <= i < |files| && (if swap then SwapCells(row) else row) in files[i].value.rows
  {
    var combined := DropDuplicates(AllRows(files));
    AllRowsWidth(files, width);
    var y := combined[k];
    AllRowsMember(files, y);
    if swap {
      SwapCellsTwice(y);
    }
  }

  /** Conversely, every row read from a file is merged, with cells 1 and 2 exchanged when the
      swap is on. */
  lemma EarlyReadRowsMerged<C>(files: seq<Option<Table<C>>>, width: nat, swap: bool, i: nat, row: seq<C>)
    requires forall i :: 0 <= i < |files| && files[i].Some? ==> Rectangular(files[i].value, width)
    requires EarlyReadAndMerge(files, width, swap).Ok?
    requires i < |files| && files[i].Some? && row in files[i].value.rows
    ensures |row| == width
    ensures (if swap then SwapCells(row) else row) in EarlyReadAndMerge(files, width, swap).value
  {
    var all := AllRows(files);
    var combined := DropDuplicates(all);
    AllRowsMember(files, row);
    var j :| 0 <= j < |all| && all[j] == row;
    var k :| 0 <= k < |combined| && combined[k] == row;
    if swap {
      AllRowsWidth(files, width);
      assert EarlyReadAndMerge(files, width, swap).value[k] == SwapCells(row);
    }
  }

  /** The merged rows are the first occurrences of the concatenated rows, in concatenation
      order, each with cells 1 and 2 exchanged when the swap is on; every first occurrence is
      merged. */
  lemma EarlyMergedFirstOccurrences<C>(files: seq<Option<Table<C>>>, width: nat, swap: bool)
    requires forall i :: 0 <= i < |files| && files[i].Some? ==> Rectangular(files[i].value, width)
    requires EarlyReadAndMerge(files, width, swap).Ok?
    ensures var all, merged := AllRows(files), EarlyReadAndMerge(files, width, swap).value;
      var ps := KeptPositions(all);
      && |merged| == |ps| && PositionsComplete(all, ps)
      && forall k :: 0 <= k < |ps| ==>
           ps[k] < |all| && IsFirstOccurrence(all, ps[k]) &&
           (if swap then SwapCells(merged[k]) else merged[k]) == all[ps[k]]
  {
    var all := AllRows(files);
    var combined := DropDuplicates(all);
    var merged := EarlyReadAndMerge(files, width, swap).value;
    KeepsFirstOccurrences(all);
    AllRowsWidth(files, width);
    if swap {
      assert merged == SwapRows(combined);
      forall k | 0 <= k < |combined| ensures SwapCells(merged[k]) == combined[k] {
        SwapCellsTwice(combined[k]);
      }
    }
  }

  /** Swapping twice restores each row. */
  lemma SwapCellsTwice<C>(row: seq<C>)
    requires |row| >= 3
    ensures SwapCells(SwapCells(row)) == row
  {
  }
}
