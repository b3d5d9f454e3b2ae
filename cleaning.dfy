/** Loading, cleaning and merging the measurement files (`read_and_merge_files` of analise_csv.py). */
module Cleaning {
  import opened Wrappers
  import opened Seqs
  import opened Dedup
  import opened Samples

  /** One input file as `pd.read_csv` sees it: either reading raises, or a table with `width`
      columns whose rows are lists of at most `width` cells (a row shorter than the header is
      padded with NaN). A row longer than the header makes `read_csv` raise, or turn column 0
      into the index, so such a file is not a `Csv` of this model. */
  datatype Source = Unreadable | Csv(width: nat, rows: seq<seq<string>>)

  /** The only failure of the merge: `pd.concat([])` raises when no file produced a frame. */
  datatype MergeError = NoObjectsToConcatenate

  /** The cell in column k of a row, `None` where pandas pads the row with NaN. */
  function Field(row: seq<string>, k: nat): (f: Option<string>)
    ensures f.Some? <==> k < |row|
  {
    if k < |row| then Some(row[k]) else None
  }

  /** Coercing one cell with `errors='coerce'`: a missing cell or a failed parse gives NaN/NaT. */
  function Coerce<V>(f: Option<string>, parse: string -> Option<V>): (r: Option<V>)
    ensures r.Some? <==> f.Some? && parse(f.value).Some?
    ensures r.Some? ==> r.value == parse(f.value).value
  {
    match f
    case None => None
    case Some(cell) => parse(cell)
  }

  /** Columns 4 and beyond, kept as read. */
  function Extras(width: nat, row: seq<string>): (e: seq<Option<string>>)
    ensures |e| == if width < 4 then 0 else width - 4
    ensures forall i :: 0 <= i < |e| ==> e[i] == Field(row, 4 + i)
  {
    if width < 4 then [] else seq(width - 4, i requires 0 <= i < width - 4 => Field(row, 4 + i))
  }

  /** One row after `to_datetime` on column 0, `to_numeric` on columns 1-3 and `dropna` over those
      four columns: the row survives iff all four cells parse. */
  function CleanRow(width: nat, row: seq<string>, parseTime: string -> Option<int>,
                    parseNumber: string -> Option<real>): (r: Option<Sample>)
    ensures r.Some? <==>
      && Coerce(Field(row, 0), parseTime).Some?
      && Coerce(Field(row, 1), parseNumber).Some?
      && Coerce(Field(row, 2), parseNumber).Some?
      && Coerce(Field(row, 3), parseNumber).Some?
    ensures r.Some? ==>
      && r.value.ts == parseTime(row[0]).value
      && r.value.m1 == parseNumber(row[1]).value
      && r.value.m2 == parseNumber(row[2]).value
      && r.value.m3 == parseNumber(row[3]).value
      && r.value.extra == Extras(width, row)
  {
    var t := Coerce(Field(row, 0), parseTime);
    var a := Coerce(Field(row, 1), parseNumber);
    var b := Coerce(Field(row, 2), parseNumber);
    var c := Coerce(Field(row, 3), parseNumber);
    if t.None? || a.None? || b.None? || c.None? then None
    else Some(Sample(t.value, a.value, b.value, c.value, Extras(width, row)))
  }

  /** The surviving rows of one table, in file order. */
  function CleanRows(width: nat, rows: seq<seq<string>>, parseTime: string -> Option<int>,
                     parseNumber: string -> Option<real>): (r: seq<Sample>)
    ensures |r| <= |rows|
  {
    if rows == [] then []
    else
      var rest := CleanRows(width, rows[1..], parseTime, parseNumber);
      match CleanRow(width, rows[0], parseTime, parseNumber)
      case None => rest
      case Some(x) => [x] + rest
  }

  /** A file yields a frame iff reading succeeds and it has at least 4 columns. */
  predicate Usable(src: Source)
  {
    src.Csv? && src.width >= 4
  }

  /** The frames appended to `dfs`, one per usable file, in argument order; a usable file whose
      rows are all dropped still appends an empty frame. */
  function LoadedFrames(files: seq<Source>, parseTime: string -> Option<int>,
                        parseNumber: string -> Option<real>): seq<seq<Sample>>
  {
    if files == [] then []
    else
      var src := files[|files| - 1];
      LoadedFrames(files[..|files| - 1], parseTime, parseNumber) +
        if Usable(src) then [CleanRows(src.width, src.rows, parseTime, parseNumber)] else []
  }

  /** Column reordering `cols[1], cols[2] = cols[2], cols[1]`: exchanges metrics 1 and 2. */
  function SwapColumns(r: Sample): (s: Sample)
    ensures s.m1 == r.m2 && s.m2 == r.m1
    ensures s.ts == r.ts && s.m3 == r.m3 && s.extra == r.extra
  {
    r.(m1 := r.m2, m2 := r.m1)
  }

  /** The swap applied to every row. */
  function SwapAll(rows: seq<Sample>): (r: seq<Sample>)
    ensures |r| == |rows|
    ensures forall i :: 0 <= i < |rows| ==> r[i] == SwapColumns(rows[i])
  {
    seq(|rows|, i requires 0 <= i < |rows| => SwapColumns(rows[i]))
  }

  /** The whole of `read_and_merge_files`.  Every usable frame has at least 4 columns, so the
      guard `combined_df.shape[1] >= 3` of the swap always holds once concatenation succeeded. */
  function Merge(files: seq<Source>, swap: bool, parseTime: string -> Option<int>,
                 parseNumber: string -> Option<real>): Result<seq<Sample>, MergeError>
  {
    var frames := LoadedFrames(files, parseTime, parseNumber);
    if frames == [] then Err(NoObjectsToConcatenate)
    else
      var combined := DropDuplicates(Flatten(frames));
      Ok(if swap then SwapAll(combined) else combined)
  }

  /** The loop over the input files, appending one cleaned frame per usable file. */
  method ReadAndMerge(files: seq<Source>, swap: bool, parseTime: string -> Option<int>,
                      parseNumber: string -> Option<real>)
    returns (r: Result<seq<Sample>, MergeError>)
    ensures r == Merge(files, swap, parseTime, parseNumber)
  {
    var dfs: seq<seq<Sample>> := [];
    var i := 0;
    while i < |files|
      invariant 0 <= i <= |files|
      invariant dfs == LoadedFrames(files[..i], parseTime, parseNumber)
    {
      var src := files[i];
      assert files[..i + 1][..i] == files[..i];
      if src.Csv? {
        if src.width >= 4 {
          var df := CleanRows(src.width, src.rows, parseTime, parseNumber);
          dfs := dfs + [df];
        }
      }
      i := i + 1;
    }
    assert files[..|files|] == files;
    if dfs == [] {
      return Err(NoObjectsToConcatenate);
    }
    var combined := Flatten(dfs);
    combined := DropDuplicates(combined);
    if swap {
      combined := SwapAll(combined);
    }
    return Ok(combined);
  }

  // ---------------------------------------------------------------------------------------------
  // Properties

  /** A row occurs among a table's survivors iff some row of the table cleans to it. */
  lemma {:induction false} CleanRowsMember(width: nat, rows: seq<seq<string>>,
                                           parseTime: string -> Option<int>,
                                           parseNumber: string -> Option<real>, x: Sample)
    ensures x in CleanRows(width, rows, parseTime, parseNumber) <==>
      exists j :: 0 <= j < |rows| && CleanRow(width, rows[j], parseTime, parseNumber) == Some(x)
  {
    if rows != [] {
      CleanRowsMember(width, rows[1..], parseTime, parseNumber, x);
      assert forall j :: 1 <= j < |rows| ==> rows[j] == rows[1..][j - 1];
      assert forall j :: 0 <= j < |rows| - 1 ==> rows[1..][j] == rows[j + 1];
    }
  }

  /** Row `j` of file `i` is a cleaned row of a usable file. */
  ghost predicate ContributedBy(files: seq<Source>, parseTime: string -> Option<int>,
                                parseNumber: string -> Option<real>, x: Sample, i: int, j: int)
  {
    && 0 <= i < |files| && Usable(files[i]) && 0 <= j < |files[i].rows|
    && CleanRow(files[i].width, files[i].rows[j], parseTime, parseNumber) == Some(x)
  }

  ghost predicate Contributed(files: seq<Source>, parseTime: string -> Option<int>,
                              parseNumber: string -> Option<real>, x: Sample)
  {
    exists i, j :: ContributedBy(files, parseTime, parseNumber, x, i, j)
  }

  /** Contribution by a list of files, split at its last file. */
  lemma ContributedSnoc(files: seq<Source>, parseTime: string -> Option<int>,
                        parseNumber: string -> Option<real>, x: Sample)
    requires files != []
    ensures var init, src := files[..|files| - 1], files[|files| - 1];
      Contributed(files, parseTime, parseNumber, x) <==>
        || Contributed(init, parseTime, parseNumber, x)
        || (Usable(src) && exists j :: 0 <= j < |src.rows| && CleanRow(src.width, src.rows[j], parseTime, parseNumber) == Some(x))
  {
    var n := |files|;
    var init, src := files[..n - 1], files[n - 1];
    if Contributed(files, parseTime, parseNumber, x) {
      var i, j :| ContributedBy(files, parseTime, parseNumber, x, i, j);
      if i < n - 1 {
        assert ContributedBy(init, parseTime, parseNumber, x, i, j);
      }
    }
    if Contributed(init, parseTime, parseNumber, x) {
      var i, j :| ContributedBy(init, parseTime, parseNumber, x, i, j);
      assert ContributedBy(files, parseTime, parseNumber, x, i, j);
    }
    if Usable(src) && exists j :: 0 <= j < |src.rows| && CleanRow(src.width, src.rows[j], parseTime, parseNumber) == Some(x) {
      var j :| 0 <= j < |src.rows| && CleanRow(src.width, src.rows[j], parseTime, parseNumber) == Some(x);
      assert ContributedBy(files, parseTime, parseNumber, x, n - 1, j);
    }
  }

  /** A row is in the concatenated frames iff some usable file has a row that cleans to it. */
  lemma {:induction false} LoadedFramesMember(files: seq<Source>, parseTime: string -> Option<int>,
                                              parseNumber: string -> Option<real>, x: Sample)
    ensures x in Flatten(LoadedFrames(files, parseTime, parseNumber)) <==> Contributed(files, parseTime, parseNumber, x)
  {
    if files != [] {
      var n := |files|;
      var init, src := files[..n - 1], files[n - 1];
      LoadedFramesMember(init, parseTime, parseNumber, x);
      ContributedSnoc(files, parseTime, parseNumber, x);
      var frames := LoadedFrames(files, parseTime, parseNumber);
      var frames0 := LoadedFrames(init, parseTime, parseNumber);
      if Usable(src) {
        var df := CleanRows(src.width, src.rows, parseTime, parseNumber);
        assert frames == frames0 + [df];
        assert frames[..|frames| - 1] == frames0;
        assert Flatten(frames) == Flatten(frames0) + df;
        CleanRowsMember(src.width, src.rows, parseTime, parseNumber, x);
      } else {
        assert frames == frames0;
      }
    }
  }

  /** The merge fails iff no file was both readable and at least 4 columns wide; in particular a
      usable file whose rows are all dropped makes the merge succeed. */
  lemma {:induction false} MergeFailsIffNoUsableFile(files: seq<Source>, swap: bool,
                                                     parseTime: string -> Option<int>,
                                                     parseNumber: string -> Option<real>)
    ensures Merge(files, swap, parseTime, parseNumber).Err? <==>
      forall i :: 0 <= i < |files| ==> !Usable(files[i])
  {
    LoadedFramesEmpty(files, parseTime, parseNumber);
  }

  lemma {:induction false} LoadedFramesEmpty(files: seq<Source>, parseTime: string -> Option<int>,
                                             parseNumber: string -> Option<real>)
    ensures LoadedFrames(files, parseTime, parseNumber) == [] <==>
      forall i :: 0 <= i < |files| ==> !Usable(files[i])
  {
    if files != [] {
      var init := files[..|files| - 1];
      LoadedFramesEmpty(init, parseTime, parseNumber);
      assert forall i :: 0 <= i < |init| ==> init[i] == files[i];
    }
  }

  /** The merged rows are exactly the cleaned rows of the usable files, with readings 1 and 2
      exchanged when the swap is on: a row is merged iff its unswapped form was contributed, and
      every contributed row is merged in its (swapped) form. */
  lemma MergedRowsAreCleanedRows(files: seq<Source>, swap: bool, parseTime: string -> Option<int>,
                                 parseNumber: string -> Option<real>, x: Sample)
    requires Merge(files, swap, parseTime, parseNumber).Ok?
    ensures x in Merge(files, swap, parseTime, parseNumber).value <==>
      Contributed(files, parseTime, parseNumber, if swap then SwapColumns(x) else x)
    ensures Contributed(files, parseTime, parseNumber, x) ==>
      (if swap then SwapColumns(x) else x) in Merge(files, swap, parseTime, parseNumber).value
  {
    var flat := Flatten(LoadedFrames(files, parseTime, parseNumber));
    var merged := DropDuplicates(flat);
    var y := if swap then SwapColumns(x) else x;
    LoadedFramesMember(files, parseTime, parseNumber, y);
    LoadedFramesMember(files, parseTime, parseNumber, x);
    assert y in merged ==> exists k :: 0 <= k < |merged| && merged[k] == y;
    assert x in merged ==> exists k :: 0 <= k < |merged| && merged[k] == x;
    assert y in flat ==> exists k :: 0 <= k < |flat| && flat[k] == y;
    assert x in flat ==> exists k :: 0 <= k < |flat| && flat[k] == x;
    if swap {
      SwapMember(merged, x);
      SwapTwice(x);
      SwapMember(merged, SwapColumns(x));
    }
  }

  /** A row is in the swapped frame iff its swapped form is in the frame. */
  lemma SwapMember(rows: seq<Sample>, x: Sample)
    ensures x in SwapAll(rows) <==> SwapColumns(x) in rows
  {
    if x in SwapAll(rows) {
      var j :| 0 <= j < |rows| && SwapAll(rows)[j] == x;
      SwapTwice(rows[j]);
    }
    if SwapColumns(x) in rows {
      var j :| 0 <= j < |rows| && rows[j] == SwapColumns(x);
      SwapTwice(x);
      assert SwapAll(rows)[j] == x;
    }
  }

  /** Every merged row was read from a usable file in which all four typed cells parsed: the
      timestamp, and the three readings (exchanged in columns 1 and 2 when the swap is on). */
  lemma MergedRowsValid(files: seq<Source>, swap: bool, parseTime: string -> Option<int>,
                        parseNumber: string -> Option<real>, k: nat)
    requires Merge(files, swap, parseTime, parseNumber).Ok?
    requires k < |Merge(files, swap, parseTime, parseNumber).value|
    ensures var x := Merge(files, swap, parseTime, parseNumber).value[k];
      Contributed(files, parseTime, parseNumber, if swap then SwapColumns(x) else x)
  {
    var flat := Flatten(LoadedFrames(files, parseTime, parseNumber));
    var merged := DropDuplicates(flat);
    var y := merged[k];
    assert y in flat;
    LoadedFramesMember(files, parseTime, parseNumber, y);
    SwapTwice(y);
  }

  /** No two merged rows are equal, and the merged rows are the first occurrences of the
      concatenated frames (with readings 1 and 2 exchanged when the swap is on), in
      concatenation order. */
  lemma MergedRowsDistinctAndFirst(files: seq<Source>, swap: bool, parseTime: string -> Option<int>,
                                   parseNumber: string -> Option<real>)
    requires Merge(files, swap, parseTime, parseNumber).Ok?
    ensures var flat := Flatten(LoadedFrames(files, parseTime, parseNumber));
      var src := if swap then SwapAll(flat) else flat;
      var merged := Merge(files, swap, parseTime, parseNumber).value;
      Distinct(merged) && KeptRowsMatch(src, KeptPositions(src), merged) &&
      PositionsComplete(src, KeptPositions(src))
  {
    var flat := Flatten(LoadedFrames(files, parseTime, parseNumber));
    var src := if swap then SwapAll(flat) else flat;
    SwapCommutesWithDedup(flat);
    assert Merge(files, swap, parseTime, parseNumber).value == DropDuplicates(src);
    KeepsFirstOccurrences(src);
  }

  /** Swapping twice restores the row. */
  lemma SwapTwice(r: Sample)
    ensures SwapColumns(SwapColumns(r)) == r
  {
  }

  lemma SwapAllTwice(rows: seq<Sample>)
    ensures SwapAll(SwapAll(rows)) == rows
  {
  }

  /** Because the swap is injective, swapping before or after dropping duplicates is the same. */
  lemma {:induction false} SwapCommutesWithDedup(rows: seq<Sample>)
    ensures SwapAll(DropDuplicates(rows)) == DropDuplicates(SwapAll(rows))
  {
    if rows != [] {
      var n := |rows|;
      var init := rows[..n - 1];
      SwapCommutesWithDedup(init);
      assert SwapAll(rows)[..n - 1] == SwapAll(init);
      assert rows[n - 1] in init <==> SwapColumns(rows[n - 1]) in SwapAll(init) by {
        if SwapColumns(rows[n - 1]) in SwapAll(init) {
          var j :| 0 <= j < |init| && SwapAll(init)[j] == SwapColumns(rows[n - 1]);
          SwapTwice(init[j]);
          SwapTwice(rows[n - 1]);
        }
      }
    }
  }

  /** A usable file whose every row is malformed still makes the merge succeed, with no rows. */
  lemma AllRowsDroppedStillMerges(rows: seq<seq<string>>, parseTime: string -> Option<int>,
                                  parseNumber: string -> Option<real>)
    requires forall j :: 0 <= j < |rows| ==> CleanRow(4, rows[j], parseTime, parseNumber).None?
    ensures Merge([Csv(4, rows)], false, parseTime, parseNumber) == Ok([])
  {
    CleanRowsNone(4, rows, parseTime, parseNumber);
    var files := [Csv(4, rows)];
    assert files[..0] == [];
    var frames: seq<seq<Sample>> := [[]];
    assert LoadedFrames(files, parseTime, parseNumber) == frames;
    assert Flatten(frames) == Flatten(frames[..0]) + [];
  }

  lemma {:induction false} CleanRowsNone(width: nat, rows: seq<seq<string>>,
                                         parseTime: string -> Option<int>,
                                         parseNumber: string -> Option<real>)
    requires forall j :: 0 <= j < |rows| ==> CleanRow(width, rows[j], parseTime, parseNumber).None?
    ensures CleanRows(width, rows, parseTime, parseNumber) == []
  {
    if rows != [] {
      CleanRowsNone(width, rows[1..], parseTime, parseNumber);
    }
  }
}
