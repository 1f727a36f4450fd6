/**
 * What data_avg_plotter.py, edge_avg_plotter.py and crash_avg_plotter.py share: every data
 * file is read line by line, line `i` (zero-based) must carry bin `i + 1`, and the value
 * column of each file is added into `accumulates`, whose length the first file fixes.
 */
module AvgRows {
  import opened Wrappers
  import opened PyText
  import opened GapFill

  /** Line `i` of a data file carries bin `i + 1` and a value, in the form `int()` reads. */
  predicate RowOk(line: string, i: int) {
    var t := SplitOn(line, ",");
    |t| >= 2 && ParseInt(t[0]) == Some(i + 1) && ParseInt(t[1]).Some?
  }

  /** `tokens = line.split(',')`, `int(tokens[0])`, `int(tokens[1])`, then the bin check, each
      of which can raise or exit, in that order. */
  function ParseRow(line: string, i: int): (r: Result<int>)
    ensures r.Ok? <==> RowOk(line, i)
    ensures r.Ok? ==> r.value == ParseInt(SplitOn(line, ",")[1]).value
    ensures r.Err? && |SplitOn(line, ",")| >= 2 && ParseInt(SplitOn(line, ",")[0]).Some? && ParseInt(SplitOn(line, ",")[1]).Some? ==>
      r.error == Exit
  {
    var t := SplitOn(line, ",");
    match ParseInt(t[0])
    case None => Err(ValueError)
    case Some(b) =>
      if |t| < 2 then Err(IndexError)
      else match ParseInt(t[1])
        case None => Err(ValueError)
        case Some(v) => if b != i + 1 then Err(Exit) else Ok(v)
  }

  /** A row as the gap-filling scripts write it is read back as its value. */
  lemma ParseFormattedRow(i: nat, y: int)
    ensures ParseRow(FormatRow(i + 1, y), i) == Ok(y)
  {
    var a := IntToString(i + 1);
    var b := IntToString(y) + "\n";
    IntToStringChars(i + 1);
    IntToStringChars(y);
    assert ',' !in a;
    assert ',' !in b by {
      assert forall k :: 0 <= k < |b| ==> b[k] == (IntToString(y) + "\n")[k];
    }
    assert FormatRow(i + 1, y) == a + [','] + b;
    SplitOnCharAfter(a, ',', b);
    SplitOnCharFree(b, ',');
    ParseIntToString(i + 1);
    ParseIntToString(y);
  }

  /** What each line of a file gives, in line order. */
  function ParsedLines(lines: seq<string>): (rows: seq<Result<int>>)
    ensures |rows| == |lines|
  {
    if |lines| == 0 then [] else ParsedLines(lines[..|lines| - 1]) + [ParseRow(lines[|lines| - 1], |lines| - 1)]
  }

  /** Line `i` gives `ParseRow(lines[i], i)`. */
  lemma {:induction false} ParsedLinesAt(lines: seq<string>, i: int)
    requires 0 <= i < |lines|
    ensures ParsedLines(lines)[i] == ParseRow(lines[i], i)
  {
    if i < |lines| - 1 {
      ParsedLinesAt(lines[..|lines| - 1], i);
    }
  }

  /** The value column of one file from what its lines give, in line order. `bound` is the
      length of `accumulates` for a file after the first: a line beyond it raises `IndexError`
      at `accumulates[i] += ...`. */
  function Column(rows: seq<Result<int>>, bound: Option<nat>): (r: Result<seq<int>>)
    ensures r.Ok? ==> |r.value| == |rows|
  {
    if |rows| == 0 then Ok([])
    else
      var n := |rows| - 1;
      match Column(rows[..n], bound)
      case Err(e) => Err(e)
      case Ok(col) =>
        match rows[n]
        case Err(e) => Err(e)
        case Ok(v) => if bound.Some? && n >= bound.value then Err(IndexError) else Ok(col + [v])
  }

  /** A column is read exactly when every line gives a value and, after the first file, there
      are no more lines than the first file has; it then holds the value of every line. When
      every line gives a value, a failure is the `IndexError` of a file longer than the first. */
  lemma {:induction false} ColumnOk(rows: seq<Result<int>>, bound: Option<nat>)
    ensures Column(rows, bound).Ok? <==>
      (forall i :: 0 <= i < |rows| ==> rows[i].Ok?) && (bound.Some? ==> |rows| <= bound.value)
    ensures Column(rows, bound).Ok? ==> forall i :: 0 <= i < |rows| ==> Column(rows, bound).value[i] == rows[i].value
    ensures Column(rows, bound).Err? && (forall i :: 0 <= i < |rows| ==> rows[i].Ok?) ==>
      Column(rows, bound).error == IndexError
  {
    if |rows| > 0 {
      var n := |rows| - 1;
      ColumnOk(rows[..n], bound);
      assert forall i :: 0 <= i < n ==> rows[..n][i] == rows[i];
    }
  }

  /** The column of a file's lines. */
  function FileColumn(lines: seq<string>, bound: Option<nat>): Result<seq<int>> {
    Column(ParsedLines(lines), bound)
  }

  /** A file is accepted exactly when every line `i` carries bin `i + 1` and, after the first
      file, it is no longer than the first; its column is then the value of every line. */
  lemma FileColumnOk(lines: seq<string>, bound: Option<nat>)
    ensures FileColumn(lines, bound).Ok? <==>
      (forall i :: 0 <= i < |lines| ==> RowOk(lines[i], i)) && (bound.Some? ==> |lines| <= bound.value)
    ensures FileColumn(lines, bound).Ok? ==>
      forall i :: 0 <= i < |lines| ==> FileColumn(lines, bound).value[i] == ParseRow(lines[i], i).value
  {
    ColumnOk(ParsedLines(lines), bound);
    forall i | 0 <= i < |lines| ensures ParsedLines(lines)[i] == ParseRow(lines[i], i) {
      ParsedLinesAt(lines, i);
    }
  }

  /** The rows the gap-filling scripts write for a column are read back as that column. */
  lemma FileColumnRoundTrip(ys: seq<int>, bound: Option<nat>)
    requires bound.Some? ==> |ys| <= bound.value
    ensures FileColumn(RowLines(XColumn(|ys|), ys), bound) == Ok(ys)
  {
    var rows := ParsedLines(RowLines(XColumn(|ys|), ys));
    forall i | 0 <= i < |ys| ensures rows[i] == Ok(ys[i]) {
      RowReadBack(ys, i);
    }
    ColumnOfValues(rows, ys, bound);
  }

  /** Lines that all give values make the column of those values. */
  lemma ColumnOfValues(rows: seq<Result<int>>, ys: seq<int>, bound: Option<nat>)
    requires |rows| == |ys| && forall i :: 0 <= i < |ys| ==> rows[i] == Ok(ys[i])
    requires bound.Some? ==> |ys| <= bound.value
    ensures Column(rows, bound) == Ok(ys)
  {
    ColumnOk(rows, bound);
    assert Column(rows, bound).Ok?;
    var c := Column(rows, bound).value;
    assert |c| == |ys| && forall i :: 0 <= i < |ys| ==> c[i] == ys[i];
    assert c == ys;
  }

  lemma RowReadBack(ys: seq<int>, i: int)
    requires 0 <= i < |ys|
    ensures ParsedLines(RowLines(XColumn(|ys|), ys))[i] == Ok(ys[i])
  {
    var lines := RowLines(XColumn(|ys|), ys);
    assert lines[i] == FormatRow(i + 1, ys[i]);
    ParseFormattedRow(i, ys[i]);
    ParsedLinesAt(lines, i);
  }

  /** The `i`-th value of a column, 0 past its end. */
  function At(col: seq<int>, i: int): int {
    if 0 <= i < |col| then col[i] else 0
  }

  /** The sum over the columns of their `i`-th values. */
  function ColumnSum(cols: seq<seq<int>>, i: int): int {
    if |cols| == 0 then 0 else ColumnSum(cols[..|cols| - 1], i) + At(cols[|cols| - 1], i)
  }

  /** `accumulates` after the columns `cols`: as long as the first, each entry the sum over
      every column of its value there. */
  function Sums(cols: seq<seq<int>>): (acc: seq<int>)
    requires |cols| > 0
    ensures |acc| == |cols[0]| && forall i :: 0 <= i < |acc| ==> acc[i] == ColumnSum(cols, i)
  {
    seq(|cols[0]|, i => ColumnSum(cols, i))
  }

  /** What the lines of each file give, file by file. */
  function ParsedFiles(files: seq<seq<string>>): (rows: seq<seq<Result<int>>>)
    ensures |rows| == |files|
  {
    if |files| == 0 then [] else ParsedFiles(files[..|files| - 1]) + [ParsedLines(files[|files| - 1])]
  }

  /** File `k` gives `ParsedLines(files[k])`. */
  lemma {:induction false} ParsedFilesAt(files: seq<seq<string>>, k: int)
    requires 0 <= k < |files|
    ensures ParsedFiles(files)[k] == ParsedLines(files[k])
  {
    if k < |files| - 1 {
      ParsedFilesAt(files[..|files| - 1], k);
    }
  }

  /** The columns of the files of one target, in file order: the first file is unbounded,
      every later one bounded by the first's length. */
  function Columns(rows: seq<seq<Result<int>>>): (r: Result<seq<seq<int>>>)
    ensures r.Ok? ==> |r.value| == |rows|
    ensures r.Ok? ==> forall k :: 0 <= k < |rows| ==> |r.value[k]| == |rows[k]|
    ensures r.Ok? ==> forall k :: 0 < k < |rows| ==> |rows[k]| <= |rows[0]|
  {
    if |rows| == 0 then Ok([])
    else
      var n := |rows| - 1;
      match Columns(rows[..n])
      case Err(e) => Err(e)
      case Ok(cols) =>
        match Column(rows[n], if n == 0 then None else Some(|rows[0]|))
        case Err(e) => Err(e)
        case Ok(col) =>
          ColumnOk(rows[n], if n == 0 then None else Some(|rows[0]|));
          Ok(cols + [col])
  }

  /** The files of one target are accepted exactly when each is, and then the column of file
      `k` is what its lines give. */
  lemma {:induction false} ColumnsOk(rows: seq<seq<Result<int>>>)
    ensures Columns(rows).Ok? <==>
      forall k :: 0 <= k < |rows| ==> Column(rows[k], if k == 0 then None else Some(|rows[0]|)).Ok?
    ensures Columns(rows).Ok? ==>
      forall k :: 0 <= k < |rows| ==> Columns(rows).value[k] == Column(rows[k], if k == 0 then None else Some(|rows[0]|)).value
  {
    if |rows| > 0 {
      var n := |rows| - 1;
      ColumnsOk(rows[..n]);
      assert forall k :: 0 <= k < n ==> rows[..n][k] == rows[k];
      if n > 0 {
        assert rows[..n][0] == rows[0];
      }
    }
  }

  /** The columns of the data files of one target. */
  function TargetColumns(files: seq<seq<string>>): Result<seq<seq<int>>> {
    Columns(ParsedFiles(files))
  }

  /** A target's files are accepted exactly when each file is, the first unbounded and every
      later one bounded by the first's length; its columns are then the files' columns. */
  lemma TargetColumnsOk(files: seq<seq<string>>)
    ensures TargetColumns(files).Ok? <==>
      forall k :: 0 <= k < |files| ==> FileColumn(files[k], if k == 0 then None else Some(|files[0]|)).Ok?
    ensures TargetColumns(files).Ok? ==>
      forall k :: 0 <= k < |files| ==> TargetColumns(files).value[k] == FileColumn(files[k], if k == 0 then None else Some(|files[0]|)).value
  {
    var rows := ParsedFiles(files);
    ColumnsOk(rows);
    forall k | 0 <= k < |files| ensures rows[k] == ParsedLines(files[k]) {
      ParsedFilesAt(files, k);
    }
  }

  /** One more column in the sums. */
  lemma ColumnSumSnoc(cols: seq<seq<int>>, col: seq<int>, i: int)
    ensures ColumnSum(cols + [col], i) == ColumnSum(cols, i) + At(col, i)
  {
    assert (cols + [col])[..|cols|] == cols;
  }

  /** The line loop of one file as written: parse, check the bin, add into `accumulates` (or
      append, for the first file). */
  method ScanFile(lines: seq<string>, done: seq<seq<int>>, acc0: seq<int>) returns (r: Result<(seq<int>, seq<int>)>)
    requires |done| > 0 ==> acc0 == Sums(done)
    requires |done| == 0 ==> acc0 == []
    ensures var col := FileColumn(lines, if |done| == 0 then None else Some(|acc0|));
      (r.Err? <==> col.Err?) && (r.Err? ==> r.error == col.error) &&
      (r.Ok? ==> r.value.0 == col.value && r.value.1 == Sums(done + [col.value]))
  {
    var bound: Option<nat> := if |done| == 0 then None else Some(|acc0|);
    var acc := acc0;
    var col: seq<int> := [];
    for i := 0 to |lines|
      invariant FileColumn(lines[..i], bound) == Ok(col)
      invariant |done| == 0 ==> acc == col
      invariant |done| > 0 ==> |acc| == |acc0| && RunningSums(done, col, acc)
    {
      var v := ParseRow(lines[i], i);
      FileColumnStep(lines, bound, i);
      if v.Err? {
        FileColumnHalted(lines, bound, i + 1);
        return Err(v.error);
      }
      if |done| == 0 {
        acc := acc + [v.value];
      } else {
        if i >= |acc| {
          FileColumnHalted(lines, bound, i + 1);
          return Err(IndexError);
        }
        AddAtLine(done, col, acc, v.value);
        acc := acc[i := acc[i] + v.value];
      }
      col := col + [v.value];
    }
    assert lines[..|lines|] == lines;
    SumsSnoc(done, col, acc);
    r := Ok((col, acc));
  }

  /** Adding line `|col|`'s value into `accumulates` keeps it the running sum. */
  lemma AddAtLine(done: seq<seq<int>>, col: seq<int>, acc: seq<int>, v: int)
    requires |col| < |acc| && RunningSums(done, col, acc)
    ensures RunningSums(done, col + [v], acc[|col| := acc[|col|] + v])
  {
  }

  /** `accumulates` while a file is read: every entry is the sum over the earlier files plus
      the value read so far from this one. */
  ghost predicate RunningSums(done: seq<seq<int>>, col: seq<int>, acc: seq<int>) {
    forall j :: 0 <= j < |acc| ==> acc[j] == ColumnSum(done, j) + At(col, j)
  }

  /** The sums after one more column, from the sums before it. */
  lemma SumsSnoc(done: seq<seq<int>>, col: seq<int>, acc: seq<int>)
    requires |done| == 0 ==> acc == col
    requires |done| > 0 ==> |acc| == |done[0]| && RunningSums(done, col, acc)
    ensures acc == Sums(done + [col])
  {
    forall j | 0 <= j < |acc| ensures acc[j] == ColumnSum(done + [col], j) {
      ColumnSumSnoc(done, col, j);
    }
    assert (done + [col])[0] == if |done| == 0 then col else done[0];
  }

  /** One more line in the loop over a file's lines. */
  lemma FileColumnStep(lines: seq<string>, bound: Option<nat>, i: int)
    requires 0 <= i < |lines| && FileColumn(lines[..i], bound).Ok?
    ensures var v := ParseRow(lines[i], i);
      FileColumn(lines[..i + 1], bound) ==
        if v.Err? then Err(v.error)
        else if bound.Some? && i >= bound.value then Err(IndexError)
        else Ok(FileColumn(lines[..i], bound).value + [v.value])
  {
    var rows := ParsedLines(lines[..i + 1]);
    assert lines[..i + 1][..i] == lines[..i];
    assert rows == ParsedLines(lines[..i]) + [ParseRow(lines[i], i)];
    assert rows[..i] == ParsedLines(lines[..i]);
  }

  /** Once a line has failed, later lines change nothing. */
  lemma {:induction false} FileColumnHalted(lines: seq<string>, bound: Option<nat>, i: int)
    requires 0 <= i <= |lines| && FileColumn(lines[..i], bound).Err?
    ensures FileColumn(lines, bound) == FileColumn(lines[..i], bound)
    decreases |lines| - i
  {
    if i < |lines| {
      var rows := ParsedLines(lines[..i + 1]);
      assert lines[..i + 1][..i] == lines[..i];
      assert rows[..i] == ParsedLines(lines[..i]);
      FileColumnHalted(lines, bound, i + 1);
    } else {
      assert lines[..i] == lines;
    }
  }

  /** One more file in the loop over a target's files. */
  lemma ColumnsStep(rows: seq<seq<Result<int>>>, k: int)
    requires 0 <= k < |rows| && Columns(rows[..k]).Ok?
    ensures var c := Column(rows[k], if k == 0 then None else Some(|rows[0]|));
      Columns(rows[..k + 1]) == if c.Err? then Err(c.error) else Ok(Columns(rows[..k]).value + [c.value])
  {
    var p := rows[..k + 1];
    assert p[..k] == rows[..k] && p[k] == rows[k] && p[0] == rows[0];
  }

  /** Once a file has failed, later files change nothing. */
  lemma {:induction false} ColumnsHalted(rows: seq<seq<Result<int>>>, k: int)
    requires 0 <= k <= |rows| && Columns(rows[..k]).Err?
    ensures Columns(rows) == Columns(rows[..k])
    decreases |rows| - k
  {
    if k < |rows| {
      assert rows[..k + 1][..k] == rows[..k];
      ColumnsHalted(rows, k + 1);
    } else {
      assert rows[..k] == rows;
    }
  }

  /** The file loop of one target as written: the per-file value lists (`target_details`) and
      `accumulates`. */
  method AccumulateTarget(files: seq<seq<string>>) returns (r: Result<(seq<seq<int>>, seq<int>)>)
    requires |files| > 0
    ensures TargetColumns(files).Err? ==> r == Err(TargetColumns(files).error)
    ensures TargetColumns(files).Ok? ==> r == Ok((TargetColumns(files).value, Sums(TargetColumns(files).value)))
  {
    ghost var rows := ParsedFiles(files);
    var details: seq<seq<int>> := [];
    var acc: seq<int> := [];
    for k := 0 to |files|
      invariant Columns(rows[..k]) == Ok(details)
      invariant k > 0 ==> acc == Sums(details)
      invariant k == 0 ==> acc == []
    {
      ColumnsStep(rows, k);
      ParsedFilesAt(files, k);
      if k > 0 {
        assert |details[0]| == |rows[0]| by {
          assert rows[..k][0] == rows[0];
        }
      }
      var next := ScanFile(files[k], details, acc);
      if next.Err? {
        ColumnsHalted(rows, k + 1);
        return Err(next.error);
      }
      details := details + [next.value.0];
      acc := next.value.1;
    }
    assert rows[..|files|] == rows;
    r := Ok((details, acc));
  }
}
