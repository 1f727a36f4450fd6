/**
 * Carry-forward gap filling, shared by every collector and time plotter: a sparse map from
 * bin to value becomes the rows `(i + 1, value at the greatest known bin <= i)` for
 * `i` in `0..max_bin`, after bin 0 has been secured by one of two policies (exit, or copy
 * from the smallest positive bin). Groups are processed in sorted name order and the first
 * failing group stops the script; the groups before it have already been handled.
 */
module GapFill {
  import opened Wrappers
  import opened PyText
  import opened Sorting
  import opened Series

  /** Where `while temp_bin_no not in known_bins: temp_bin_no -= 1` stops when started at
      `i`: the greatest known bin at or below `i`. */
  function GreatestKeyAtMost(m: map<int, int>, i: int): (k: int)
    requires 0 in m && i >= 0
    ensures k in m && 0 <= k <= i
    ensures forall j :: k < j <= i ==> j !in m
    decreases i
  {
    if i in m then i else GreatestKeyAtMost(m, i - 1)
  }

  /** Any known bin at or below `i` with no known bin between it and `i` is the one the
      search finds. */
  lemma {:induction false} GreatestKeyUnique(m: map<int, int>, i: int, k: int)
    requires 0 in m && k in m && 0 <= k <= i
    requires forall j :: k < j <= i ==> j !in m
    ensures GreatestKeyAtMost(m, i) == k
    decreases i
  {
    if i != k {
      GreatestKeyUnique(m, i - 1, k);
    }
  }

  /** The value carried into bin `i`. */
  function CarryForward(m: map<int, int>, i: int): int
    requires 0 in m && i >= 0
  {
    m[GreatestKeyAtMost(m, i)]
  }

  /** `len(range(0, max_bin + 1))`. */
  function RowCount(maxBin: int): (n: nat)
    ensures maxBin >= 0 ==> n == maxBin + 1
    ensures maxBin < 0 ==> n == 0
  {
    if maxBin >= 0 then maxBin + 1 else 0
  }

  /** The one-based x column of `n` rows. */
  function XColumn(n: nat): (xs: seq<int>)
    ensures |xs| == n && forall i :: 0 <= i < n ==> xs[i] == i + 1
  {
    seq(n, i => i + 1)
  }

  /** The y column of `n` rows: the carried value of each bin, less `offset`. */
  function YColumn(m: map<int, int>, n: nat, offset: int): (ys: seq<int>)
    requires 0 in m
    ensures |ys| == n && forall i :: 0 <= i < n ==> ys[i] == CarryForward(m, i) - offset
  {
    seq(n, i requires 0 <= i => CarryForward(m, i) - offset)
  }

  /** The `for bin_no in range(0, max_bin + 1)` loop with its inner decrement. The inner
      loop ends because bin 0 is known. */
  method FillRows(m: map<int, int>, maxBin: int, offset: int) returns (xs: seq<int>, ys: seq<int>)
    requires 0 in m
    ensures |xs| == |ys| == RowCount(maxBin)
    ensures forall i :: 0 <= i < |xs| ==> xs[i] == i + 1
    ensures forall i :: 0 <= i < |ys| ==> ys[i] == m[GreatestKeyAtMost(m, i)] - offset
    ensures xs == XColumn(RowCount(maxBin)) && ys == YColumn(m, RowCount(maxBin), offset)
  {
    xs, ys := [], [];
    for bin := 0 to RowCount(maxBin)
      invariant |xs| == |ys| == bin
      invariant forall i :: 0 <= i < bin ==> xs[i] == i + 1
      invariant forall i :: 0 <= i < bin ==> ys[i] == CarryForward(m, i) - offset
    {
      var k := bin;
      while k !in m
        invariant 0 <= k <= bin
        invariant forall j :: k < j <= bin ==> j !in m
        decreases k
      {
        k := k - 1;
      }
      GreatestKeyUnique(m, bin, k);
      xs := xs + [bin + 1];
      ys := ys + [m[k] - offset];
    }
  }

  /** A map that knows every bin `0..max_bin` is reproduced unchanged. */
  lemma DenseReproduced(m: map<int, int>, maxBin: int)
    requires forall i :: 0 <= i <= maxBin ==> i in m
    requires 0 in m
    ensures forall i :: 0 <= i < RowCount(maxBin) ==> YColumn(m, RowCount(maxBin), 0)[i] == m[i]
  {
  }

  /** A later bin never carries an earlier known bin. */
  lemma GreatestKeyMonotone(m: map<int, int>, i: int, j: int)
    requires 0 in m && 0 <= i <= j
    ensures GreatestKeyAtMost(m, i) <= GreatestKeyAtMost(m, j)
  {
    var k := GreatestKeyAtMost(m, i);
    assert k in m && k <= j;
  }

  /** Values that never decrease in bin order give rows that never decrease. */
  lemma RowsMonotone(m: map<int, int>, n: nat, offset: int)
    requires 0 in m && MonotoneMap(m)
    ensures forall i, j :: 0 <= i <= j < n ==> YColumn(m, n, offset)[i] <= YColumn(m, n, offset)[j]
  {
    forall i, j | 0 <= i <= j < n ensures CarryForward(m, i) <= CarryForward(m, j) {
      GreatestKeyMonotone(m, i, j);
    }
  }

  /** Every carried value is one the map holds, taken from a bin no later than the row. */
  lemma CarriedValueKnown(m: map<int, int>, i: int)
    requires 0 in m && i >= 0
    ensures exists k :: k in m && 0 <= k <= i && m[k] == CarryForward(m, i)
  {
    var k := GreatestKeyAtMost(m, i);
    assert k in m && m[k] == CarryForward(m, i);
  }

  /** What a script does when a group has no bin 0. */
  datatype ZeroPolicy =
    | FailFast   // `sys.exit(1)`
    | Backfill   // `d[0] = d[min(n for n in d if n > 0)]`

  function PositiveBins(m: map<int, int>): set<int> {
    set k | k in m && k > 0
  }

  /** Securing bin 0. Under `Backfill`, `min` of an empty list raises `ValueError`. */
  function EnsureZero(m: map<int, int>, policy: ZeroPolicy): (r: Result<map<int, int>>)
    ensures 0 in m ==> r == Ok(m)
    ensures 0 !in m && policy == FailFast ==> r == Err(Exit)
    ensures 0 !in m && policy == Backfill ==> (r.Err? <==> PositiveBins(m) == {})
    ensures r.Err? ==> r.error == (if policy == FailFast then Exit else ValueError)
    ensures r.Ok? ==> 0 in r.value && r.value.Keys == m.Keys + {0}
    ensures r.Ok? ==> forall k :: k in m ==> r.value[k] == m[k]
    ensures r.Ok? && 0 !in m ==> exists s :: s in m && s > 0 && r.value[0] == m[s] && (forall t :: t in m && t > 0 ==> s <= t)
  {
    if 0 in m then Ok(m)
    else if policy == FailFast then Err(Exit)
    else if PositiveBins(m) == {} then Err(ValueError)
    else
      var s := MinOf(PositiveBins(m));
      assert s in m && s > 0 && forall t :: t in m && t > 0 ==> t in PositiveBins(m);
      Ok(m[0 := m[s]])
  }

  /** The backfill writes into the group's own dictionary; doing it again finds bin 0 and
      changes nothing, so every later pass over the same dictionary computes the same rows. */
  lemma EnsureZeroIdempotent(m: map<int, int>, policy: ZeroPolicy)
    requires EnsureZero(m, policy).Ok?
    ensures EnsureZero(EnsureZero(m, policy).value, policy) == EnsureZero(m, policy)
  {
  }

  /** After a backfill every bin before the first positive known bin carries that bin's value. */
  lemma {:induction false} BackfillLeadingRows(m: map<int, int>, s: int, i: int)
    requires 0 !in m && s in m && s > 0 && forall t :: t in m && t > 0 ==> s <= t
    requires 0 <= i < s
    ensures EnsureZero(m, Backfill).Ok?
    ensures CarryForward(EnsureZero(m, Backfill).value, i) == m[s]
  {
    assert s in PositiveBins(m);
    var r := EnsureZero(m, Backfill).value;
    var u := MinOf(PositiveBins(m));
    assert u == s by {
      assert u <= s && s <= u;
    }
    forall j | 0 < j <= i ensures j !in r {
      assert j in m ==> s <= j;
    }
    GreatestKeyUnique(r, i, 0);
  }

  /** The rows of one group, or the error that stops the script at that group. */
  function GroupRows(m: map<int, int>, policy: ZeroPolicy, maxBin: int, offset: int): (r: Result<(seq<int>, seq<int>)>)
    ensures r.Ok? ==> |r.value.0| == |r.value.1| == RowCount(maxBin)
  {
    match EnsureZero(m, policy)
    case Err(e) => Err(e)
    case Ok(m') => Ok((XColumn(RowCount(maxBin)), YColumn(m', RowCount(maxBin), offset)))
  }

  /** The x and y values computed for one group. */
  datatype Rows = Rows(name: string, xs: seq<int>, ys: seq<int>)

  /** `group_names = sorted(groups)`: each name once, ascending. */
  ghost predicate SortedGroupNames(names: seq<string>, groups: map<string, map<int, int>>) {
    StrictlySortedNames(names) && (forall g :: g in names <==> g in groups) && |names| == |groups|
  }

  /** `done` holds, in order, the rows of the first `|done|` groups named in `names`. */
  ghost predicate RowsOfPrefix(done: seq<Rows>, names: seq<string>, groups: map<string, map<int, int>>,
                         policy: ZeroPolicy, maxBin: int, offset: int)
    requires forall g :: g in names ==> g in groups
  {
    |done| <= |names| &&
    forall i :: 0 <= i < |done| ==>
      done[i].name == names[i] &&
      GroupRows(groups[names[i]], policy, maxBin, offset) == Ok((done[i].xs, done[i].ys))
  }

  lemma RowsOfPrefixSnoc(done: seq<Rows>, names: seq<string>, groups: map<string, map<int, int>>,
                         policy: ZeroPolicy, maxBin: int, offset: int, row: Rows)
    requires forall g :: g in names ==> g in groups
    requires RowsOfPrefix(done, names, groups, policy, maxBin, offset) && |done| < |names|
    requires row.name == names[|done|]
    requires GroupRows(groups[names[|done|]], policy, maxBin, offset) == Ok((row.xs, row.ys))
    ensures RowsOfPrefix(done + [row], names, groups, policy, maxBin, offset)
  {
  }

  /** The loop over the sorted group names: each group is secured and filled, and the first
      group that fails stops the loop with its error. */
  method FillGroups(groups: map<string, map<int, int>>, policy: ZeroPolicy, maxBin: int, offset: int)
    returns (names: seq<string>, done: seq<Rows>, halt: Option<PyError>)
    ensures SortedGroupNames(names, groups)
    ensures RowsOfPrefix(done, names, groups, policy, maxBin, offset)
    ensures halt.None? <==> |done| == |names|
    ensures halt.Some? ==> GroupRows(groups[names[|done|]], policy, maxBin, offset) == Err(halt.value)
  {
    names := SortedNames(groups.Keys);
    done := [];
    halt := None;
    var i := 0;
    while i < |names|
      invariant 0 <= i <= |names| && |done| == i
      invariant RowsOfPrefix(done, names, groups, policy, maxBin, offset)
    {
      var r := EnsureZero(groups[names[i]], policy);
      if r.Err? {
        halt := Some(r.error);
        return;
      }
      var xs, ys := FillRows(r.value, maxBin, offset);
      RowsOfPrefixSnoc(done, names, groups, policy, maxBin, offset, Rows(names[i], xs, ys));
      done := done + [Rows(names[i], xs, ys)];
      i := i + 1;
    }
  }

  /** A group's data file is written only if every group before it, in sorted order, was
      secured: under `FailFast`, the loop stops exactly at the first group without bin 0. */
  lemma FailFastStopsAtFirstMissing(done: seq<Rows>, names: seq<string>, groups: map<string, map<int, int>>,
                                    maxBin: int, offset: int, halt: Option<PyError>)
    requires forall g :: g in names ==> g in groups
    requires RowsOfPrefix(done, names, groups, FailFast, maxBin, offset)
    requires halt.None? <==> |done| == |names|
    requires halt.Some? ==> GroupRows(groups[names[|done|]], FailFast, maxBin, offset) == Err(halt.value)
    ensures forall i :: 0 <= i < |done| ==> 0 in groups[names[i]]
    ensures halt.Some? ==> halt.value == Exit && 0 !in groups[names[|done|]]
    ensures halt.None? ==> forall g :: g in names ==> 0 in groups[g]
  {
    forall i | 0 <= i < |done| ensures 0 in groups[names[i]] {
      assert GroupRows(groups[names[i]], FailFast, maxBin, offset).Ok?;
    }
    if halt.None? {
      forall g | g in names ensures 0 in groups[g] {
        var i :| 0 <= i < |names| && names[i] == g;
        assert GroupRows(groups[names[i]], FailFast, maxBin, offset).Ok?;
      }
    }
  }

  /** One line of a data file: `'%d,%d\n' % (x, y)`. */
  function FormatRow(x: int, y: int): string {
    IntToString(x) + "," + IntToString(y) + "\n"
  }

  /** A written text file: its path and its lines, in order. */
  datatype DataFile = DataFile(path: string, lines: seq<string>)

  /** The lines written for one group. */
  function RowLines(xs: seq<int>, ys: seq<int>): (lines: seq<string>)
    requires |xs| == |ys|
    ensures |lines| == |xs| && forall i :: 0 <= i < |xs| ==> lines[i] == FormatRow(xs[i], ys[i])
  {
    seq(|xs|, i requires 0 <= i < |xs| => FormatRow(xs[i], ys[i]))
  }

  /** `config['output_dir'] + '/' + group_name + suffix`. */
  function DataFilePath(outputDir: string, name: string, suffix: string): string {
    outputDir + "/" + name + suffix
  }

  /** `files` holds, in order, the data files of the first `|files|` groups named in `names`. */
  ghost predicate FilesOfPrefix(files: seq<DataFile>, outputDir: string, suffix: string, names: seq<string>,
                                groups: map<string, map<int, int>>, policy: ZeroPolicy, maxBin: int, offset: int)
    requires forall g :: g in names ==> g in groups
  {
    |files| <= |names| &&
    forall i :: 0 <= i < |files| ==>
      var rows := GroupRows(groups[names[i]], policy, maxBin, offset);
      rows.Ok? &&
      files[i] == DataFile(DataFilePath(outputDir, names[i], suffix), RowLines(rows.value.0, rows.value.1))
  }

  lemma FilesOfPrefixSnoc(files: seq<DataFile>, outputDir: string, suffix: string, names: seq<string>,
                          groups: map<string, map<int, int>>, policy: ZeroPolicy, maxBin: int, offset: int, f: DataFile)
    requires forall g :: g in names ==> g in groups
    requires FilesOfPrefix(files, outputDir, suffix, names, groups, policy, maxBin, offset)
    requires |files| < |names|
    requires GroupRows(groups[names[|files|]], policy, maxBin, offset).Ok?
    requires var rows := GroupRows(groups[names[|files|]], policy, maxBin, offset);
      f == DataFile(DataFilePath(outputDir, names[|files|], suffix), RowLines(rows.value.0, rows.value.1))
    ensures FilesOfPrefix(files + [f], outputDir, suffix, names, groups, policy, maxBin, offset)
  {
  }

  /** The collectors: fill every group in sorted order and write each group's rows to its
      own file, stopping at the first group that fails. */
  method CollectOverTime(outputDir: string, suffix: string, groups: map<string, map<int, int>>,
                         policy: ZeroPolicy, maxBin: int, offset: int)
    returns (names: seq<string>, files: seq<DataFile>, halt: Option<PyError>)
    ensures SortedGroupNames(names, groups)
    ensures FilesOfPrefix(files, outputDir, suffix, names, groups, policy, maxBin, offset)
    ensures halt.None? <==> |files| == |names|
    ensures halt.Some? ==> GroupRows(groups[names[|files|]], policy, maxBin, offset) == Err(halt.value)
  {
    var done;
    names, done, halt := FillGroups(groups, policy, maxBin, offset);
    files := [];
    for i := 0 to |done|
      invariant FilesOfPrefix(files, outputDir, suffix, names, groups, policy, maxBin, offset)
      invariant |files| == i
    {
      var f := DataFile(DataFilePath(outputDir, names[i], suffix), RowLines(done[i].xs, done[i].ys));
      FilesOfPrefixSnoc(files, outputDir, suffix, names, groups, policy, maxBin, offset, f);
      files := files + [f];
    }
  }
}
