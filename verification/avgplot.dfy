/**
 * `main` of data_avg_plotter.py, edge_avg_plotter.py and crash_avg_plotter.py: the target
 * loop that reads every target's data files into per-file columns and `accumulates`, the
 * element-wise minimum and maximum of data_avg_plotter.py, and the points of the average
 * curve of every target, in sorted name order. An average is `accumulates[i]` divided by the
 * number of data files; the curves here carry the sums and the count.
 */
module AvgPlot {
  import opened Wrappers
  import opened Sorting
  import opened EdgeSingleMain
  import opened AvgRows

  /** Which of the three scripts runs. */
  datatype Script = DataAvg | EdgeAvg | CrashAvg

  /** A target of the configuration: its name and its `data_files`, if present. */
  datatype AvgTarget = AvgTarget(name: string, dataFiles: Option<seq<string>>)

  /** The configuration: the targets in the order of the `targets` keys, the bin unit, and
      `limit` (data_avg_plotter.py only) after `int()`. */
  datatype AvgConfig = AvgConfig(targets: seq<AvgTarget>, bucket: string, limit: Option<int>)

  /** The lines `readlines()` gives for a data file. */
  type Reader = string -> seq<string>

  /** `sanitize_target`: `data_files` present and not empty; otherwise the target is skipped. */
  predicate SaneTarget(t: AvgTarget) {
    t.dataFiles.Some? && |t.dataFiles.value| > 0
  }

  /** The lines of every data file, in order. */
  function ReadAll(paths: seq<string>, read: Reader): (files: seq<seq<string>>)
    ensures |files| == |paths| && forall k :: 0 <= k < |paths| ==> files[k] == read(paths[k])
  {
    seq(|paths|, k requires 0 <= k < |paths| => read(paths[k]))
  }

  /** `np.minimum` or `np.maximum`. */
  datatype Extreme = Least | Greatest

  function Pick(x: Extreme, a: int, b: int): (r: int)
    ensures r == a || r == b
    ensures x == Least ==> r <= a && r <= b
    ensures x == Greatest ==> r >= a && r >= b
  {
    if x == Least then (if a <= b then a else b) else (if a >= b then a else b)
  }

  /** `np.minimum(a, b)` / `np.maximum(a, b)` on two lists: element by element, a list of
      length 1 broadcast against the other, and any other length mismatch a `ValueError`. */
  function Elementwise(x: Extreme, a: seq<int>, b: seq<int>): (r: Result<seq<int>>)
    ensures r.Ok? <==> |a| == |b| || |a| == 1 || |b| == 1
    ensures r.Err? ==> r.error == ValueError
    ensures r.Ok? && |a| == |b| ==> |r.value| == |a| && forall i :: 0 <= i < |a| ==> r.value[i] == Pick(x, a[i], b[i])
  {
    if |a| == |b| then Ok(seq(|a|, i requires 0 <= i < |a| => Pick(x, a[i], b[i])))
    else if |a| == 1 then Ok(seq(|b|, i requires 0 <= i < |b| => Pick(x, a[0], b[i])))
    else if |b| == 1 then Ok(seq(|a|, i requires 0 <= i < |a| => Pick(x, a[i], b[0])))
    else Err(ValueError)
  }

  /** The `mins`/`maxes` loop over the first `|cols|` columns, both started from `start`. */
  function Extremes(start: seq<int>, cols: seq<seq<int>>): Result<(seq<int>, seq<int>)> {
    if |cols| == 0 then Ok((start, start))
    else
      match Extremes(start, cols[..|cols| - 1])
      case Err(e) => Err(e)
      case Ok(mm) =>
        match Elementwise(Least, mm.0, cols[|cols| - 1])
        case Err(e) => Err(e)
        case Ok(mins) =>
          match Elementwise(Greatest, mm.1, cols[|cols| - 1])
          case Err(e) => Err(e)
          case Ok(maxes) => Ok((mins, maxes))
  }

  /** Every column has length `n`. */
  predicate SameLength(cols: seq<seq<int>>, n: int) {
    forall k :: 0 <= k < |cols| ==> |cols[k]| == n
  }

  /** `v` is the `i`-th value of one of the columns (or of `start`). */
  ghost predicate Attained(v: int, start: seq<int>, cols: seq<seq<int>>, i: int) {
    (0 <= i < |start| && start[i] == v) || exists k :: 0 <= k < |cols| && 0 <= i < |cols[k]| && cols[k][i] == v
  }

  /** With every column as long as `start`, `mins` and `maxes` are computed, and at every
      index `mins` is at most and `maxes` at least every column's value, each of them being
      the value of `start` or of some column. */
  lemma {:induction false} ExtremesBound(start: seq<int>, cols: seq<seq<int>>)
    requires SameLength(cols, |start|)
    ensures Extremes(start, cols).Ok?
    ensures var mm := Extremes(start, cols).value;
      |mm.0| == |start| && |mm.1| == |start| &&
      (forall i, k :: 0 <= i < |start| && 0 <= k < |cols| ==> mm.0[i] <= cols[k][i] <= mm.1[i]) &&
      (forall i :: 0 <= i < |start| ==> mm.0[i] <= start[i] <= mm.1[i]) &&
      (forall i :: 0 <= i < |start| ==> Attained(mm.0[i], start, cols, i) && Attained(mm.1[i], start, cols, i))
  {
    if |cols| > 0 {
      var init := cols[..|cols| - 1];
      var last := cols[|cols| - 1];
      ExtremesBound(start, init);
      var mm := Extremes(start, init).value;
      var r := Extremes(start, cols).value;
      forall i | 0 <= i < |start|
        ensures Attained(r.0[i], start, cols, i) && Attained(r.1[i], start, cols, i)
      {
        AttainedGrows(mm.0[i], start, init, last, i);
        AttainedGrows(mm.1[i], start, init, last, i);
        assert cols == init + [last];
      }
      forall i, k | 0 <= i < |start| && 0 <= k < |cols| ensures r.0[i] <= cols[k][i] <= r.1[i] {
        if k < |cols| - 1 {
          assert cols[k] == init[k];
        }
      }
    }
  }

  /** A value attained before one more column, or in that column, is attained after it. */
  lemma AttainedGrows(v: int, start: seq<int>, init: seq<seq<int>>, last: seq<int>, i: int)
    requires Attained(v, start, init, i)
    ensures Attained(v, start, init + [last], i)
    ensures 0 <= i < |last| ==> Attained(last[i], start, init + [last], i)
  {
    var cols := init + [last];
    if 0 <= i < |last| {
      assert cols[|init|] == last;
    }
    if !(0 <= i < |start| && start[i] == v) {
      var k :| 0 <= k < |init| && 0 <= i < |init[k]| && init[k][i] == v;
      assert cols[k] == init[k];
    }
  }

  /** The `mins`/`maxes` loop as written. */
  method ComputeExtremes(start: seq<int>, cols: seq<seq<int>>) returns (r: Result<(seq<int>, seq<int>)>)
    ensures r == Extremes(start, cols)
  {
    var mins := start;
    var maxes := start;
    for k := 0 to |cols|
      invariant Extremes(start, cols[..k]) == Ok((mins, maxes))
    {
      assert cols[..k + 1][..k] == cols[..k];
      var lo := Elementwise(Least, mins, cols[k]);
      var hi := Elementwise(Greatest, maxes, cols[k]);
      if lo.Err? || hi.Err? {
        ExtremesHalted(start, cols, k + 1);
        return if lo.Err? then Err(lo.error) else Err(hi.error);
      }
      mins := lo.value;
      maxes := hi.value;
    }
    assert cols[..|cols|] == cols;
    r := Ok((mins, maxes));
  }

  /** Once `np.minimum` or `np.maximum` has raised, later columns change nothing. */
  lemma {:induction false} ExtremesHalted(start: seq<int>, cols: seq<seq<int>>, k: int)
    requires 0 <= k <= |cols| && Extremes(start, cols[..k]).Err?
    ensures Extremes(start, cols) == Extremes(start, cols[..k])
    decreases |cols| - k
  {
    if k < |cols| {
      assert cols[..k + 1][..k] == cols[..k];
      ExtremesHalted(start, cols, k + 1);
    } else {
      assert cols[..k] == cols;
    }
  }

  /** What the target loop keeps for a target: the per-file columns (`target_details`),
      `accumulates`, the number of data files, and for data_avg_plotter.py `mins`/`maxes`. */
  datatype Summary = Summary(details: seq<seq<int>>, sums: seq<int>, runs: nat, range: Option<(seq<int>, seq<int>)>)

  /** The columns of a target that is accepted are as many and as long as its files. */
  lemma TargetColumnsLengths(files: seq<seq<string>>)
    requires TargetColumns(files).Ok?
    ensures |TargetColumns(files).value| == |files|
    ensures forall k :: 0 <= k < |files| ==> |TargetColumns(files).value[k]| == |files[k]|
  {
    forall k | 0 <= k < |files| ensures |ParsedFiles(files)[k]| == |files[k]| {
      ParsedFilesAt(files, k);
    }
  }

  /** One sane target: its columns and sums; data_avg_plotter.py then computes `mins` and
      `maxes` from the last file's column over every column; data_avg_plotter.py and
      edge_avg_plotter.py read `avgs[-1]`, which raises `IndexError` on an empty list. */
  function TargetSummary(script: Script, files: seq<seq<string>>): (r: Result<Summary>)
    requires |files| > 0
    ensures r.Ok? ==> TargetColumns(files).Ok? && r.value.details == TargetColumns(files).value
    ensures r.Ok? ==> r.value.sums == Sums(r.value.details) && r.value.runs == |files|
    ensures r.Ok? ==> (script == DataAvg <==> r.value.range.Some?)
    ensures r.Ok? && script != CrashAvg ==> |r.value.sums| > 0
    ensures TargetColumns(files).Err? ==> r == Err(TargetColumns(files).error)
    ensures TargetColumns(files).Ok? && script == CrashAvg ==> r.Ok?
  {
    match TargetColumns(files)
    case Err(e) => Err(e)
    case Ok(cols) =>
      var sums := Sums(cols);
      if script == DataAvg then
        (match Extremes(cols[|cols| - 1], cols)
         case Err(e) => Err(e)
         case Ok(mm) => if |sums| == 0 then Err(IndexError) else Ok(Summary(cols, sums, |files|, Some(mm))))
      else if script == CrashAvg || |sums| > 0 then Ok(Summary(cols, sums, |files|, None))
      else Err(IndexError)
  }

  /** data_avg_plotter.py and edge_avg_plotter.py fail on a target whose first data file is
      empty even when every file is accepted; data_avg_plotter.py then raises `IndexError` only
      when all files have the first one's length, `np.minimum` having accepted them. */
  lemma EmptyFirstFile(script: Script, files: seq<seq<string>>)
    requires |files| > 0 && TargetColumns(files).Ok? && |files[0]| == 0
    ensures script != CrashAvg ==> TargetSummary(script, files).Err?
    ensures script == EdgeAvg ==> TargetSummary(script, files) == Err(IndexError)
  {
    TargetColumnsLengths(files);
  }

  /** In data_avg_plotter.py a target whose files are accepted and all as long as the first,
      which is not empty, is stored; its `mins[i]` and `maxes[i]` bound the `i`-th value of
      every file, and each is the `i`-th value of some file. */
  lemma DataRange(files: seq<seq<string>>)
    requires |files| > 0 && TargetColumns(files).Ok? && |files[0]| > 0
    requires forall k :: 0 <= k < |files| ==> |files[k]| == |files[0]|
    ensures TargetSummary(DataAvg, files).Ok?
    ensures var s := TargetSummary(DataAvg, files).value;
      var cols := s.details;
      var (mins, maxes) := s.range.value;
      |cols| == |files| && (forall k :: 0 <= k < |files| ==> |cols[k]| == |files[0]|) &&
      |mins| == |maxes| == |files[0]| &&
      (forall i, k :: 0 <= i < |files[0]| && 0 <= k < |files| ==> mins[i] <= cols[k][i] <= maxes[i]) &&
      (forall i :: 0 <= i < |files[0]| ==> Attained(mins[i], cols[|files| - 1], cols, i) && Attained(maxes[i], cols[|files| - 1], cols, i))
  {
    TargetColumnsLengths(files);
    var cols := TargetColumns(files).value;
    ExtremesBound(cols[|files| - 1], cols);
  }

  /** One pass of the target loop: an insane target is skipped, a sane one's summary stored
      under its name. */
  function Store(script: Script, d: map<string, Summary>, t: AvgTarget, read: Reader): (r: Result<map<string, Summary>>)
    ensures !SaneTarget(t) ==> r == Ok(d)
    ensures SaneTarget(t) ==> (r.Ok? <==> TargetSummary(script, ReadAll(t.dataFiles.value, read)).Ok?)
    ensures r.Ok? ==> r.value.Keys == d.Keys + (if SaneTarget(t) then {t.name} else {})
  {
    if !SaneTarget(t) then Ok(d)
    else
      match TargetSummary(script, ReadAll(t.dataFiles.value, read))
      case Err(e) => Err(e)
      case Ok(s) => Ok(d[t.name := s])
  }

  /** The target loop over the first `|targets|` targets; the first error ends the script. */
  function Summaries(script: Script, targets: seq<AvgTarget>, read: Reader): Result<map<string, Summary>> {
    if |targets| == 0 then Ok(map[])
    else
      match Summaries(script, targets[..|targets| - 1], read)
      case Err(e) => Err(e)
      case Ok(d) => Store(script, d, targets[|targets| - 1], read)
  }

  /** The names of the sane targets. */
  function SaneNames(targets: seq<AvgTarget>): (names: set<string>)
    ensures forall n :: n in names <==> exists k :: 0 <= k < |targets| && SaneTarget(targets[k]) && targets[k].name == n
  {
    set k | 0 <= k < |targets| && SaneTarget(targets[k]) :: targets[k].name
  }

  /** When the loop completes, the names stored are exactly those of the sane targets, and
      every sane target's summary was computed without error. */
  lemma {:induction false} SummariesKeys(script: Script, targets: seq<AvgTarget>, read: Reader)
    requires Summaries(script, targets, read).Ok?
    ensures Summaries(script, targets, read).value.Keys == SaneNames(targets)
    ensures forall k :: 0 <= k < |targets| && SaneTarget(targets[k]) ==>
      TargetSummary(script, ReadAll(targets[k].dataFiles.value, read)).Ok?
  {
    if |targets| > 0 {
      var init := targets[..|targets| - 1];
      SummariesKeys(script, init, read);
      assert targets == init + [targets[|targets| - 1]];
      SaneNamesSnoc(init, targets[|targets| - 1]);
    }
  }

  /** The sane names of one more target. */
  lemma SaneNamesSnoc(init: seq<AvgTarget>, t: AvgTarget)
    ensures SaneNames(init + [t]) == SaneNames(init) + (if SaneTarget(t) then {t.name} else {})
  {
    var ts := init + [t];
    forall n | n in SaneNames(init) ensures n in SaneNames(ts) {
      var k :| 0 <= k < |init| && SaneTarget(init[k]) && init[k].name == n;
      assert ts[k] == init[k];
    }
    assert ts[|init|] == t;
  }

  /** The summary stored under a name is that of the last sane target with that name. */
  lemma {:induction false} SummariesLast(script: Script, targets: seq<AvgTarget>, read: Reader, k: int)
    requires Summaries(script, targets, read).Ok?
    requires 0 <= k < |targets| && SaneTarget(targets[k])
    requires forall j :: k < j < |targets| && SaneTarget(targets[j]) ==> targets[j].name != targets[k].name
    ensures TargetSummary(script, ReadAll(targets[k].dataFiles.value, read)).Ok?
    ensures targets[k].name in Summaries(script, targets, read).value
    ensures Summaries(script, targets, read).value[targets[k].name] ==
      TargetSummary(script, ReadAll(targets[k].dataFiles.value, read)).value
  {
    var init := targets[..|targets| - 1];
    if k < |targets| - 1 {
      forall j | k < j < |init| && SaneTarget(init[j]) ensures init[j].name != init[k].name {
        assert init[j] == targets[j];
      }
      assert init[k] == targets[k];
      SummariesLast(script, init, read, k);
    }
  }

  /** The target loop as written. */
  method SummarizeTargets(script: Script, targets: seq<AvgTarget>, read: Reader) returns (r: Result<map<string, Summary>>)
    ensures r == Summaries(script, targets, read)
  {
    var d: map<string, Summary> := map[];
    for k := 0 to |targets|
      invariant Summaries(script, targets[..k], read) == Ok(d)
    {
      assert targets[..k + 1][..k] == targets[..k];
      var t := targets[k];
      if !SaneTarget(t) {
        continue;
      }
      var s := SummarizeTarget(script, ReadAll(t.dataFiles.value, read));
      if s.Err? {
        SummariesHalted(script, targets, read, k + 1);
        return Err(s.error);
      }
      d := d[t.name := s.value];
    }
    assert targets[..|targets|] == targets;
    r := Ok(d);
  }

  /** One target as written: the file loop, then the `mins`/`maxes` loop, then `avgs[-1]`. */
  method SummarizeTarget(script: Script, files: seq<seq<string>>) returns (r: Result<Summary>)
    requires |files| > 0
    ensures r == TargetSummary(script, files)
  {
    var acc := AccumulateTarget(files);
    if acc.Err? {
      return Err(acc.error);
    }
    var (details, sums) := acc.value;
    var range: Option<(seq<int>, seq<int>)> := None;
    if script == DataAvg {
      var mm := ComputeExtremes(details[|details| - 1], details);
      if mm.Err? {
        return Err(mm.error);
      }
      range := Some(mm.value);
    }
    if script != CrashAvg && |sums| == 0 {
      return Err(IndexError);
    }
    r := Ok(Summary(details, sums, |files|, range));
  }

  /** Once a target has raised, later targets change nothing. */
  lemma {:induction false} SummariesHalted(script: Script, targets: seq<AvgTarget>, read: Reader, k: int)
    requires 0 <= k <= |targets| && Summaries(script, targets[..k], read).Err?
    ensures Summaries(script, targets, read) == Summaries(script, targets[..k], read)
    decreases |targets| - k
  {
    if k < |targets| {
      assert targets[..k + 1][..k] == targets[..k];
      SummariesHalted(script, targets, read, k + 1);
    } else {
      assert targets[..k] == targets;
    }
  }

  /** `max_bin` of data_avg_plotter.py: the length, cut to `limit` when that is smaller, and
      the number of bins `range(0, max_bin)` then visits. */
  function PlotLength(n: nat, limit: Option<int>): (m: nat)
    ensures m <= n
    ensures limit.None? ==> m == n
    ensures limit.Some? ==> m == if n <= limit.value then n else if limit.value < 0 then 0 else limit.value
  {
    if limit.Some? && n > limit.value then (if limit.value < 0 then 0 else limit.value) else n
  }

  /** The points of one curve: x values and the sums they plot (each to be divided by
      the number of runs). */
  datatype Curve = Curve(name: string, xs: seq<int>, ys: seq<int>)

  /** The points of the range band of data_avg_plotter.py. */
  datatype Band = Band(xs: seq<int>, lows: seq<int>, highs: seq<int>)

  /** The plotting loop of one curve: `x_vals` and `y_vals` over `range(0, n)`; crash_avg_plotter.py
      appends `bin_no + 1` and keeps every point, the others append `bin_no` and plot from
      the second point on (`x_vals[1:]`). */
  method PlotPoints(ys0: seq<int>, n: nat, oneBased: bool) returns (xs: seq<int>, ys: seq<int>)
    requires n <= |ys0|
    ensures oneBased ==> |xs| == |ys| == n && forall i :: 0 <= i < n ==> xs[i] == i + 1 && ys[i] == ys0[i]
    ensures !oneBased ==>
      |xs| == |ys| == (if n == 0 then 0 else n - 1) && forall i :: 0 <= i < |xs| ==> xs[i] == i + 1 && ys[i] == ys0[i + 1]
  {
    xs, ys := [], [];
    for b := 0 to n
      invariant |xs| == |ys| == b
      invariant forall i :: 0 <= i < b ==> xs[i] == (if oneBased then i + 1 else i) && ys[i] == ys0[i]
    {
      xs := xs + [if oneBased then b + 1 else b];
      ys := ys + [ys0[b]];
    }
    if !oneBased && n > 0 {
      xs, ys := xs[1..], ys[1..];
    }
  }

  /** The average curve of a stored target: data_avg_plotter.py cuts it to `limit`. */
  predicate CurveOf(script: Script, name: string, s: Summary, limit: Option<int>, c: Curve) {
    var n := if script == DataAvg then PlotLength(|s.sums|, limit) else |s.sums|;
    c.name == name &&
    if script == CrashAvg then
      |c.xs| == |c.ys| == n && forall i :: 0 <= i < n ==> c.xs[i] == i + 1 && c.ys[i] == s.sums[i]
    else
      |c.xs| == |c.ys| == (if n == 0 then 0 else n - 1) &&
      forall i :: 0 <= i < |c.xs| ==> c.xs[i] == i + 1 && c.ys[i] == s.sums[i + 1]
  }

  /** The range band of data_avg_plotter.py: `min(len(mins), len(maxes))` cut to `limit`, from
      the second point on. */
  predicate BandOf(mins: seq<int>, maxes: seq<int>, limit: Option<int>, b: Band) {
    var n := PlotLength(if |mins| <= |maxes| then |mins| else |maxes|, limit);
    |b.xs| == |b.lows| == |b.highs| == (if n == 0 then 0 else n - 1) &&
    forall i :: 0 <= i < |b.xs| ==> b.xs[i] == i + 1 && b.lows[i] == mins[i + 1] && b.highs[i] == maxes[i + 1]
  }

  /** The plotting of one stored target: its average curve and, for data_avg_plotter.py, its
      range band. */
  method PlotTarget(script: Script, name: string, s: Summary, limit: Option<int>) returns (p: (Curve, Option<Band>))
    ensures CurveOf(script, name, s, limit, p.0)
    ensures script == DataAvg <==> p.1.Some?
    ensures script == DataAvg && s.range.Some? ==> BandOf(s.range.value.0, s.range.value.1, limit, p.1.value)
  {
    var n := if script == DataAvg then PlotLength(|s.sums|, limit) else |s.sums|;
    var xs, ys := PlotPoints(s.sums, n, script == CrashAvg);
    var band: Option<Band> := None;
    if script == DataAvg {
      var (mins, maxes) := if s.range.Some? then s.range.value else ([], []);
      var m := PlotLength(if |mins| <= |maxes| then |mins| else |maxes|, limit);
      var bx, lows := PlotPoints(mins, m, false);
      var _, highs := PlotPoints(maxes, m, false);
      band := Some(Band(bx, lows, highs));
    }
    p := (Curve(name, xs, ys), band);
  }

  /** The names of the curves, in plotting order. */
  function CurveNames(curves: seq<(Curve, Option<Band>)>): (names: seq<string>)
    ensures |names| == |curves| && forall i :: 0 <= i < |curves| ==> names[i] == curves[i].0.name
  {
    seq(|curves|, i requires 0 <= i < |curves| => curves[i].0.name)
  }

  /** What the plotting loop draws for the stored targets: one curve per name, in ascending
      name order, each the curve of the summary stored under it. */
  ghost predicate PlotsOf(script: Script, d: map<string, Summary>, limit: Option<int>, curves: seq<(Curve, Option<Band>)>) {
    StrictlySortedNames(CurveNames(curves)) &&
    (forall n :: n in d <==> n in CurveNames(curves)) &&
    (forall i :: 0 <= i < |curves| ==> curves[i].0.name in d && CurveOf(script, curves[i].0.name, d[curves[i].0.name], limit, curves[i].0)) &&
    (forall i :: 0 <= i < |curves| ==> (script == DataAvg <==> curves[i].1.Some?))
  }

  /** The first `|curves|` names have been plotted, each from the summary stored under it. */
  ghost predicate PlottedUpTo(script: Script, d: map<string, Summary>, limit: Option<int>, names: seq<string>,
                              curves: seq<(Curve, Option<Band>)>) {
    |curves| <= |names| &&
    (forall j :: 0 <= j < |curves| ==> names[j] in d && curves[j].0.name == names[j]) &&
    (forall j :: 0 <= j < |curves| ==> CurveOf(script, names[j], d[names[j]], limit, curves[j].0)) &&
    (forall j :: 0 <= j < |curves| ==> (script == DataAvg <==> curves[j].1.Some?))
  }

  lemma PlottedStep(script: Script, d: map<string, Summary>, limit: Option<int>, names: seq<string>,
                    curves: seq<(Curve, Option<Band>)>, p: (Curve, Option<Band>))
    requires PlottedUpTo(script, d, limit, names, curves) && |curves| < |names| && names[|curves|] in d
    requires CurveOf(script, names[|curves|], d[names[|curves|]], limit, p.0)
    requires script == DataAvg <==> p.1.Some?
    ensures PlottedUpTo(script, d, limit, names, curves + [p])
  {
    var c := curves + [p];
    forall j | 0 <= j < |c|
      ensures names[j] in d && c[j].0.name == names[j]
      ensures CurveOf(script, names[j], d[names[j]], limit, c[j].0)
      ensures script == DataAvg <==> c[j].1.Some?
    {
      if j < |curves| {
        assert c[j] == curves[j];
      }
    }
  }

  lemma PlottedAll(script: Script, d: map<string, Summary>, limit: Option<int>, names: seq<string>,
                   curves: seq<(Curve, Option<Band>)>)
    requires StrictlySortedNames(names) && (forall x :: x in names <==> x in d)
    requires PlottedUpTo(script, d, limit, names, curves) && |curves| == |names|
    ensures PlotsOf(script, d, limit, curves)
  {
    assert CurveNames(curves) == names;
  }

  /** The plotting loop over the sorted names of the stored targets. */
  method PlotAll(script: Script, d: map<string, Summary>, limit: Option<int>) returns (curves: seq<(Curve, Option<Band>)>)
    ensures |curves| == |d|
    ensures PlotsOf(script, d, limit, curves)
  {
    var names := SortedNames(d.Keys);
    curves := [];
    for i := 0 to |names|
      invariant |curves| == i
      invariant PlottedUpTo(script, d, limit, names, curves)
    {
      var p := PlotTarget(script, names[i], d[names[i]], limit);
      PlottedStep(script, d, limit, names, curves, p);
      curves := curves + [p];
    }
    PlottedAll(script, d, limit, names, curves);
  }

  /** The whole script: a bad configuration exits, the target loop may raise, and otherwise
      one curve per stored target, in ascending name order, with the range band of each for
      data_avg_plotter.py. */
  method AvgMain(script: Script, c: AvgConfig, read: Reader) returns (r: Result<seq<(Curve, Option<Band>)>>)
    ensures SanitizeUnitTargets(c, c.bucket, |c.targets|).Err? ==> r == Err(Exit)
    ensures SanitizeUnitTargets(c, c.bucket, |c.targets|).Ok? && Summaries(script, c.targets, read).Err? ==>
      r == Err(Summaries(script, c.targets, read).error)
    ensures r.Ok? <==> SanitizeUnitTargets(c, c.bucket, |c.targets|).Ok? && Summaries(script, c.targets, read).Ok?
    ensures r.Ok? ==>
      |r.value| == |Summaries(script, c.targets, read).value| && PlotsOf(script, Summaries(script, c.targets, read).value, c.limit, r.value)
  {
    var sane := SanitizeUnitTargets(c, c.bucket, |c.targets|);
    if sane.Err? {
      return Err(Exit);
    }
    var sums := SummarizeTargets(script, c.targets, read);
    if sums.Err? {
      return Err(sums.error);
    }
    var curves := PlotAll(script, sums.value, c.limit);
    r := Ok(curves);
  }
}
