/**
 * real_path_counter.py: for each target, the queue entries are sorted by modification time and
 * binned from the start time (the earliest entry's time when none is known); each entry is run
 * through `execute_command` when the target needs execution, and an entry whose output does not
 * contain `false_path_pattern` counts as a real path. The running number of real paths is
 * written into each real entry's bin; then every group is filled bin by bin for the figure and
 * written to its `_entry_time.txt` file.
 */
module RealPath {
  import opened Wrappers
  import opened PyText
  import opened TimeBin
  import opened Targets
  import opened Sorting
  import opened Corpus
  import opened Series
  import opened GapFill
  import opened Passes
  import opened EdgeSingle
  import opened EdgeSingleMain
  import opened GroupStore
  import CrashMain
  import EdgeMain

  /** Running a command line and taking `str(stdout)` of it. */
  type Runner = string -> string

  /** `execute_command` with its `@@` placeholder, the way it is run, and `false_path_pattern`. */
  datatype Checker = Checker(command: string, run: Runner, falsePath: string)

  /** `str(stdout)` for an entry: the output of the command with `@@` replaced by the entry's
      path when the target needs execution, and the empty text otherwise. */
  function Output(x: Checker, needExecution: bool, path: string): string {
    if needExecution then x.run(Replace(x.command, "@@", path)) else ""
  }

  /** `false_path_pattern not in str(stdout)`: the entry reaches a real path. */
  predicate IsReal(x: Checker, needExecution: bool, e: Entry) {
    !Contains(Output(x, needExecution, e.path), x.falsePath)
  }

  /** `checked_entries` after the first `|entries|` entries: the real ones, in order. */
  function RealEntries(entries: seq<Entry>, x: Checker, needExecution: bool): (r: seq<Entry>)
    ensures |r| <= |entries|
    ensures forall e :: e in r ==> e in entries && IsReal(x, needExecution, e)
  {
    if |entries| == 0 then []
    else
      var init := RealEntries(entries[..|entries| - 1], x, needExecution);
      var e := entries[|entries| - 1];
      if IsReal(x, needExecution, e) then init + [e] else init
  }

  /** No real entry is left out. */
  lemma {:induction false} RealEntriesComplete(entries: seq<Entry>, x: Checker, needExecution: bool)
    ensures forall e :: e in entries && IsReal(x, needExecution, e) ==> e in RealEntries(entries, x, needExecution)
  {
    if |entries| > 0 {
      var init := entries[..|entries| - 1];
      RealEntriesComplete(init, x, needExecution);
      assert entries == init + [entries[|entries| - 1]];
    }
  }

  /** The real entries of two runs of entries are those of the first, then those of the second. */
  lemma {:induction false} RealEntriesAppend(a: seq<Entry>, b: seq<Entry>, x: Checker, needExecution: bool)
    ensures RealEntries(a + b, x, needExecution) == RealEntries(a, x, needExecution) + RealEntries(b, x, needExecution)
  {
    if |b| == 0 {
      assert a + b == a;
    } else {
      var b' := b[..|b| - 1];
      assert (a + b)[..|a + b| - 1] == a + b';
      RealEntriesAppend(a, b', x, needExecution);
    }
  }

  /** Without execution the output is empty, so every entry is real unless
      `false_path_pattern` is itself empty, in which case none is. */
  lemma {:induction false} NoExecutionKeepsAll(entries: seq<Entry>, x: Checker)
    ensures RealEntries(entries, x, false) == if x.falsePath == "" then [] else entries
  {
    if |entries| > 0 {
      NoExecutionKeepsAll(entries[..|entries| - 1], x);
      assert entries[..|entries| - 1] + [entries[|entries| - 1]] == entries;
    }
  }

  /** The entries' bins never decrease. */
  predicate BinsInOrder(entries: seq<Entry>) {
    forall i, j :: 0 <= i < j < |entries| ==> entries[i].bin <= entries[j].bin
  }

  /** Real entries keep the order of the entries' bins. */
  lemma {:induction false} RealEntriesOrdered(entries: seq<Entry>, x: Checker, needExecution: bool)
    requires BinsInOrder(entries)
    ensures BinsInOrder(RealEntries(entries, x, needExecution))
  {
    if |entries| > 0 {
      var init := entries[..|entries| - 1];
      var last := entries[|entries| - 1];
      RealEntriesOrdered(init, x, needExecution);
      var ri := RealEntries(init, x, needExecution);
      var r := RealEntries(entries, x, needExecution);
      assert BinsInOrder(ri);
      assert r == ri || r == ri + [last];
      forall i, j | 0 <= i < j < |r| ensures r[i].bin <= r[j].bin {
        assert r[i] == ri[i] && ri[i] in ri;
        if j == |ri| {
          var k :| 0 <= k < |init| && init[k] == ri[i];
          assert init[k] == entries[k];
        }
      }
    }
  }

  /** `entry_no_dict` after the loop: the k-th real entry writes k into its bin. */
  function RealSeries(entries: seq<Entry>, x: Checker, needExecution: bool): map<int, int> {
    LastWrite(CrashMain.CrashWrites(RealEntries(entries, x, needExecution)))
  }

  /** The entry loop, with `checked_entries` kept. */
  method CountReal(entries: seq<Entry>, x: Checker, needExecution: bool) returns (m: map<int, int>)
    ensures m == RealSeries(entries, x, needExecution)
  {
    m := map[];
    var checked: seq<Entry> := [];
    for i := 0 to |entries|
      invariant checked == RealEntries(entries[..i], x, needExecution)
      invariant m == LastWrite(CrashMain.CrashWrites(checked))
    {
      var e := entries[i];
      RealEntriesStep(entries, x, needExecution, i);
      var stdout := if needExecution then x.run(Replace(x.command, "@@", e.path)) else "";
      if !Contains(stdout, x.falsePath) {
        CountSnoc(checked, e);
        checked := checked + [e];
        m := m[e.bin := |checked|];
      }
    }
    TakeAll(entries);
  }

  /** One more entry of the loop: it joins `checked_entries` exactly when it is real. */
  lemma RealEntriesStep(entries: seq<Entry>, x: Checker, needExecution: bool, i: int)
    requires 0 <= i < |entries|
    ensures RealEntries(entries[..i + 1], x, needExecution) ==
      RealEntries(entries[..i], x, needExecution) + if IsReal(x, needExecution, entries[i]) then [entries[i]] else []
  {
    TakeNext(entries, i);
  }

  /** One more real entry writes its position into its bin. */
  lemma CountSnoc(checked: seq<Entry>, e: Entry)
    ensures LastWrite(CrashMain.CrashWrites(checked + [e])) == LastWrite(CrashMain.CrashWrites(checked))[e.bin := |checked| + 1]
  {
    assert CrashMain.CrashWrites(checked + [e]) == CrashMain.CrashWrites(checked) + [Write(e.bin, |checked| + 1)];
    LastWriteSnoc(CrashMain.CrashWrites(checked), Write(e.bin, |checked| + 1));
  }

  /** The dictionary holds exactly the bins of the real entries. */
  lemma RealBins(entries: seq<Entry>, x: Checker, needExecution: bool)
    ensures RealSeries(entries, x, needExecution).Keys == set e | e in entries && IsReal(x, needExecution, e) :: e.bin
  {
    var r := RealEntries(entries, x, needExecution);
    var ws := CrashMain.CrashWrites(r);
    RealEntriesComplete(entries, x, needExecution);
    forall b | b in BinsOf(ws) ensures b in set e | e in entries && IsReal(x, needExecution, e) :: e.bin {
      var i :| 0 <= i < |ws| && ws[i].bin == b;
      assert r[i] in r;
    }
    forall e | e in entries && IsReal(x, needExecution, e) ensures e.bin in BinsOf(ws) {
      var i :| 0 <= i < |r| && r[i] == e;
      assert ws[i].bin == e.bin;
    }
  }

  /** The real entries after the last real entry of a bin all lie in other bins. */
  lemma RealEntriesAfter(entries: seq<Entry>, x: Checker, needExecution: bool, k: int)
    requires 0 <= k < |entries|
    requires forall j :: k < j < |entries| && IsReal(x, needExecution, entries[j]) ==> entries[j].bin != entries[k].bin
    ensures forall e :: e in RealEntries(entries[k + 1..], x, needExecution) ==> e.bin != entries[k].bin
  {
    var b := entries[k + 1..];
    forall e | e in RealEntries(b, x, needExecution) ensures e.bin != entries[k].bin {
      var t :| 0 <= t < |b| && b[t] == e;
      assert entries[k + 1 + t] == e;
    }
  }

  /** The real entries up to a real entry end with it. */
  lemma RealEntriesUpTo(entries: seq<Entry>, x: Checker, needExecution: bool, k: int)
    requires 0 <= k < |entries| && IsReal(x, needExecution, entries[k])
    ensures RealEntries(entries[..k + 1], x, needExecution) == RealEntries(entries[..k], x, needExecution) + [entries[k]]
  {
    assert entries[..k + 1][..k] == entries[..k];
  }

  /** In the running count, the last write to a bin holds the position of the entry that made
      it. */
  lemma CountAtLast(r: seq<Entry>, i: int)
    requires 0 <= i < |r| && forall j :: i < j < |r| ==> r[j].bin != r[i].bin
    ensures r[i].bin in LastWrite(CrashMain.CrashWrites(r)) && LastWrite(CrashMain.CrashWrites(r))[r[i].bin] == i + 1
  {
    LastWriteWins(CrashMain.CrashWrites(r), i);
  }

  /** The value in the bin of the last real entry of that bin is the number of real entries up
      to and including it. */
  lemma RealCountAtLastOfBin(entries: seq<Entry>, x: Checker, needExecution: bool, k: int)
    requires 0 <= k < |entries| && IsReal(x, needExecution, entries[k])
    requires forall j :: k < j < |entries| && IsReal(x, needExecution, entries[j]) ==> entries[j].bin != entries[k].bin
    ensures entries[k].bin in RealSeries(entries, x, needExecution)
    ensures RealSeries(entries, x, needExecution)[entries[k].bin] == |RealEntries(entries[..k + 1], x, needExecution)|
  {
    assert entries[..k + 1] + entries[k + 1..] == entries;
    RealEntriesAppend(entries[..k + 1], entries[k + 1..], x, needExecution);
    RealEntriesUpTo(entries, x, needExecution, k);
    RealEntriesAfter(entries, x, needExecution, k);
    var ra := RealEntries(entries[..k + 1], x, needExecution);
    var rb := RealEntries(entries[k + 1..], x, needExecution);
    var r := ra + rb;
    assert r[|ra| - 1] == entries[k];
    forall j | |ra| - 1 < j < |r| ensures r[j].bin != entries[k].bin {
      assert r[j] == rb[j - |ra|] && rb[j - |ra|] in rb;
    }
    CountAtLast(r, |ra| - 1);
  }

  /** With the entries' bins non-negative and in order, the counts grow with the bin and lie
      between 1 and the number of entries. */
  lemma RealSeriesMonotone(entries: seq<Entry>, x: Checker, needExecution: bool)
    requires forall i, j :: 0 <= i < j < |entries| ==> entries[i].bin <= entries[j].bin
    requires forall i :: 0 <= i < |entries| ==> entries[i].bin >= 0
    ensures var m := RealSeries(entries, x, needExecution);
      MonotoneMap(m) && forall b :: b in m ==> b >= 0 && 1 <= m[b] <= |entries|
  {
    var r := RealEntries(entries, x, needExecution);
    var ws := CrashMain.CrashWrites(r);
    RealEntriesOrdered(entries, x, needExecution);
    assert BinsInOrder(r);
    forall i | 0 <= i < |ws| ensures ws[i].bin >= 0 {
      assert r[i] in r;
      var k :| 0 <= k < |entries| && entries[k] == r[i];
    }
    forall i, j | 0 <= i < j < |ws| ensures ws[i].bin <= ws[j].bin {
      assert ws[i].bin == r[i].bin && ws[j].bin == r[j].bin;
    }
    WrittenMonotone(ws);
    LastWriteValues(ws);
  }

  /** The found entries of a target, binned later, in modification-time order. */
  function SortedCorpus(job: Job, env: Env): (r: seq<Entry>)
    requires job.target.entryDirs.Some?
    ensures SortedBy(r, (e: Entry) => e.mtime)
  {
    SortByMtime(FoundEntries(job.target.entryDirs.value, env.listing, env.patterns, env.matches, Deferred, None))
  }

  /** One target: sanitised with the earliest-entry fallback; a null start time takes the
      earliest entry's time, which raises `IndexError` when the target has no entry; then the
      rebinned entries are checked. */
  function RealOutcome(job: Job, env: Env, x: Checker): (r: Result<Option<map<int, int>>>)
    ensures r.Err? ==> (Sanitize(job.target, env.fs, StatsOrEarliest) == Err(r.error) ||
                        (Sanitize(job.target, env.fs, StatsOrEarliest) == Ok(Some(Null)) && r.error == IndexError))
  {
    match Sanitize(job.target, env.fs, StatsOrEarliest)
    case Err(e) => Err(e)
    case Ok(None) => Ok(None)
    case Ok(Some(st)) =>
      var sorted := SortedCorpus(job, env);
      match ResolveStart(st, sorted, NullIsEarliest)
      case Err(e) => Err(e)
      case Ok(start) => Ok(Some(RealSeries(Rebinned(sorted, start, env.margin), x, job.target.needExecution.value)))
  }

  /** The steps of the loop body for one target. */
  method RealTarget(job: Job, env: Env, x: Checker) returns (r: Result<Option<map<int, int>>>)
    ensures r == RealOutcome(job, env, x)
  {
    var sane := SanitizeTarget(job.target, env.fs, StatsOrEarliest);
    if sane.Err? {
      return Err(sane.error);
    }
    if sane.value.None? {
      return Ok(None);
    }
    var found := CollectEntries(job.target.entryDirs.value, env.listing, env.patterns, env.matches, Deferred, None);
    var sorted := SortByMtime(found);
    var start := ResolveStart(sane.value.value, sorted, NullIsEarliest);
    if start.Err? {
      return Err(start.error);
    }
    var binned := Rebin(sorted, start.value, env.margin);
    var m := CountReal(binned, x, job.target.needExecution.value);
    r := Ok(Some(m));
  }

  /** A processed target's dictionary holds bin 0 exactly when a real entry falls into bin 0.
      With the earliest entry as the start time, that entry is in bin 0, so a target that needs
      no execution always has bin 0 unless `false_path_pattern` is empty. */
  lemma RealOutcomeBinZero(job: Job, env: Env, x: Checker)
    requires RealOutcome(job, env, x).Ok? && RealOutcome(job, env, x).value.Some?
    ensures var st := Sanitize(job.target, env.fs, StatsOrEarliest).value.value;
      var sorted := SortedCorpus(job, env);
      var entries := Rebinned(sorted, ResolveStart(st, sorted, NullIsEarliest).value, env.margin);
      var m := RealOutcome(job, env, x).value.value;
      (0 in m <==> exists i :: 0 <= i < |entries| && entries[i].bin == 0 && IsReal(x, job.target.needExecution.value, entries[i])) &&
      (st == Null && !job.target.needExecution.value && x.falsePath != "" ==> 0 in m)
  {
    var st := Sanitize(job.target, env.fs, StatsOrEarliest).value.value;
    var sorted := SortedCorpus(job, env);
    var start := ResolveStart(st, sorted, NullIsEarliest).value;
    var entries := Rebinned(sorted, start, env.margin);
    var ne := job.target.needExecution.value;
    assert RealOutcome(job, env, x).value.value == RealSeries(entries, x, ne);
    RealSeriesBinZero(entries, x, ne);
    if st == Null && !ne && x.falsePath != "" {
      assert entries[0].bin == BinOf(start, start, env.margin) == 0;
      NoExecutionBinZero(entries, x);
    }
  }

  /** The dictionary holds bin 0 exactly when a real entry falls into bin 0. */
  lemma RealSeriesBinZero(entries: seq<Entry>, x: Checker, needExecution: bool)
    ensures 0 in RealSeries(entries, x, needExecution) <==>
      exists i :: 0 <= i < |entries| && entries[i].bin == 0 && IsReal(x, needExecution, entries[i])
  {
    RealBins(entries, x, needExecution);
    if exists i :: 0 <= i < |entries| && entries[i].bin == 0 && IsReal(x, needExecution, entries[i]) {
      var i :| 0 <= i < |entries| && entries[i].bin == 0 && IsReal(x, needExecution, entries[i]);
      assert entries[i] in entries;
    }
  }

  /** Without execution every entry is real unless the pattern is empty, so a first entry in
      bin 0 puts bin 0 in the dictionary. */
  lemma NoExecutionBinZero(entries: seq<Entry>, x: Checker)
    requires |entries| > 0 && entries[0].bin == 0 && x.falsePath != ""
    ensures 0 in RealSeries(entries, x, false)
  {
    NoExecutionKeepsAll(entries, x);
    RealSeriesBinZero(entries, x, false);
    assert entries[0] in RealEntries(entries, x, false);
  }

  /** With no entry older than a given start time, a processed target's dictionary grows with
      the bin, every bin is non-negative, and no count exceeds the number of entries. */
  lemma RealOutcomeMonotone(job: Job, env: Env, x: Checker)
    requires RealOutcome(job, env, x).Ok? && RealOutcome(job, env, x).value.Some?
    requires var st := Sanitize(job.target, env.fs, StatsOrEarliest).value.value;
      st.Given? ==> forall e :: e in SortedCorpus(job, env) ==> st.value <= e.mtime
    ensures var m := RealOutcome(job, env, x).value.value;
      MonotoneMap(m) && forall b :: b in m ==> b >= 0 && 1 <= m[b] <= |SortedCorpus(job, env)|
  {
    var st := Sanitize(job.target, env.fs, StatsOrEarliest).value.value;
    var sorted := SortedCorpus(job, env);
    var start := ResolveStart(st, sorted, NullIsEarliest).value;
    var entries := Rebinned(sorted, start, env.margin);
    assert RealOutcome(job, env, x).value.value == RealSeries(entries, x, job.target.needExecution.value);
    EntriesFromStart(sorted, start, env.margin, st == Null);
    RealSeriesMonotone(entries, x, job.target.needExecution.value);
  }

  /** Every target's name with the outcome of processing it. */
  function RealOutcomes(jobs: seq<Job>, env: Env, x: Checker): (ds: seq<Done1>)
    ensures |ds| == |jobs| && forall k :: 0 <= k < |jobs| ==> ds[k] == Done1(jobs[k].name, RealOutcome(jobs[k], env, x))
  {
    seq(|jobs|, k requires 0 <= k < |jobs| => Done1(jobs[k].name, RealOutcome(jobs[k], env, x)))
  }

  /** `entry_group_dict` after the target loop, and the error that ended the script. */
  function RealAll(jobs: seq<Job>, env: Env, x: Checker): Stored {
    StoreAll(RealOutcomes(jobs, env, x))
  }

  /** The target loop with `entry_group_dict` as a local. */
  method RealLoop(jobs: seq<Job>, env: Env, x: Checker) returns (r: Stored)
    ensures r == RealAll(jobs, env, x)
  {
    var groups: map<string, map<int, int>> := map[];
    ghost var ds := RealOutcomes(jobs, env, x);
    for i := 0 to |jobs|
      invariant StoreAll(ds[..i]) == Stored(groups, None)
    {
      assert ds[..i + 1][..i] == ds[..i];
      var t := RealTarget(jobs[i], env, x);
      if t.Err? {
        StoreAllHalted(ds, i + 1);
        return Stored(groups, Some(t.error));
      }
      if t.value.Some? {
        groups := groups[jobs[i].name := t.value.value];
      }
    }
    assert ds[..|jobs|] == ds;
    r := Stored(groups, None);
  }

  /** `plot_entry_over_time`, when `plot_figure` is set, fills every group without writing a
      file. */
  function RealPlots(groups: map<string, map<int, int>>, plot: bool): (ps: seq<Pass>)
    ensures |ps| <= 1 && forall p :: p in ps ==> p == Pass(groups, 0, "")
  {
    if plot then [Pass(groups, 0, "")] else []
  }

  /** `collect_entry_over_time`: one `_entry_time.txt` file per group. */
  function RealCollects(groups: map<string, map<int, int>>): seq<Pass> {
    [Pass(groups, 0, "_entry_time.txt")]
  }

  /** `main`: a bad configuration exits; otherwise the target loop with the width the unit
      names, then the unit swap and the figure and data-file passes. */
  method RealScript(c: Config, env: Env, x: Checker) returns (groups: map<string, map<int, int>>,
                                                              files: seq<DataFile>, halt: Option<PyError>)
    ensures SanitizeConfig(c).Err? ==> groups == map[] && files == [] && halt == Some(Exit)
    ensures SanitizeConfig(c).Ok? ==>
      var cfg := SanitizeConfig(c).value;
      var loop := RealAll(cfg.targets, WorkerEnv(cfg, env), x);
      groups == loop.groups &&
      (loop.halt.Some? ==> files == [] && halt == loop.halt) &&
      (loop.halt.None? ==>
        Reported(RealPlots(groups, cfg.plotFigure == Some(true)), RealCollects(groups), FailFast,
                 MaxBin(cfg, env), cfg.outputDir, files, halt))
  {
    var sane := SanitizeConfig(c);
    if sane.Err? {
      return map[], [], Some(sane.error);
    }
    var cfg := sane.value;
    var r := RealLoop(cfg.targets, WorkerEnv(cfg, env), x);
    groups := r.groups;
    if r.halt.Some? {
      return groups, [], r.halt;
    }
    var maxBin := env.maxSpan * SwapMargin(SecondsPerBin(cfg.bucket));
    files, halt := Report(RealPlots(groups, cfg.plotFigure == Some(true)), RealCollects(groups), FailFast,
                          maxBin, cfg.outputDir);
  }

  /** The output stage finishes exactly when every stored group has bin 0, and then every group
      has its `_entry_time.txt` file; otherwise it exits. */
  lemma RealReportFinishes(groups: map<string, map<int, int>>, plot: bool, maxBin: int, outputDir: string,
                           files: seq<DataFile>, halt: Option<PyError>)
    requires Reported(RealPlots(groups, plot), RealCollects(groups), FailFast, maxBin, outputDir, files, halt)
    ensures halt.None? <==> forall n :: n in groups ==> 0 in groups[n]
    ensures halt.Some? ==> halt == Some(Exit)
    ensures halt.None? ==> forall n :: n in groups ==>
      exists f :: f in files && f.path == DataFilePath(outputDir, n, "_entry_time.txt")
  {
    var p := Pass(groups, 0, "_entry_time.txt");
    forall n | n in groups ensures GroupRows(groups[n], FailFast, maxBin, 0).Ok? <==> 0 in groups[n] {
      EdgeMain.FailFastFills(groups[n], maxBin, 0);
    }
    assert RealCollects(groups)[0] == p;
    assert plot ==> RealPlots(groups, plot)[0] == Pass(groups, 0, "");
    if halt.None? {
      forall n | n in groups ensures exists f :: f in files && f.path == DataFilePath(outputDir, n, "_entry_time.txt") {
        var f := GroupFile(p, n, FailFast, maxBin, outputDir).value;
        assert f in files;
      }
    }
  }
}
