/**
 * `main` of crash/main.py: for each target, the crash files found in its directories are
 * counted in modification-time order, the running count written into each file's bin; then
 * every group is gap-filled and written to its `_crash_time.txt` file.
 */
module CrashMain {
  import opened Wrappers
  import opened TimeBin
  import opened Targets
  import opened Corpus
  import opened Series
  import opened GapFill
  import opened EdgeSingle
  import opened EdgeCount
  import opened EdgeMain
  import opened GroupStore

  /** The writes of the counting loop: the i-th file writes its position into its bin. */
  function CrashWrites(entries: seq<Entry>): (ws: seq<Write>)
    ensures |ws| == |entries| && forall i :: 0 <= i < |entries| ==> ws[i] == Write(entries[i].bin, i + 1)
  {
    seq(|entries|, i requires 0 <= i < |entries| => Write(entries[i].bin, i + 1))
  }

  /** `crash_no_dict` after the loop and the bin-0 default. */
  function CrashSeries(entries: seq<Entry>): map<int, int> {
    DefaultZero(LastWrite(CrashWrites(entries)))
  }

  /** The counting loop, with `checked_entries` kept as its length. */
  method CountCrashes(entries: seq<Entry>) returns (m: map<int, int>)
    ensures m == CrashSeries(entries)
  {
    m := map[];
    var checked := 0;
    for i := 0 to |entries|
      invariant checked == i && m == LastWrite(CrashWrites(entries[..i]))
    {
      assert CrashWrites(entries[..i + 1]) == CrashWrites(entries[..i]) + [Write(entries[i].bin, i + 1)];
      LastWriteSnoc(CrashWrites(entries[..i]), Write(entries[i].bin, i + 1));
      checked := checked + 1;
      m := m[entries[i].bin := checked];
    }
    assert entries[..|entries|] == entries;
    if 0 !in m {
      m := m[0 := 0];
    }
  }

  /** `crash_no_dict[b]` is the number of crash files up to and including the last one of
      bin `b`. */
  lemma CrashCountAtLastOfBin(entries: seq<Entry>, i: int)
    requires 0 <= i < |entries|
    requires forall j :: i < j < |entries| ==> entries[j].bin != entries[i].bin
    ensures entries[i].bin in CrashSeries(entries) && CrashSeries(entries)[entries[i].bin] == i + 1
  {
    LastWriteWins(CrashWrites(entries), i);
  }

  /** The dictionary holds exactly the files' bins and bin 0. */
  lemma CrashBins(entries: seq<Entry>)
    ensures CrashSeries(entries).Keys == (set j | 0 <= j < |entries| :: entries[j].bin) + {0}
  {
    var ws := CrashWrites(entries);
    forall b | b in (set j | 0 <= j < |entries| :: entries[j].bin) ensures b in BinsOf(ws) {
      var j :| 0 <= j < |entries| && entries[j].bin == b;
      assert ws[j].bin == b;
    }
  }

  /** With the files' bins non-negative and in order, the counts grow with the bin and never
      exceed the number of files. */
  lemma CrashSeriesMonotone(entries: seq<Entry>)
    requires forall i, j :: 0 <= i < j < |entries| ==> entries[i].bin <= entries[j].bin
    requires forall i :: 0 <= i < |entries| ==> entries[i].bin >= 0
    ensures MonotoneMap(CrashSeries(entries))
    ensures forall b :: b in CrashSeries(entries) ==> b >= 0 && 0 <= CrashSeries(entries)[b] <= |entries|
  {
    var ws := CrashWrites(entries);
    CrashBins(entries);
    assert BinsNonDecreasing(ws) && ValuesNonDecreasing(ws);
    WrittenMonotone(ws);
    LastWriteValues(ws);
  }

  /** When no crash file is older than the start time, a processed target's dictionary grows
      with the bin, every bin is non-negative, and no count exceeds the number of files. */
  lemma CrashOutcomeMonotone(job: Job, env: Env)
    requires CrashOutcome(job, env).Ok? && CrashOutcome(job, env).value.Some?
    requires forall e :: e in CountedEntries(job, env, Sanitize(job.target, env.fs, StatsOrExplicit).value.value.value) ==>
      Sanitize(job.target, env.fs, StatsOrExplicit).value.value.value <= e.mtime
    ensures var m := CrashOutcome(job, env).value.value;
      var n := |CountedEntries(job, env, Sanitize(job.target, env.fs, StatsOrExplicit).value.value.value)|;
      MonotoneMap(m) && forall b :: b in m ==> b >= 0 && 0 <= m[b] <= n
  {
    var start := Sanitize(job.target, env.fs, StatsOrExplicit).value.value.value;
    var entries := CountedEntries(job, env, start);
    assert CrashOutcome(job, env) == Ok(Some(CrashSeries(entries)));
    CountedEntriesOrdered(job, env, start);
    CrashSeriesMonotone(entries);
  }

  /** One target: sanitised with the stats file first; `int(start_time)` raises `TypeError`
      on a null start; then the count over the sorted files. */
  function CrashOutcome(job: Job, env: Env): (r: Result<Option<map<int, int>>>)
    ensures r.Ok? && r.value.Some? ==> 0 in r.value.value
  {
    match Sanitize(job.target, env.fs, StatsOrExplicit)
    case Err(e) => Err(e)
    case Ok(None) => Ok(None)
    case Ok(Some(st)) =>
      match ResolveStart(st, [], NullRaises)
      case Err(e) => Err(e)
      case Ok(start) => Ok(Some(CrashSeries(CountedEntries(job, env, start))))
  }

  /** The steps of the loop body for one target. */
  method CrashTarget(job: Job, env: Env) returns (r: Result<Option<map<int, int>>>)
    ensures r == CrashOutcome(job, env)
  {
    var sane := SanitizeTarget(job.target, env.fs, StatsOrExplicit);
    if sane.Err? {
      return Err(sane.error);
    }
    if sane.value.None? {
      return Ok(None);
    }
    var start := ResolveStart(sane.value.value, [], NullRaises);
    if start.Err? {
      return Err(start.error);
    }
    var found := CollectEntries(job.target.entryDirs.value, env.listing, env.patterns, env.matches,
                                FromStart(start.value, env.margin), None);
    var m := CountCrashes(SortByMtime(found));
    r := Ok(Some(m));
  }

  /** Every target's name with the outcome of processing it. */
  function CrashOutcomes(jobs: seq<Job>, env: Env): (ds: seq<Done1>)
    ensures |ds| == |jobs| && forall k :: 0 <= k < |jobs| ==> ds[k] == Done1(jobs[k].name, CrashOutcome(jobs[k], env))
  {
    seq(|jobs|, k requires 0 <= k < |jobs| => Done1(jobs[k].name, CrashOutcome(jobs[k], env)))
  }

  /** `entry_group_dict` after the target loop, and the error that ended the script. */
  function CrashAll(jobs: seq<Job>, env: Env): Stored {
    StoreAll(CrashOutcomes(jobs, env))
  }

  /** Every stored dictionary has bin 0, so the fail-fast check of the output stage never
      fires. */
  lemma CrashAllHaveZero(jobs: seq<Job>, env: Env)
    ensures forall n :: n in CrashAll(jobs, env).groups ==> 0 in CrashAll(jobs, env).groups[n]
  {
    StoreAllKeepsZero(CrashOutcomes(jobs, env));
  }

  /** The target loop with `entry_group_dict` as a local. */
  method CrashLoop(jobs: seq<Job>, env: Env) returns (r: Stored)
    ensures r == CrashAll(jobs, env)
  {
    var groups: map<string, map<int, int>> := map[];
    ghost var ds := CrashOutcomes(jobs, env);
    for i := 0 to |jobs|
      invariant StoreAll(ds[..i]) == Stored(groups, None)
    {
      assert ds[..i + 1][..i] == ds[..i];
      var t := CrashTarget(jobs[i], env);
      if t.Err? {
        StoreAllHalted(ds, i + 1);
        return Stored(groups, Some(t.error));
      }
      if t.value.Some? {
        groups := groups[jobs[i].name := t.value.value];
      }
    }
    assert ds[..|jobs|] == ds;
    r := Stored(groups, None);
  }

  /** `max_bin = int(max_span) * bucket_margin` as written: the width is still in seconds
      per bin. */
  function CrashMaxBin(c: Config, env: Env): int {
    env.maxSpan * SecondsPerBin(c.bucket)
  }

  /** As written, the rows cover `max_span` hours only for minute bins: hour bins give
      3600 times the span and second bins a 3600th of it. */
  lemma CrashSpanMismatch(c: Config, env: Env)
    requires env.maxSpan > 0
    ensures CrashMaxBin(c, env) * SecondsPerBin(c.bucket) == env.maxSpan * 3600 <==> SecondsPerBin(c.bucket) == 60
    ensures c.bucket == "hour" ==> CrashMaxBin(c, env) * SecondsPerBin(c.bucket) == 3600 * (env.maxSpan * 3600)
  {
    var m := SecondsPerBin(c.bucket);
    if m == 1 {
      assert CrashMaxBin(c, env) * m == env.maxSpan;
    } else if m == 3600 {
      assert CrashMaxBin(c, env) * m == 3600 * (env.maxSpan * 3600);
    }
  }

  /** `max_span` hours in bins of the unit's width, as edge_coverage/single.py computes it
      after swapping the width to bins per hour. */
  function CrashMaxBinHours(c: Config, env: Env): (n: int)
    ensures n * SecondsPerBin(c.bucket) == env.maxSpan * 3600
  {
    SwappedSpanCoversHours(c.bucket, env.maxSpan);
    env.maxSpan * SwapMargin(SecondsPerBin(c.bucket))
  }

  /** `main` with the corrected span `CrashMaxBinHours` in place of the as-written
      `CrashMaxBin`: a bad configuration exits; otherwise the target loop, then one
      `_crash_time.txt` file per stored group, in sorted order. The output stage never stops
      early, so every group gets its file. */
  method CrashScript(c: Config, env: Env) returns (groups: map<string, map<int, int>>, names: seq<string>,
                                                   files: seq<DataFile>, halt: Option<PyError>)
    ensures SanitizeConfig(c).Err? ==> groups == map[] && files == [] && halt == Some(Exit)
    ensures SanitizeConfig(c).Ok? ==>
      var sane := SanitizeConfig(c).value;
      var loop := CrashAll(sane.targets, MainEnv(sane, env));
      groups == loop.groups &&
      (loop.halt.Some? ==> files == [] && halt == loop.halt) &&
      (loop.halt.None? ==>
        halt.None? && SortedGroupNames(names, groups) && |files| == |names| &&
        FilesOfPrefix(files, sane.outputDir, "_crash_time.txt", names, groups, FailFast, CrashMaxBinHours(sane, env), 0))
  {
    var sane := SanitizeConfig(c);
    if sane.Err? {
      return map[], [], [], Some(sane.error);
    }
    var e := MainEnv(sane.value, env);
    var r := CrashLoop(sane.value.targets, e);
    groups := r.groups;
    if r.halt.Some? {
      return groups, [], [], r.halt;
    }
    CrashAllHaveZero(sane.value.targets, e);
    names, files, halt := CollectOverTime(sane.value.outputDir, "_crash_time.txt", groups, FailFast,
                                          CrashMaxBinHours(sane.value, env), 0);
  }
}
