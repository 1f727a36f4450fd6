/**
 * `main` of crash_reporter.py: every crash file of every target is replayed, its sanitizer
 * output parsed into a stack trace, and each trace's first find per target entered in
 * `trace_crash_dict` with the file's bin.
 */
module CrashReport {
  import opened Wrappers
  import opened TimeBin
  import opened Corpus
  import opened EdgeSingle
  import opened FirstFind
  import opened StackTrace
  import opened EdgeSingleMain
  import opened Reporter

  /** The lines of the sanitizer's output (`stderr.splitlines()`) for a replayed command. */
  type Run = string -> seq<string>

  /** What each visited file yields: the stack trace of its replay and its bin. */
  function CrashHits(files: seq<Entry>, execCmd: string, run: Run): (hs: seq<Hit<string, int>>)
    ensures |hs| == |files|
    ensures forall i :: 0 <= i < |files| ==> hs[i] == Hit(StackTraceOf(run(Command(execCmd, files[i].path))), files[i].bin)
  {
    seq(|files|, i requires 0 <= i < |files| => Hit(StackTraceOf(run(Command(execCmd, files[i].path))), files[i].bin))
  }

  /** One target: its files, then what each of them yields. */
  function CrashTargetOutcome(job: Job, c: ReportConfig, env: ReportEnv, run: Run): Result<seq<Hit<string, int>>> {
    match TargetFiles(job.target, env, SecondsPerBin(c.bucket))
    case Err(e) => Err(e)
    case Ok(files) => Ok(CrashHits(files, c.execCmd, run))
  }

  /** Every target's outcome, in the order of the `targets` keys. */
  function CrashOutcomes(c: ReportConfig, env: ReportEnv, run: Run): (outs: seq<Result<seq<Hit<string, int>>>>)
    ensures |outs| == |c.targets| && forall t :: 0 <= t < |c.targets| ==> outs[t] == CrashTargetOutcome(c.targets[t], c, env, run)
  {
    seq(|c.targets|, t requires 0 <= t < |c.targets| => CrashTargetOutcome(c.targets[t], c, env, run))
  }

  /** `trace_crash_dict` after the target loop, and the error that ended the script. */
  function CrashReportOf(c: ReportConfig, env: ReportEnv, run: Run): Reported<string, int> {
    RunAll(CrashOutcomes(c, env, run))
  }

  /** Within a target that completes, every trace is entered once, with the bin of the first
      file whose replay gave it, and every trace some file gave is entered. */
  lemma CrashTargetFirstFinds(job: Job, c: ReportConfig, env: ReportEnv, run: Run)
    requires CrashTargetOutcome(job, c, env, run).Ok?
    ensures var hs := CrashTargetOutcome(job, c, env, run).value;
      var ps := FirstHits(hs);
      DistinctKeys(ps) &&
      (forall q :: 0 <= q < |ps| ==> FirstFrom(hs, ps[q])) &&
      (forall i :: 0 <= i < |hs| && hs[i].key.Some? ==> hs[i].key.value in KeysOf(ps))
  {
    var hs := CrashTargetOutcome(job, c, env, run).value;
    FirstHitsDistinct(hs);
    FirstHitsFirst(hs);
  }

  /** For every trace, `find_runs` equals the length of `times`, which holds, in target order,
      one bin per target that found the trace before the script stopped. */
  lemma CrashTraceCounts(c: ReportConfig, env: ReportEnv, run: Run, trace: string)
    ensures var d := CrashReportOf(c, env, run).dict;
      var lists := Completed(CrashOutcomes(c, env, run));
      (trace in d <==> |FirstsOf(lists, trace)| > 0) &&
      (trace in d ==> d[trace].findRuns == |d[trace].firsts| == |FirstsOf(lists, trace)| <= |c.targets| &&
                      d[trace].firsts == FirstsOf(lists, trace))
  {
    RunAllCounts(CrashOutcomes(c, env, run), trace);
  }

  /** The replay loop of one target as written, entering each new trace as it is found. */
  method CrashReportTarget(d: map<string, Info<int>>, job: Job, c: ReportConfig, env: ReportEnv, run: Run)
    returns (r: Result<map<string, Info<int>>>)
    ensures CrashTargetOutcome(job, c, env, run).Err? ==> r == Err(CrashTargetOutcome(job, c, env, run).error)
    ensures CrashTargetOutcome(job, c, env, run).Ok? ==> r == Ok(Record(d, FirstHits(CrashTargetOutcome(job, c, env, run).value)))
  {
    var files := VisitTarget(job.target, env, SecondsPerBin(c.bucket));
    if files.Err? {
      return Err(files.error);
    }
    var hits := ReplayFiles(files.value, c.execCmd, run);
    var m := RecordTarget(d, hits);
    r := Ok(m);
  }

  /** The replays of one target's files, in visit order, each giving its stack trace. */
  method ReplayFiles(files: seq<Entry>, execCmd: string, run: Run) returns (hits: seq<Hit<string, int>>)
    ensures hits == CrashHits(files, execCmd, run)
  {
    hits := [];
    for i := 0 to |files|
      invariant hits == CrashHits(files[..i], execCmd, run)
    {
      var f := files[i];
      var trace := GetStackTrace(run(Command(execCmd, f.path)));
      assert files[..i + 1] == files[..i] + [f];
      hits := hits + [Hit(trace, f.bin)];
    }
    assert files[..|files|] == files;
  }

  /** `main`: a bad configuration exits; otherwise the target loop, which stops at the first
      target that raises. */
  method CrashReportMain(c: ReportConfig, env: ReportEnv, run: Run) returns (r: Reported<string, int>)
    ensures SanitizeUnitTargets(c, c.bucket, |c.targets|).Err? ==> r == Reported(map[], Some(Exit))
    ensures SanitizeUnitTargets(c, c.bucket, |c.targets|).Ok? ==> r == CrashReportOf(c, env, run)
  {
    var sane := SanitizeUnitTargets(c, c.bucket, |c.targets|);
    if sane.Err? {
      return Reported(map[], Some(Exit));
    }
    var d: map<string, Info<int>> := map[];
    ghost var outs := CrashOutcomes(c, env, run);
    for t := 0 to |c.targets|
      invariant RunAll(outs[..t]) == Reported(d, None)
    {
      RunAllStep(outs, t);
      var next := CrashReportTarget(d, c.targets[t], c, env, run);
      if next.Err? {
        RunAllHalted(outs, t + 1);
        return Reported(d, Some(next.error));
      }
      d := next.value;
    }
    assert outs[..|c.targets|] == outs;
    r := Reported(d, None);
  }
}
