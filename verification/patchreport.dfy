/**
 * `main` of patch_reporter.py: the crash files of every target are replayed in name order
 * within each directory, and each return code's first find per target entered in
 * `trace_crash_dict` with the file's path and bin.
 */
module PatchReport {
  import opened Wrappers
  import opened TimeBin
  import opened Sorting
  import opened Corpus
  import opened EdgeSingle
  import opened FirstFind
  import opened EdgeSingleMain
  import opened Reporter

  /** The return code of a replayed command; `communicate()` has waited, so it is never `None`. */
  type ReturnCode = string -> int

  /** An element of `ff_times`: `(crash_file, bin_no)`. */
  datatype FirstFile = FirstFile(path: string, bin: int)

  function FileName(f: FileInfo): string {
    f.name
  }

  function EntryPath(e: Entry): string {
    e.path
  }

  /** `crash_files.sort()` on every listing. */
  function SortedListing(listing: Listing): (sorted: Listing)
    ensures forall d :: SortedByName(sorted(d), FileName) && multiset(sorted(d)) == multiset(listing(d))
  {
    var sorted := (d: string) => SortByName(listing(d), FileName);
    assert forall d :: sorted(d) == SortByName(listing(d), FileName);
    sorted
  }

  /** The environment with every directory's listing sorted by name. */
  function SortedEnv(env: ReportEnv): ReportEnv {
    env.(listing := SortedListing(env.listing))
  }

  /** Files of one directory listed in name order are visited in path order. */
  lemma {:induction false} DirEntriesByPath(dir: string, files: seq<FileInfo>, patterns: seq<string>, matches: NameMatch,
                                            binning: Binning)
    requires SortedByName(files, FileName)
    ensures SortedByName(DirEntries(dir, files, patterns, matches, binning, None), EntryPath)
  {
    if |files| > 0 {
      var init := files[..|files| - 1];
      var last := files[|files| - 1];
      assert SortedByName(init, FileName);
      DirEntriesByPath(dir, init, patterns, matches, binning);
      var es := DirEntries(dir, init, patterns, matches, binning, None);
      if FileEntry(dir, last, patterns, matches, binning, None).Some? {
        var e := FileEntry(dir, last, patterns, matches, binning, None).value;
        assert forall k :: 0 <= k < |init| ==> LexLe(init[k].name, last.name);
        PathsBelow(dir, init, last.name, patterns, matches, binning);
        SortedSnoc(es, e);
      }
    }
  }

  /** The entries of files named below `name` have paths below that of `name`. */
  lemma PathsBelow(dir: string, init: seq<FileInfo>, name: string, patterns: seq<string>, matches: NameMatch,
                   binning: Binning)
    requires forall k :: 0 <= k < |init| ==> LexLe(init[k].name, name)
    ensures forall x :: x in DirEntries(dir, init, patterns, matches, binning, None) ==> LexLe(x.path, dir + "/" + name)
  {
    DirEntriesMatch(dir, init, patterns, matches, binning, None);
    forall x | x in DirEntries(dir, init, patterns, matches, binning, None)
      ensures LexLe(x.path, dir + "/" + name)
    {
      var f :| f in init && AnyMatch(patterns, matches, f.name) && x == Entry(dir + "/" + f.name, f.mtime, InitialBin(binning, f.mtime));
      var k :| 0 <= k < |init| && init[k] == f;
      PathBelow(dir, f.name, name);
    }
  }

  lemma PathBelow(dir: string, a: string, b: string)
    requires LexLe(a, b)
    ensures LexLe(dir + "/" + a, dir + "/" + b)
  {
    LexLePrefix(dir + "/", a, b);
    assert dir + "/" + a == (dir + "/") + a;
    assert dir + "/" + b == (dir + "/") + b;
  }

  /** An entry whose path is not below any earlier one keeps the entries in path order. */
  lemma SortedSnoc(es: seq<Entry>, e: Entry)
    requires SortedByName(es, EntryPath)
    requires forall x :: x in es ==> LexLe(x.path, e.path)
    ensures SortedByName(es + [e], EntryPath)
  {
    var s := es + [e];
    forall i, j | 0 <= i < j < |s| ensures LexLe(EntryPath(s[i]), EntryPath(s[j])) {
      assert s[i] == es[i];
      if j == |es| {
        assert es[i] in es;
      } else {
        assert s[j] == es[j];
      }
    }
  }

  /** What each visited file yields: the return code of its replay, with its path and bin. */
  function PatchHits(files: seq<Entry>, execCmd: string, rc: ReturnCode): (hs: seq<Hit<int, FirstFile>>)
    ensures |hs| == |files|
    ensures forall i :: 0 <= i < |files| ==> hs[i] == Hit(Some(rc(Command(execCmd, files[i].path))), FirstFile(files[i].path, files[i].bin))
  {
    seq(|files|, i requires 0 <= i < |files| => Hit(Some(rc(Command(execCmd, files[i].path))), FirstFile(files[i].path, files[i].bin)))
  }

  /** One target: its files in name order per directory, then what each of them yields. */
  function PatchTargetOutcome(job: Job, c: ReportConfig, env: ReportEnv, rc: ReturnCode): Result<seq<Hit<int, FirstFile>>> {
    match TargetFiles(job.target, SortedEnv(env), SecondsPerBin(c.bucket))
    case Err(e) => Err(e)
    case Ok(files) => Ok(PatchHits(files, c.execCmd, rc))
  }

  /** Every target's outcome, in the order of the `targets` keys. */
  function PatchOutcomes(c: ReportConfig, env: ReportEnv, rc: ReturnCode): (outs: seq<Result<seq<Hit<int, FirstFile>>>>)
    ensures |outs| == |c.targets| && forall t :: 0 <= t < |c.targets| ==> outs[t] == PatchTargetOutcome(c.targets[t], c, env, rc)
  {
    seq(|c.targets|, t requires 0 <= t < |c.targets| => PatchTargetOutcome(c.targets[t], c, env, rc))
  }

  /** `trace_crash_dict` after the target loop, and the error that ended the script. */
  function PatchReportOf(c: ReportConfig, env: ReportEnv, rc: ReturnCode): Reported<int, FirstFile> {
    RunAll(PatchOutcomes(c, env, rc))
  }

  /** Within a target that completes, every return code is entered once, with the path and
      bin of the first file in visit order whose replay gave it, and every code any file gave
      is entered: since a return code always exists, every visited file's code is. */
  lemma PatchTargetFirstFinds(job: Job, c: ReportConfig, env: ReportEnv, rc: ReturnCode)
    requires PatchTargetOutcome(job, c, env, rc).Ok?
    ensures var hs := PatchTargetOutcome(job, c, env, rc).value;
      var ps := FirstHits(hs);
      DistinctKeys(ps) &&
      (forall q :: 0 <= q < |ps| ==> FirstFrom(hs, ps[q])) &&
      (forall i :: 0 <= i < |hs| ==> hs[i].key.value in KeysOf(ps))
  {
    var hs := PatchTargetOutcome(job, c, env, rc).value;
    FirstHitsDistinct(hs);
    FirstHitsFirst(hs);
  }

  /** For every return code, `find_runs` equals the length of `ff_times`, which holds, in
      target order, one first file per target that found the code before the script stopped. */
  lemma PatchCodeCounts(c: ReportConfig, env: ReportEnv, rc: ReturnCode, code: int)
    ensures var d := PatchReportOf(c, env, rc).dict;
      var lists := Completed(PatchOutcomes(c, env, rc));
      (code in d <==> |FirstsOf(lists, code)| > 0) &&
      (code in d ==> d[code].findRuns == |d[code].firsts| == |FirstsOf(lists, code)| <= |c.targets| &&
                     d[code].firsts == FirstsOf(lists, code))
  {
    RunAllCounts(PatchOutcomes(c, env, rc), code);
  }

  /** The replay loop of one target as written, entering each new return code as it is found. */
  method PatchReportTarget(d: map<int, Info<FirstFile>>, job: Job, c: ReportConfig, env: ReportEnv, rc: ReturnCode)
    returns (r: Result<map<int, Info<FirstFile>>>)
    ensures PatchTargetOutcome(job, c, env, rc).Err? ==> r == Err(PatchTargetOutcome(job, c, env, rc).error)
    ensures PatchTargetOutcome(job, c, env, rc).Ok? ==> r == Ok(Record(d, FirstHits(PatchTargetOutcome(job, c, env, rc).value)))
  {
    var files := VisitTarget(job.target, SortedEnv(env), SecondsPerBin(c.bucket));
    if files.Err? {
      return Err(files.error);
    }
    var hits := ReplayFiles(files.value, c.execCmd, rc);
    var m := RecordTarget(d, hits);
    r := Ok(m);
  }

  /** The replays of one target's files, in visit order, each paired with its file. */
  method ReplayFiles(files: seq<Entry>, execCmd: string, rc: ReturnCode) returns (hits: seq<Hit<int, FirstFile>>)
    ensures hits == PatchHits(files, execCmd, rc)
  {
    hits := [];
    for i := 0 to |files|
      invariant hits == PatchHits(files[..i], execCmd, rc)
    {
      var f := files[i];
      var code := rc(Command(execCmd, f.path));
      assert files[..i + 1] == files[..i] + [f];
      hits := hits + [Hit(Some(code), FirstFile(f.path, f.bin))];
    }
    assert files[..|files|] == files;
  }

  /** `main`: a bad configuration exits; otherwise the target loop, which stops at the first
      target that raises. */
  method PatchReportMain(c: ReportConfig, env: ReportEnv, rc: ReturnCode) returns (r: Reported<int, FirstFile>)
    ensures SanitizeUnitTargets(c, c.bucket, |c.targets|).Err? ==> r == Reported(map[], Some(Exit))
    ensures SanitizeUnitTargets(c, c.bucket, |c.targets|).Ok? ==> r == PatchReportOf(c, env, rc)
  {
    var sane := SanitizeUnitTargets(c, c.bucket, |c.targets|);
    if sane.Err? {
      return Reported(map[], Some(Exit));
    }
    var d: map<int, Info<FirstFile>> := map[];
    ghost var outs := PatchOutcomes(c, env, rc);
    for t := 0 to |c.targets|
      invariant RunAll(outs[..t]) == Reported(d, None)
    {
      RunAllStep(outs, t);
      var next := PatchReportTarget(d, c.targets[t], c, env, rc);
      if next.Err? {
        RunAllHalted(outs, t + 1);
        return Reported(d, Some(next.error));
      }
      d := next.value;
    }
    assert outs[..|c.targets|] == outs;
    r := Reported(d, None);
  }
}
