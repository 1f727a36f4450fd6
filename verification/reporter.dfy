/**
 * What crash_reporter.py and patch_reporter.py share: the configuration check, the start time
 * each target ends up with, the files each target's loops visit with their bins, the command
 * each file is replayed with, and the target loop that enters every target's first finds and
 * stops at the first exception.
 */
module Reporter {
  import opened Wrappers
  import opened PyText
  import opened TimeBin
  import opened Targets
  import opened Corpus
  import opened EdgeSingle
  import opened EdgeSingleMain
  import opened FirstFind

  /** The configuration `main` acts on: the targets in the order of the `targets` keys, the
      bin unit and `exec_cmd`. */
  datatype ReportConfig = ReportConfig(targets: seq<Job>, bucket: string, execCmd: string)

  /** The file system and listings the target loop reads. */
  datatype ReportEnv = ReportEnv(fs: FileSystem, listing: Listing, patterns: seq<string>, matches: NameMatch)

  /** The start time after `sanitize_target(target)`, whose verdict `main` ignores: the stats
      file's `start_time` if it has one, else the configured one. A target left without
      `crash_dirs` or `start_time` makes the lookups after the call raise `KeyError`; an error
      while reading the stats file propagates. */
  function ReportStart(t: Target, fs: FileSystem): (r: Result<StartSetting>)
    ensures r.Ok? ==> t.entryDirs.Some? && r.value != Absent
    ensures t.entryDirs.None? ==> r == Err(KeyError)
    ensures r.Ok? && t.start.Given? && FirstStats(t.entryDirs.value, fs).None? ==> r.value == t.start
  {
    match Sanitize(t, fs, StatsOrExplicit)
    case Err(e) => Err(e)
    case Ok(Some(st)) => Ok(st)
    case Ok(None) => if t.entryDirs.None? || t.start == Absent then Err(KeyError) else Ok(t.start)
  }

  /** The files the loops of one target visit, in visit order, each with the bin of its
      modification time; a `null` start makes the first of them raise `TypeError`. */
  function TargetFiles(t: Target, env: ReportEnv, margin: Margin): (r: Result<seq<Entry>>)
    ensures r.Ok? ==> ReportStart(t, env.fs).Ok?
    ensures r.Ok? && ReportStart(t, env.fs).value.Given? ==>
      forall e :: e in r.value ==> e.bin == BinOf(e.mtime, ReportStart(t, env.fs).value.value, margin)
    ensures r.Err? && ReportStart(t, env.fs).Ok? ==> r.error == TypeError
  {
    match ReportStart(t, env.fs)
    case Err(e) => Err(e)
    case Ok(st) =>
      if st.Given? then
        FoundBinned(t.entryDirs.value, env.listing, env.patterns, env.matches, st.value, margin, None);
        Ok(FoundEntries(t.entryDirs.value, env.listing, env.patterns, env.matches, FromStart(st.value, margin), None))
      else if |FoundEntries(t.entryDirs.value, env.listing, env.patterns, env.matches, Deferred, None)| > 0 then
        Err(TypeError)
      else Ok([])
  }

  /** The steps of one target up to its files: the start time, then the directory loops. */
  method VisitTarget(t: Target, env: ReportEnv, margin: Margin) returns (r: Result<seq<Entry>>)
    ensures r == TargetFiles(t, env, margin)
  {
    var sane := SanitizeTarget(t, env.fs, StatsOrExplicit);
    var st: StartSetting;
    match sane {
      case Err(e) => return Err(e);
      case Ok(Some(s)) => st := s;
      case Ok(None) =>
        if t.entryDirs.None? || t.start == Absent {
          return Err(KeyError);
        }
        st := t.start;
    }
    if st.Given? {
      var files := CollectEntries(t.entryDirs.value, env.listing, env.patterns, env.matches, FromStart(st.value, margin), None);
      return Ok(files);
    }
    var files := CollectEntries(t.entryDirs.value, env.listing, env.patterns, env.matches, Deferred, None);
    if |files| > 0 {
      return Err(TypeError);
    }
    return Ok([]);
  }

  /** `exec_cmd.replace('@@', crash_file)`: the command a file is replayed with. */
  function Command(execCmd: string, path: string): (cmd: string)
    ensures cmd == Join(SplitOn(execCmd, "@@"), path)
  {
    ReplaceJoinsSplit(execCmd, "@@", path);
    Replace(execCmd, "@@", path)
  }

  /** The dictionary after the target loop, and the error that ended the script. */
  datatype Reported<K, V> = Reported(dict: map<K, Info<V>>, halt: Option<PyError>)

  /** The target loop over the outcomes of the first `|outs|` targets: a target that raises
      ends the script with what the earlier targets entered. */
  function RunAll<K(==), V>(outs: seq<Result<seq<Hit<K, V>>>>): Reported<K, V> {
    if |outs| == 0 then Reported(map[], None)
    else
      var r := RunAll(outs[..|outs| - 1]);
      if r.halt.Some? then r
      else match outs[|outs| - 1]
        case Err(e) => Reported(r.dict, Some(e))
        case Ok(hs) => Reported(Record(r.dict, FirstHits(hs)), None)
  }

  /** One more target in the loop. */
  lemma RunAllStep<K, V>(outs: seq<Result<seq<Hit<K, V>>>>, t: int)
    requires 0 <= t < |outs| && RunAll(outs[..t]).halt.None?
    ensures outs[t].Err? ==> RunAll(outs[..t + 1]) == Reported(RunAll(outs[..t]).dict, Some(outs[t].error))
    ensures outs[t].Ok? ==> RunAll(outs[..t + 1]) == Reported(Record(RunAll(outs[..t]).dict, FirstHits(outs[t].value)), None)
  {
    assert outs[..t + 1][..t] == outs[..t];
  }

  /** Once a target has raised, later targets change nothing. */
  lemma {:induction false} RunAllHalted<K, V>(outs: seq<Result<seq<Hit<K, V>>>>, i: int)
    requires 0 <= i <= |outs| && RunAll(outs[..i]).halt.Some?
    ensures RunAll(outs) == RunAll(outs[..i])
    decreases |outs| - i
  {
    if i < |outs| {
      assert outs[..i + 1][..i] == outs[..i];
      RunAllHalted(outs, i + 1);
    } else {
      assert outs[..i] == outs;
    }
  }

  /** The first finds of the targets before the first one that raises. */
  function Completed<K(==), V>(outs: seq<Result<seq<Hit<K, V>>>>): (lists: seq<seq<(K, V)>>)
    ensures |lists| <= |outs|
    ensures forall t :: 0 <= t < |lists| ==> outs[t].Ok? && lists[t] == FirstHits(outs[t].value)
  {
    if |outs| == 0 then []
    else
      var init := Completed(outs[..|outs| - 1]);
      if |init| < |outs| - 1 || outs[|outs| - 1].Err? then init
      else init + [FirstHits(outs[|outs| - 1].value)]
  }

  /** The script's dictionary is the report of the targets before the first that raises; the
      script finishes exactly when no target raises, and otherwise stops with the first
      target's error. */
  lemma {:induction false} RunAllReports<K, V>(outs: seq<Result<seq<Hit<K, V>>>>)
    ensures RunAll(outs).dict == ReportOf(Completed(outs))
    ensures RunAll(outs).halt.None? <==> |Completed(outs)| == |outs|
    ensures RunAll(outs).halt.Some? ==> outs[|Completed(outs)|] == Err(RunAll(outs).halt.value)
  {
    if |outs| > 0 {
      var init := outs[..|outs| - 1];
      RunAllReports(init);
      var c := Completed(init);
      if |c| == |init| && outs[|outs| - 1].Ok? {
        assert (c + [FirstHits(outs[|outs| - 1].value)])[..|c|] == c;
      } else if |c| < |init| {
        assert outs[|c|] == init[|c|];
      }
    }
  }

  /** Every entry has as many runs as values, and `find_runs` of a key is the number of
      completed targets that found it, with their first finds in target order. */
  lemma RunAllCounts<K, V>(outs: seq<Result<seq<Hit<K, V>>>>, k: K)
    ensures Consistent(RunAll(outs).dict)
    ensures (k in RunAll(outs).dict) <==> |FirstsOf(Completed(outs), k)| > 0
    ensures Get(RunAll(outs).dict, k) == Info(|FirstsOf(Completed(outs), k)|, FirstsOf(Completed(outs), k))
  {
    var lists := Completed(outs);
    forall t | 0 <= t < |lists| ensures DistinctKeys(lists[t]) {
      FirstHitsDistinct(outs[t].value);
    }
    RunAllReports(outs);
    ReportOfConsistent(lists);
    ReportOfCounts(lists, k);
  }

  /** The pattern loop of both reporters as written: it has no `break`, and a matching pattern
      rebinds the name to the joined path, so every later pattern is tried on that path and,
      if it matches, the file is visited again under a path with the directory twice. */
  function PatternVisits(dir: string, name: string, patterns: seq<string>, matches: NameMatch): (paths: seq<string>)
    ensures |paths| <= |patterns|
    decreases |patterns|
  {
    if |patterns| == 0 then []
    else if matches(patterns[0], name) then [dir + "/" + name] + PatternVisits(dir, dir + "/" + name, patterns[1..], matches)
    else PatternVisits(dir, name, patterns[1..], matches)
  }

  /** A file is visited at least once exactly when some pattern matches its name, and its first
      visit is under its own path, as in the corrected `MatchFile`. */
  lemma {:induction false} PatternVisitsFirst(dir: string, name: string, patterns: seq<string>, matches: NameMatch)
    decreases |patterns|
    ensures |PatternVisits(dir, name, patterns, matches)| > 0 <==> AnyMatch(patterns, matches, name)
    ensures |PatternVisits(dir, name, patterns, matches)| > 0 ==> PatternVisits(dir, name, patterns, matches)[0] == dir + "/" + name
  {
    if |patterns| > 0 && !matches(patterns[0], name) {
      PatternVisitsFirst(dir, name, patterns[1..], matches);
      if AnyMatch(patterns, matches, name) {
        var k :| 0 <= k < |patterns| && matches(patterns[k], name);
        assert patterns[1..][k - 1] == patterns[k];
      }
      if AnyMatch(patterns[1..], matches, name) {
        var k :| 0 <= k < |patterns| - 1 && matches(patterns[1..][k], name);
        assert patterns[k + 1] == patterns[1..][k];
      }
    }
  }

  /** Two patterns that both match every path (`.*` twice) make the loop visit the file twice,
      the second time under `dir/dir/name`, which is not a file of the listing. */
  lemma PatternsRevisit(dir: string, name: string)
    ensures var everything: NameMatch := (p: string, s: string) => true;
      PatternVisits(dir, name, [".*", ".*"], everything) == [dir + "/" + name, dir + "/" + (dir + "/" + name)]
  {
    var everything: NameMatch := (p: string, s: string) => true;
    assert [".*", ".*"][1..] == [".*"];
    assert [".*", ".*"][1..][1..] == [];
  }
}
