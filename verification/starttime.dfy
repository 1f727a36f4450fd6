/**
 * `sanitize_target` in its three forms: the stats-file probe of edge_coverage/single.py,
 * edge_coverage/worker.py and crash/main.py, the earliest-mtime fallback of
 * real_path_counter.py, and the key-presence check of edge_coverage/main.py. Besides
 * accepting or skipping a target, the first two overwrite the target's `start_time` with
 * the one read from the fuzzer's stats file.
 */
module Targets {
  import opened Wrappers
  import opened PyText

  /** The `start_time` key of a target: missing, `null`, or a number. */
  datatype StartSetting = Absent | Null | Given(value: int)

  /** The keys of a target that sanitizing looks at: `entry_dirs` and `need_execution` may be
      missing (`None`). */
  datatype Target = Target(entryDirs: Option<seq<string>>, start: StartSetting, needExecution: Option<bool>)

  /** What the probe can see of the disk: the lines of the file at a path, or `None` when there
      is no file there. */
  type FileSystem = string -> Option<seq<string>>

  /** The two places probed for each entry directory, in order. */
  const StatsLocations: seq<string> := ["/../fuzzer_stats", "/fuzzer_stats"]

  /** The stats file the probe settles on: the first entry directory that has one, its
      parent's file before its own. */
  function FirstStats(dirs: seq<string>, fs: FileSystem): Option<seq<string>> {
    if |dirs| == 0 then None
    else if fs(dirs[0] + StatsLocations[0]).Some? then fs(dirs[0] + StatsLocations[0])
    else if fs(dirs[0] + StatsLocations[1]).Some? then fs(dirs[0] + StatsLocations[1])
    else FirstStats(dirs[1..], fs)
  }

  /** `fs` has a file at the `j`-th location of the `i`-th directory. */
  predicate HasStats(dirs: seq<string>, fs: FileSystem, i: int, j: int)
    requires 0 <= i < |dirs| && 0 <= j < |StatsLocations|
  {
    fs(dirs[i] + StatsLocations[j]).Some?
  }

  /** The probe finds nothing exactly when no probed location holds a file, and what it finds
      is the file of some probed location. */
  lemma {:induction false} FirstStatsFinds(dirs: seq<string>, fs: FileSystem)
    ensures FirstStats(dirs, fs).None? <==>
      forall i, j :: 0 <= i < |dirs| && 0 <= j < |StatsLocations| ==> !HasStats(dirs, fs, i, j)
    ensures FirstStats(dirs, fs).Some? ==>
      exists i, j :: 0 <= i < |dirs| && 0 <= j < |StatsLocations| && fs(dirs[i] + StatsLocations[j]) == FirstStats(dirs, fs)
  {
    if |dirs| > 0 {
      FirstStatsFinds(dirs[1..], fs);
      if FirstStats(dirs, fs).None? {
        forall i, j | 0 <= i < |dirs| && 0 <= j < |StatsLocations| ensures !HasStats(dirs, fs, i, j) {
          if i > 0 {
            assert dirs[1..][i - 1] == dirs[i];
            assert !HasStats(dirs[1..], fs, i - 1, j);
          }
        }
      } else if fs(dirs[0] + StatsLocations[0]).None? && fs(dirs[0] + StatsLocations[1]).None? {
        var i, j :| 0 <= i < |dirs[1..]| && 0 <= j < |StatsLocations| && fs(dirs[1..][i] + StatsLocations[j]) == FirstStats(dirs[1..], fs);
        assert fs(dirs[i + 1] + StatsLocations[j]) == FirstStats(dirs, fs);
      } else if fs(dirs[0] + StatsLocations[0]).Some? {
        assert fs(dirs[0] + StatsLocations[0]) == FirstStats(dirs, fs);
      } else {
        assert fs(dirs[0] + StatsLocations[1]) == FirstStats(dirs, fs);
      }
      if forall i, j :: 0 <= i < |dirs| && 0 <= j < |StatsLocations| ==> !HasStats(dirs, fs, i, j) {
        assert !HasStats(dirs, fs, 0, 0) && !HasStats(dirs, fs, 0, 1);
        forall i, j | 0 <= i < |dirs[1..]| && 0 <= j < |StatsLocations| ensures !HasStats(dirs[1..], fs, i, j) {
          assert dirs[1..][i] == dirs[i + 1];
          assert !HasStats(dirs, fs, i + 1, j);
        }
      }
    }
  }

  /** The nested search over entry directories and the two locations, each loop left by
      `break` once a file is found. */
  method FindStatsFile(dirs: seq<string>, fs: FileSystem) returns (found: Option<seq<string>>)
    ensures found == FirstStats(dirs, fs)
  {
    found := None;
    var i := 0;
    while i < |dirs|
      invariant 0 <= i <= |dirs|
      invariant found.None? && FirstStats(dirs, fs) == FirstStats(dirs[i..], fs)
    {
      var j := 0;
      while j < |StatsLocations|
        invariant 0 <= j <= |StatsLocations|
        invariant found.None?
        invariant forall k :: 0 <= k < j ==> fs(dirs[i] + StatsLocations[k]).None?
      {
        if fs(dirs[i] + StatsLocations[j]).Some? {
          found := fs(dirs[i] + StatsLocations[j]);
          break;
        }
        j := j + 1;
      }
      assert dirs[i..][0] == dirs[i] && dirs[i..][1..] == dirs[i + 1..];
      if found.Some? {
        break;
      }
      i := i + 1;
    }
  }

  /** The start time in a stats file: `int(line.split()[2])` of the first line that mentions
      `start_time`, `None` when no line does. A short line raises `IndexError`, a bad number
      `ValueError`. */
  function StartFromStats(lines: seq<string>): Result<Option<int>> {
    if |lines| == 0 then Ok(None)
    else if Contains(lines[0], "start_time") then
      var tokens := Tokens(lines[0]);
      if |tokens| < 3 then Err(IndexError)
      else match ParseInt(tokens[2])
        case None => Err(ValueError)
        case Some(v) => Ok(Some(v))
    else StartFromStats(lines[1..])
  }

  /** No start time is read exactly when no line mentions `start_time`. */
  lemma {:induction false} StartFromStatsNone(lines: seq<string>)
    ensures StartFromStats(lines) == Ok(None) <==> forall i :: 0 <= i < |lines| ==> !Contains(lines[i], "start_time")
  {
    if |lines| > 0 && !Contains(lines[0], "start_time") {
      StartFromStatsNone(lines[1..]);
      assert forall i :: 0 < i < |lines| ==> lines[i] == lines[1..][i - 1];
    }
  }

  /** Otherwise the first line that mentions `start_time` alone decides; later lines are never
      read. */
  lemma {:induction false} StartFromStatsFirst(lines: seq<string>, k: int)
    requires 0 <= k < |lines| && Contains(lines[k], "start_time")
    requires forall i :: 0 <= i < k ==> !Contains(lines[i], "start_time")
    ensures StartFromStats(lines) == StartFromStats([lines[k]])
  {
    if k > 0 {
      assert lines[1..][k - 1] == lines[k];
      StartFromStatsFirst(lines[1..], k - 1);
    }
  }

  /** The `for line in statsfile.readlines()` loop that stops at the first matching line. */
  method ReadStartTime(lines: seq<string>) returns (r: Result<Option<int>>)
    ensures r == StartFromStats(lines)
  {
    r := Ok(None);
    var i := 0;
    while i < |lines|
      invariant 0 <= i <= |lines|
      invariant StartFromStats(lines) == StartFromStats(lines[i..])
    {
      assert lines[i..][0] == lines[i] && lines[i..][1..] == lines[i + 1..];
      if Contains(lines[i], "start_time") {
        var tokens := Tokens(lines[i]);
        if |tokens| < 3 {
          return Err(IndexError);
        }
        var v := ParseInt(tokens[2]);
        if v.None? {
          return Err(ValueError);
        }
        return Ok(Some(v.value));
      }
      i := i + 1;
    }
  }

  /** The three forms of `sanitize_target`. */
  datatype Variant =
    | StatsOrExplicit   // edge_coverage/single.py, edge_coverage/worker.py, crash/main.py
    | StatsOrEarliest   // real_path_counter.py: also needs `need_execution`
    | ExplicitOnly      // edge_coverage/main.py: needs `start_time`

  /** The outcome of `sanitize_target`: `Ok(None)` for `return False` (the target is skipped),
      `Ok(Some(s))` for `return True` with `s` the target's `start_time` afterwards, or the
      error raised while reading the stats file. */
  function Sanitize(t: Target, fs: FileSystem, variant: Variant): (r: Result<Option<StartSetting>>)
    ensures r.Ok? && r.value.Some? ==> t.entryDirs.Some? && |t.entryDirs.value| > 0 && r.value.value != Absent
    ensures r.Ok? && r.value.Some? && variant == StatsOrEarliest ==> t.needExecution.Some?
  {
    if t.entryDirs.None? then Ok(None)
    else if variant == StatsOrEarliest && t.needExecution.None? then Ok(None)
    else if variant == ExplicitOnly && t.start == Absent then Ok(None)
    else if |t.entryDirs.value| == 0 then Ok(None)
    else if variant == ExplicitOnly then Ok(Some(t.start))
    else match FirstStats(t.entryDirs.value, fs)
      case None =>
        if t.start != Absent then Ok(Some(t.start))
        else if variant == StatsOrEarliest then Ok(Some(Null))
        else Ok(None)
      case Some(lines) =>
        match StartFromStats(lines)
        case Err(e) => Err(e)
        case Ok(Some(v)) => Ok(Some(Given(v)))
        case Ok(None) => if t.start == Absent then Ok(None) else Ok(Some(t.start))
  }

  /** `sanitize_target` as the scripts run it: required keys, the non-empty directory list,
      the probe, then the stats file. */
  method SanitizeTarget(t: Target, fs: FileSystem, variant: Variant) returns (r: Result<Option<StartSetting>>)
    ensures r == Sanitize(t, fs, variant)
  {
    if t.entryDirs.None? || (variant == StatsOrEarliest && t.needExecution.None?) ||
       (variant == ExplicitOnly && t.start == Absent) || |t.entryDirs.value| == 0 {
      return Ok(None);
    }
    if variant == ExplicitOnly {
      return Ok(Some(t.start));
    }
    var stats := FindStatsFile(t.entryDirs.value, fs);
    if stats.None? {
      if t.start != Absent {
        return Ok(Some(t.start));
      } else if variant == StatsOrEarliest {
        return Ok(Some(Null));
      }
      return Ok(None);
    }
    var start := ReadStartTime(stats.value);
    match start
    case Err(e) => r := Err(e);
    case Ok(Some(v)) => r := Ok(Some(Given(v)));
    case Ok(None) => r := if t.start == Absent then Ok(None) else Ok(Some(t.start));
  }

  /** A target without entry directories is skipped by every form. */
  lemma SanitizeNeedsDirs(t: Target, fs: FileSystem, variant: Variant)
    requires t.entryDirs.None? || |t.entryDirs.value| == 0
    ensures Sanitize(t, fs, variant) == Ok(None)
  {
  }

  /** A start time read from the stats file overrides the configured one, whatever it was. */
  lemma StatsStartWins(t: Target, fs: FileSystem, variant: Variant, lines: seq<string>, v: int)
    requires variant != ExplicitOnly && t.entryDirs.Some? && |t.entryDirs.value| > 0
    requires variant == StatsOrEarliest ==> t.needExecution.Some?
    requires FirstStats(t.entryDirs.value, fs) == Some(lines) && StartFromStats(lines) == Ok(Some(v))
    ensures Sanitize(t, fs, variant) == Ok(Some(Given(v)))
  {
  }

  /** A configured start time survives when the stats file is missing or has no
      `start_time` line; without one, the stats-based form skips the target and the
      fallback form leaves `start_time` null. */
  lemma ConfiguredStartSurvives(t: Target, fs: FileSystem, variant: Variant)
    requires variant != ExplicitOnly && t.entryDirs.Some? && |t.entryDirs.value| > 0
    requires variant == StatsOrEarliest ==> t.needExecution.Some?
    requires FirstStats(t.entryDirs.value, fs).None? ||
      StartFromStats(FirstStats(t.entryDirs.value, fs).value) == Ok(None)
    ensures t.start != Absent ==> Sanitize(t, fs, variant) == Ok(Some(t.start))
    ensures t.start == Absent && FirstStats(t.entryDirs.value, fs).None? ==>
      Sanitize(t, fs, variant) == if variant == StatsOrEarliest then Ok(Some(Null)) else Ok(None)
    ensures t.start == Absent && FirstStats(t.entryDirs.value, fs).Some? ==> Sanitize(t, fs, variant) == Ok(None)
  {
  }

  /** The form of edge_coverage/main.py accepts exactly the targets with a non-empty
      `entry_dirs` and some `start_time`, and never raises. */
  lemma ExplicitOnlyAccepts(t: Target, fs: FileSystem)
    ensures Sanitize(t, fs, ExplicitOnly).Ok?
    ensures Sanitize(t, fs, ExplicitOnly).value.Some? <==>
      t.entryDirs.Some? && |t.entryDirs.value| > 0 && t.start != Absent
  {
  }
}
