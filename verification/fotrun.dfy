/**
 * The file loop both fot statistics scripts share: every input file is scanned into its
 * cycles, each cycle's statistics are computed in cycle order, and the result is written
 * per file. The scripts differ in the per-cycle statistics and in what a missing input
 * does, so both are parameters here.
 */
module FotRun {
  import opened Wrappers
  import opened Dicts
  import opened CycleScan

  /** The statistics of every cycle of a file, in cycle order; the first cycle whose
      statistics raise ends the script. */
  function CyclesOf<V, S>(tally: seq<(string, Group<V>)>, stat: Group<V> -> Result<S>): (r: Result<seq<(string, S)>>)
    ensures r.Ok? ==>
      Keys(r.value) == Keys(tally) && forall i :: 0 <= i < |tally| ==> stat(tally[i].1) == Ok(r.value[i].1)
    ensures r.Err? ==>
      exists i :: 0 <= i < |tally| && stat(tally[i].1) == Err(r.error) && forall j :: 0 <= j < i ==> stat(tally[j].1).Ok?
    decreases |tally|
  {
    if |tally| == 0 then Ok([])
    else
      var front := tally[..|tally| - 1];
      var (k, g) := tally[|tally| - 1];
      match CyclesOf(front, stat)
      case Err(e) =>
        assert forall i :: 0 <= i < |front| ==> front[i] == tally[i];
        Err(e)
      case Ok(done) =>
        match stat(g)
        case Err(e) =>
          assert forall j :: 0 <= j < |front| ==> front[j] == tally[j] && stat(tally[j].1) == Ok(done[j].1);
          Err(e)
        case Ok(s) =>
          assert Keys(done + [(k, s)]) == Keys(front) + [k];
          assert Keys(tally) == Keys(front) + [k];
          Ok(done + [(k, s)])
  }

  /** A file completes when every cycle's statistics succeed. */
  lemma {:induction false} CyclesOfOk<V, S>(tally: seq<(string, Group<V>)>, stat: Group<V> -> Result<S>)
    ensures CyclesOf(tally, stat).Ok? <==> forall i :: 0 <= i < |tally| ==> stat(tally[i].1).Ok?
    decreases |tally|
  {
    if |tally| > 0 {
      var front := tally[..|tally| - 1];
      CyclesOfOk(front, stat);
      assert forall i :: 0 <= i < |front| ==> front[i] == tally[i];
    }
  }

  /** Once a cycle raises, the loop over the cycles stays stopped with that error. */
  lemma {:induction false} CyclesHalted<V, S>(tally: seq<(string, Group<V>)>, stat: Group<V> -> Result<S>, n: nat)
    requires n <= |tally| && CyclesOf(tally[..n], stat).Err?
    ensures CyclesOf(tally, stat) == CyclesOf(tally[..n], stat)
    decreases |tally|
  {
    if n < |tally| {
      assert tally[..|tally| - 1][..n] == tally[..n];
      CyclesHalted(tally[..|tally| - 1], stat, n);
    } else {
      assert tally[..n] == tally;
    }
  }

  /** What scanning one file and computing its statistics yields. */
  function FileStats<V, S>(lines: seq<string>, decode: Decoder<V>, stat: Group<V> -> Result<S>): Result<seq<(string, S)>> {
    match ScanLines(lines, decode)
    case Err(e) => Err(e)
    case Ok(st) => CyclesOf(st.tally, stat)
  }

  /** The file system as the scripts see it: `os.path.isfile` and `f.readlines()`. */
  datatype Files = Files(isFile: string -> bool, read: string -> seq<string>)

  /** The result files written, one per input file that completed, and the error that ended
      the script, if any. */
  datatype Run<S> = Run(written: seq<(string, seq<(string, S)>)>, halt: Option<PyError>)

  /** The loop over the input paths. A missing file either is skipped (`missing` is `None`)
      or raises `missing`. */
  function RunFiles<V, S>(paths: seq<string>, fs: Files, decode: Decoder<V>, stat: Group<V> -> Result<S>,
                          missing: Option<PyError>): Run<S>
    decreases |paths|
  {
    if |paths| == 0 then Run([], None)
    else
      var r := RunFiles(paths[..|paths| - 1], fs, decode, stat, missing);
      var p := paths[|paths| - 1];
      if r.halt.Some? then r
      else if !fs.isFile(p) then Run(r.written, missing)
      else
        match FileStats(fs.read(p), decode, stat)
        case Err(e) => Run(r.written, Some(e))
        case Ok(cs) => Run(r.written + [(p, cs)], None)
  }

  /** Once a file raises, the loop over the inputs stays stopped with that error. */
  lemma {:induction false} RunHalted<V, S>(paths: seq<string>, n: nat, fs: Files, decode: Decoder<V>,
                                           stat: Group<V> -> Result<S>, missing: Option<PyError>)
    requires n <= |paths| && RunFiles(paths[..n], fs, decode, stat, missing).halt.Some?
    ensures RunFiles(paths, fs, decode, stat, missing) == RunFiles(paths[..n], fs, decode, stat, missing)
    decreases |paths|
  {
    if n < |paths| {
      assert paths[..|paths| - 1][..n] == paths[..n];
      RunHalted(paths[..|paths| - 1], n, fs, decode, stat, missing);
    } else {
      assert paths[..n] == paths;
    }
  }

  /** The input paths that name existing files, in order. */
  function Existing(paths: seq<string>, fs: Files): (r: seq<string>)
    ensures forall i :: 0 <= i < |r| ==> r[i] in paths && fs.isFile(r[i])
    decreases |paths|
  {
    if |paths| == 0 then []
    else
      var front := Existing(paths[..|paths| - 1], fs);
      assert forall i :: 0 <= i < |front| ==> front[i] in paths[..|paths| - 1] && paths[..|paths| - 1] <= paths;
      front + if fs.isFile(paths[|paths| - 1]) then [paths[|paths| - 1]] else []
  }

  /** When every input exists, all of them remain. */
  lemma {:induction false} ExistingAll(paths: seq<string>, fs: Files)
    requires forall i :: 0 <= i < |paths| ==> fs.isFile(paths[i])
    ensures Existing(paths, fs) == paths
    decreases |paths|
  {
    if |paths| > 0 {
      ExistingAll(paths[..|paths| - 1], fs);
      assert paths[..|paths| - 1] + [paths[|paths| - 1]] == paths;
    }
  }

  /** A run that ends without error wrote one result per existing input, in input order,
      each the statistics of that file. */
  lemma {:induction false} RunFilesWritten<V, S>(paths: seq<string>, fs: Files, decode: Decoder<V>,
                                                 stat: Group<V> -> Result<S>, missing: Option<PyError>)
    ensures var r := RunFiles(paths, fs, decode, stat, missing);
      r.halt.None? ==>
        Keys(r.written) == Existing(paths, fs) &&
        forall i :: 0 <= i < |r.written| ==> FileStats(fs.read(r.written[i].0), decode, stat) == Ok(r.written[i].1)
    decreases |paths|
  {
    if |paths| > 0 {
      var front := paths[..|paths| - 1];
      var p := paths[|paths| - 1];
      RunFilesWritten(front, fs, decode, stat, missing);
      var r0 := RunFiles(front, fs, decode, stat, missing);
      var r := RunFiles(paths, fs, decode, stat, missing);
      if r.halt.None? {
        assert r0.halt.None?;
        if fs.isFile(p) {
          var cs := FileStats(fs.read(p), decode, stat).value;
          assert r.written == r0.written + [(p, cs)];
          assert Keys(r.written) == Keys(r0.written) + [p];
          assert Existing(paths, fs) == Existing(front, fs) + [p];
        } else {
          assert r.written == r0.written;
          assert Existing(paths, fs) == Existing(front, fs) + [];
        }
      }
    }
  }

  /** A run that may not skip missing inputs ends without error only when every input
      exists. */
  lemma {:induction false} RunFilesComplete<V, S>(paths: seq<string>, fs: Files, decode: Decoder<V>,
                                                  stat: Group<V> -> Result<S>, missing: Option<PyError>)
    requires missing.Some?
    ensures RunFiles(paths, fs, decode, stat, missing).halt.None? ==> forall i :: 0 <= i < |paths| ==> fs.isFile(paths[i])
    decreases |paths|
  {
    if |paths| > 0 {
      var front := paths[..|paths| - 1];
      var p := paths[|paths| - 1];
      RunFilesComplete(front, fs, decode, stat, missing);
      var r0 := RunFiles(front, fs, decode, stat, missing);
      if RunFiles(paths, fs, decode, stat, missing).halt.None? {
        assert r0.halt.None? && fs.isFile(p);
        forall i | 0 <= i < |paths|
          ensures fs.isFile(paths[i])
        {
          if i < |front| {
            assert paths[i] == front[i];
          }
        }
      }
    }
  }

  /** `stats()` past the output-directory checks: inputs that share a basename exit before
      any file is read. */
  function StatsRun<V, S>(paths: seq<string>, fs: Files, decode: Decoder<V>, stat: Group<V> -> Result<S>,
                          missing: Option<PyError>): Run<S> {
    if SharesBasename(paths) then Run([], Some(Exit)) else RunFiles(paths, fs, decode, stat, missing)
  }
}
