/**
 * `stats` of fot-stat/fot-stat.py, the earlier version of the fot statistics: per cycle, each
 * rank's block and function coverage against the unions over the cycle's ranks, and its
 * average execution time. Its warning for a missing input names an undefined variable, so a
 * missing input ends the script with `NameError` (`Stats`); `StatsIntended` is the loop with
 * the warning working, which skips the input.
 */
module FotBlocks {
  import opened Wrappers
  import opened Dicts
  import opened CycleScan
  import opened FotRun

  /** A decoded test-case line: its `rank` as read (an integer), its blocks and functions, and
      its execution time in microseconds. */
  datatype Sample = Sample(rank: int, blocks: set<int>, funcs: set<string>, timeUs: int)

  /** `json.loads` and the key lookups on one line. */
  type Loads = string -> Result<Sample>

  function Decode(loads: Loads): Decoder<int> {
    (line: string) => (match loads(line) case Err(e) => Err(e) case Ok(t) => Ok(Record(t.rank, t.blocks, t.funcs, t.timeUs)))
  }

  /** One rank in a cycle's results: the sizes of its coverage sets, and the sum and number
      of its times, whose quotient is its average time. */
  datatype RankTimes = RankTimes(rank: int, blocks: nat, funcs: nat, timeSum: int, times: nat)

  /** One cycle's results: the sizes of the unions and its ranks in order. */
  datatype BlockStats = BlockStats(allBlocks: nat, allFuncs: nat, ranks: seq<RankTimes>)

  /** `reduce(lambda x, y: x + y, xs)` for a non-empty list, added from the left. */
  function Sum(xs: seq<int>): int
    decreases |xs|
  {
    if |xs| == 0 then 0 else Sum(xs[..|xs| - 1]) + xs[|xs| - 1]
  }

  function RankTimesOf(g: Group<int>): (rs: seq<RankTimes>)
    ensures |rs| == |g|
  {
    seq(|g|, i requires 0 <= i < |g| => RankTimes(g[i].0, |g[i].1.edges|, |g[i].1.funcs|, Sum(g[i].1.values), |g[i].1.values|))
  }

  /** The statistics of one cycle, in the script's order: the block ratios divide by the size
      of the block union, the function ratios by that of the function union
      (`ZeroDivisionError` when a rank exists but its union is empty), and the time averages
      `reduce` each rank's list, which raises `TypeError` on an empty one. */
  function BlockResult(g: Group<int>): (r: Result<BlockStats>)
    ensures r.Ok? ==> |r.value.ranks| == |g|
    ensures |g| > 0 && (|AllEdges(g)| == 0 || |AllFuncs(g)| == 0) ==> r == Err(ZeroDivisionError)
    ensures r.Err? && r.error == TypeError ==> exists i :: 0 <= i < |g| && |g[i].1.values| == 0
  {
    if |g| > 0 && |AllEdges(g)| == 0 then Err(ZeroDivisionError)
    else if |g| > 0 && |AllFuncs(g)| == 0 then Err(ZeroDivisionError)
    else if exists i :: 0 <= i < |g| && |g[i].1.values| == 0 then Err(TypeError)
    else Ok(BlockStats(|AllEdges(g)|, |AllFuncs(g)|, RankTimesOf(g)))
  }

  /** Every rank of a cycle built from records holds the times of exactly its records, and
      its coverage sets lie within the unions. */
  lemma RankEntries(recs: seq<Record<int>>)
    ensures var g := GroupOf(recs);
      forall i :: 0 <= i < |g| ==>
        0 < |g[i].1.values| && g[i].1.values == ValuesOf(recs, g[i].0) &&
        |g[i].1.edges| <= |AllEdges(g)| && |g[i].1.funcs| <= |AllFuncs(g)|
  {
    var g := GroupOf(recs);
    forall i | 0 <= i < |g|
      ensures 0 < |g[i].1.values| && g[i].1.values == ValuesOf(recs, g[i].0)
      ensures |g[i].1.edges| <= |AllEdges(g)| && |g[i].1.funcs| <= |AllFuncs(g)|
    {
      GroupOfEntries(recs, i);
      ShareBound(g, i);
    }
  }

  /** A cycle built from records raises only `ZeroDivisionError`, and exactly when it has
      records but its blocks or its functions are all empty. */
  lemma BlockRaises(recs: seq<Record<int>>)
    ensures var g := GroupOf(recs);
      var r := BlockResult(g);
      (r.Err? <==> |recs| > 0 && (|AllEdges(g)| == 0 || |AllFuncs(g)| == 0)) &&
      (r.Err? ==> r.error == ZeroDivisionError)
  {
    var g := GroupOf(recs);
    GroupOfTotal(recs);
    forall i | 0 <= i < |g| ensures 0 < |g[i].1.values| {
      GroupOfEntries(recs, i);
    }
    assert |recs| > 0 <==> |g| > 0 by {
      if |g| == 0 {
        assert Total(g) == 0;
      }
    }
  }

  /** In a cycle built from records, each rank's average is over the times of exactly its
      records, in file order, and its coverage sets lie within the unions. */
  lemma BlockTimes(recs: seq<Record<int>>)
    ensures var r := BlockResult(GroupOf(recs));
      r.Ok? ==>
        forall i :: 0 <= i < |r.value.ranks| ==>
          var s := r.value.ranks[i];
          s.times == |ValuesOf(recs, s.rank)| > 0 && s.timeSum == Sum(ValuesOf(recs, s.rank)) &&
          s.blocks <= r.value.allBlocks && s.funcs <= r.value.allFuncs
  {
    RankEntries(recs);
  }

  /** The statistics of one cycle as written: the two union loops, then the comprehensions. */
  method BlockStatsOf(g: Group<int>) returns (r: Result<BlockStats>)
    ensures r == BlockResult(g)
  {
    var allBlocks := UnionEdges(g);
    if |g| > 0 && |allBlocks| == 0 {
      return Err(ZeroDivisionError);
    }
    var allFuncs := UnionFuncs(g);
    if |g| > 0 && |allFuncs| == 0 {
      return Err(ZeroDivisionError);
    }
    if exists i :: 0 <= i < |g| && |g[i].1.values| == 0 {
      return Err(TypeError);
    }
    r := Ok(BlockStats(|allBlocks|, |allFuncs|, RankTimesOf(g)));
  }

  /** The loop over a file's cycles, in the order they were first opened. */
  method FileCycles(tally: seq<(string, Group<int>)>) returns (r: Result<seq<(string, BlockStats)>>)
    ensures r == CyclesOf(tally, BlockResult)
  {
    var done: seq<(string, BlockStats)> := [];
    for i := 0 to |tally|
      invariant CyclesOf(tally[..i], BlockResult) == Ok(done)
    {
      assert tally[..i + 1][..i] == tally[..i];
      var s := BlockStatsOf(tally[i].1);
      if s.Err? {
        CyclesHalted(tally, BlockResult, i + 1);
        return Err(s.error);
      }
      done := done + [(tally[i].0, s.value)];
    }
    assert tally[..|tally|] == tally;
    r := Ok(done);
  }

  /** `stats()` as written, past the output-directory checks: a shared basename exits, the
      warning for a missing file raises `NameError`, and every other file is scanned and its
      cycles' results written. */
  method Stats(paths: seq<string>, fs: Files, loads: Loads) returns (r: Run<BlockStats>)
    ensures r == StatsRun(paths, fs, Decode(loads), BlockResult, Some(NameError))
  {
    if SharesBasename(paths) {
      return Run([], Some(Exit));
    }
    var written: seq<(string, seq<(string, BlockStats)>)> := [];
    for i := 0 to |paths|
      invariant RunFiles(paths[..i], fs, Decode(loads), BlockResult, Some(NameError)) == Run(written, None)
    {
      assert paths[..i + 1][..i] == paths[..i];
      var p := paths[i];
      if !fs.isFile(p) {
        RunHalted(paths, i + 1, fs, Decode(loads), BlockResult, Some(NameError));
        return Run(written, Some(NameError));
      }
      var scanned := ScanFile(fs.read(p), Decode(loads));
      if scanned.Err? {
        RunHalted(paths, i + 1, fs, Decode(loads), BlockResult, Some(NameError));
        return Run(written, Some(scanned.error));
      }
      var cycles := FileCycles(scanned.value.tally);
      if cycles.Err? {
        RunHalted(paths, i + 1, fs, Decode(loads), BlockResult, Some(NameError));
        return Run(written, Some(cycles.error));
      }
      written := written + [(p, cycles.value)];
    }
    assert paths[..|paths|] == paths;
    r := Run(written, None);
  }

  /** As written, a missing input ends the script with `NameError`, keeping what the inputs
      before it wrote; the inputs after it are never read. */
  lemma MissingFileRaises(pre: seq<string>, p: string, post: seq<string>, fs: Files, loads: Loads)
    requires !SharesBasename(pre + [p] + post) && !fs.isFile(p)
    requires RunFiles(pre, fs, Decode(loads), BlockResult, Some(NameError)).halt.None?
    ensures var r := StatsRun(pre + [p] + post, fs, Decode(loads), BlockResult, Some(NameError));
      r == Run(RunFiles(pre, fs, Decode(loads), BlockResult, Some(NameError)).written, Some(NameError))
  {
    var paths := pre + [p] + post;
    assert paths[..|pre| + 1] == pre + [p];
    assert (pre + [p])[..|pre|] == pre;
    RunHalted(paths, |pre| + 1, fs, Decode(loads), BlockResult, Some(NameError));
  }

  /** The loop with a working warning: a missing input is skipped, so a run that ends
      without error wrote one result per existing input, in input order. */
  function StatsIntended(paths: seq<string>, fs: Files, loads: Loads): (r: Run<BlockStats>)
    ensures SharesBasename(paths) ==> r == Run([], Some(Exit))
    ensures !SharesBasename(paths) && r.halt.None? ==>
      Keys(r.written) == Existing(paths, fs) &&
      forall i :: 0 <= i < |r.written| ==> FileStats(fs.read(r.written[i].0), Decode(loads), BlockResult) == Ok(r.written[i].1)
  {
    RunFilesWritten(paths, fs, Decode(loads), BlockResult, None);
    StatsRun(paths, fs, Decode(loads), BlockResult, None)
  }

  /** As written, a run that ends without error had every input present. */
  lemma StatsComplete(paths: seq<string>, fs: Files, loads: Loads)
    ensures var r := StatsRun(paths, fs, Decode(loads), BlockResult, Some(NameError));
      r.halt.None? ==>
        (forall i :: 0 <= i < |paths| ==> fs.isFile(paths[i])) && Keys(r.written) == paths
  {
    RunFilesComplete(paths, fs, Decode(loads), BlockResult, Some(NameError));
    RunFilesWritten(paths, fs, Decode(loads), BlockResult, Some(NameError));
    if StatsRun(paths, fs, Decode(loads), BlockResult, Some(NameError)).halt.None? {
      ExistingAll(paths, fs);
    }
  }
}
