/**
 * `stats` of fot_stat/fot_stat.py: every log file is grouped into cycles and ranks, and for
 * every cycle the script reports each rank's edge and function coverage against the union
 * over the cycle's ranks, the six per-record values, the number of records of each rank
 * (`rank_nums`) and their sum (`count`).
 */
module FotStat {
  import opened Wrappers
  import opened Dicts
  import opened CycleScan
  import opened FotRun

  /** A decoded test-case line, its `rank` already passed through `int()`. */
  datatype Testcase = Testcase(rank: int, edges: set<int>, funcs: set<string>, time: int, fileLen: int,
                               bonus: int, score: int)

  /** `single_value_dict`: the six simple values of one record. */
  datatype Values = Values(time: int, fileLen: int, bonus: int, score: int, edgeNum: nat, funcNum: nat)

  /** `json.loads`, `int(...)` of the rank and the key lookups on one line. */
  type Loads = string -> Result<Testcase>

  /** The record a test case contributes; `edge_num` and `func_num` are the sizes of its own
      sets. */
  function RecordOf(t: Testcase): Record<Values> {
    Record(t.rank, t.edges, t.funcs, Values(t.time, t.fileLen, t.bonus, t.score, |t.edges|, |t.funcs|))
  }

  function Decode(loads: Loads): Decoder<Values> {
    (line: string) => (match loads(line) case Err(e) => Err(e) case Ok(t) => Ok(RecordOf(t)))
  }

  /** The six values added componentwise. */
  function Plus(a: Values, b: Values): Values {
    Values(a.time + b.time, a.fileLen + b.fileLen, a.bonus + b.bonus, a.score + b.score,
           a.edgeNum + b.edgeNum, a.funcNum + b.funcNum)
  }

  /** `sum_of_list` applied to each of the six value lists of a rank, added from the left as
      `reduce` does; the lists of a rank are never empty, so `reduce` never meets an empty
      one. */
  function SumValues(vs: seq<Values>): Values
    decreases |vs|
  {
    if |vs| == 0 then Values(0, 0, 0, 0, 0, 0) else Plus(SumValues(vs[..|vs| - 1]), vs[|vs| - 1])
  }

  /** Summing two runs of records separately and adding the results gives the sum of the
      whole run: the sums do not depend on how the records are split. */
  lemma {:induction false} SumValuesAppend(a: seq<Values>, b: seq<Values>)
    ensures SumValues(a + b) == Plus(SumValues(a), SumValues(b))
    decreases |b|
  {
    if |b| > 0 {
      var b' := b[..|b| - 1];
      assert (a + b)[..|a + b| - 1] == a + b';
      SumValuesAppend(a, b');
    } else {
      assert a + b == a;
    }
  }

  /** One rank in a cycle's results: the sizes of its coverage sets (the numerators of its
      ratios), the sums of its six value lists (the numerators of its averages) and
      `rank_nums[rank]` (their denominator). */
  datatype RankStat = RankStat(rank: int, edges: nat, funcs: nat, sums: Values, records: nat)

  /** One cycle's results: the sizes of the unions (the ratios' denominators), its ranks in
      order, and `rank_nums['count']`. */
  datatype CycleStats = CycleStats(allEdges: nat, allFuncs: nat, ranks: seq<RankStat>, count: nat)

  function RankStats(g: Group<Values>): (rs: seq<RankStat>)
    ensures |rs| == |g|
    ensures forall i :: 0 <= i < |g| ==>
      rs[i] == RankStat(g[i].0, |g[i].1.edges|, |g[i].1.funcs|, SumValues(g[i].1.values), |g[i].1.values|)
  {
    seq(|g|, i requires 0 <= i < |g| =>
      RankStat(g[i].0, |g[i].1.edges|, |g[i].1.funcs|, SumValues(g[i].1.values), |g[i].1.values|))
  }

  /** The sum of the record counts, added from the left as `reduce` does. */
  function RecordSum(rs: seq<RankStat>): nat
    decreases |rs|
  {
    if |rs| == 0 then 0 else RecordSum(rs[..|rs| - 1]) + rs[|rs| - 1].records
  }

  /** The statistics of one cycle, in the script's order: the edge ratios divide by the size
      of the edge union (`ZeroDivisionError` when a rank exists but no edge), the function
      ratios likewise, and `count` is `sum_of_list` of the record counts, whose `reduce`
      raises `TypeError` on a cycle without records. */
  function CycleResult(g: Group<Values>): (r: Result<CycleStats>)
    ensures r.Err? <==> |AllEdges(g)| == 0 || |AllFuncs(g)| == 0
    ensures r.Err? ==> r.error == if |g| == 0 then TypeError else ZeroDivisionError
  {
    if |g| > 0 && |AllEdges(g)| == 0 then Err(ZeroDivisionError)
    else if |g| > 0 && |AllFuncs(g)| == 0 then Err(ZeroDivisionError)
    else if |g| == 0 then Err(TypeError)
    else Ok(CycleStats(|AllEdges(g)|, |AllFuncs(g)|, RankStats(g), RecordSum(RankStats(g))))
  }

  lemma {:induction false} TotalSnoc<V>(g: Group<V>)
    requires |g| > 0
    ensures Total(g) == Total(g[..|g| - 1]) + |g[|g| - 1].1.values|
    decreases |g|
  {
    if |g| > 1 {
      TotalSnoc(g[1..]);
      assert g[1..][..|g[1..]| - 1] == g[..|g| - 1][1..];
    }
  }

  /** `count` is the number of values the cycle holds. */
  lemma {:induction false} RecordSumTotal(g: Group<Values>)
    ensures RecordSum(RankStats(g)) == Total(g)
    decreases |g|
  {
    if |g| > 0 {
      var front := g[..|g| - 1];
      RecordSumTotal(front);
      assert RankStats(g)[..|g| - 1] == RankStats(front);
      TotalSnoc(g);
    }
  }

  /** Reference definition: the six values of the records of rank `k` added one record at a
      time, a record of another rank adding nothing. */
  function RankSumOf(recs: seq<Record<Values>>, k: int): Values
    decreases |recs|
  {
    if |recs| == 0 then Values(0, 0, 0, 0, 0, 0)
    else
      var last := recs[|recs| - 1];
      Plus(RankSumOf(recs[..|recs| - 1], k), if last.rank == k then last.value else Values(0, 0, 0, 0, 0, 0))
  }

  /** The sums `sum_of_list` takes over a rank's lists are the sums of that rank's records. */
  lemma {:induction false} SumOfRankValues(recs: seq<Record<Values>>, k: int)
    ensures SumValues(ValuesOf(recs, k)) == RankSumOf(recs, k)
    decreases |recs|
  {
    if |recs| > 0 {
      var front, last := recs[..|recs| - 1], recs[|recs| - 1];
      SumOfRankValues(front, k);
      if last.rank == k {
        assert ValuesOf(recs, k) == ValuesOf(front, k) + [last.value];
      } else {
        assert ValuesOf(recs, k) == ValuesOf(front, k);
      }
    }
  }

  /** The results of a cycle built from its records: `rank_nums` gives, per rank, how many
      records had that rank, the per-rank sums are the sums of those records' six values,
      `count` is the number of records, each coverage set lies within its union, and the
      cycle raises `TypeError` exactly when it has no records. */
  lemma CycleCounts(recs: seq<Record<Values>>)
    ensures CycleResult(GroupOf(recs)) == Err(TypeError) <==> |recs| == 0
    ensures var r := CycleResult(GroupOf(recs));
      r.Ok? ==>
        r.value.count == |recs| &&
        forall i :: 0 <= i < |r.value.ranks| ==>
          var s := r.value.ranks[i];
          s.records == |ValuesOf(recs, s.rank)| && s.sums == RankSumOf(recs, s.rank) &&
          s.edges <= r.value.allEdges && s.funcs <= r.value.allFuncs
  {
    var g := GroupOf(recs);
    GroupOfTotal(recs);
    RecordSumTotal(g);
    forall i | 0 <= i < |g|
      ensures g[i].1.values == ValuesOf(recs, g[i].0) && SumValues(g[i].1.values) == RankSumOf(recs, g[i].0)
      ensures |g[i].1.edges| <= |AllEdges(g)| && |g[i].1.funcs| <= |AllFuncs(g)|
    {
      GroupOfEntries(recs, i);
      ShareBound(g, i);
      SumOfRankValues(recs, g[i].0);
    }
  }

  /** The statistics of one cycle as written: the two union loops, then the `rank_nums`
      comprehension and the `reduce` over it. */
  method CycleStatsOf(g: Group<Values>) returns (r: Result<CycleStats>)
    ensures r == CycleResult(g)
  {
    var allEdges := UnionEdges(g);
    if |g| > 0 && |allEdges| == 0 {
      return Err(ZeroDivisionError);
    }
    var allFuncs := UnionFuncs(g);
    if |g| > 0 && |allFuncs| == 0 {
      return Err(ZeroDivisionError);
    }
    if |g| == 0 {
      return Err(TypeError);
    }
    var ranks := RankStats(g);
    var count := RecordSum(ranks);
    r := Ok(CycleStats(|allEdges|, |allFuncs|, ranks, count));
  }

  /** The loop over a file's cycles, in the order they were first opened. */
  method FileCycles(tally: seq<(string, Group<Values>)>) returns (r: Result<seq<(string, CycleStats)>>)
    ensures r == CyclesOf(tally, CycleResult)
  {
    var done: seq<(string, CycleStats)> := [];
    for i := 0 to |tally|
      invariant CyclesOf(tally[..i], CycleResult) == Ok(done)
    {
      assert tally[..i + 1][..i] == tally[..i];
      var s := CycleStatsOf(tally[i].1);
      if s.Err? {
        CyclesHalted(tally, CycleResult, i + 1);
        return Err(s.error);
      }
      done := done + [(tally[i].0, s.value)];
    }
    assert tally[..|tally|] == tally;
    r := Ok(done);
  }

  /** `stats()` as written, past the output-directory checks: a shared basename exits, a
      missing file is skipped with a warning, and every other file is scanned and its cycles'
      results written. */
  method Stats(paths: seq<string>, fs: Files, loads: Loads) returns (r: Run<CycleStats>)
    ensures r == StatsRun(paths, fs, Decode(loads), CycleResult, None)
  {
    if SharesBasename(paths) {
      return Run([], Some(Exit));
    }
    var written: seq<(string, seq<(string, CycleStats)>)> := [];
    for i := 0 to |paths|
      invariant RunFiles(paths[..i], fs, Decode(loads), CycleResult, None) == Run(written, None)
    {
      assert paths[..i + 1][..i] == paths[..i];
      var p := paths[i];
      if fs.isFile(p) {
        var scanned := ScanFile(fs.read(p), Decode(loads));
        if scanned.Err? {
          RunHalted(paths, i + 1, fs, Decode(loads), CycleResult, None);
          return Run(written, Some(scanned.error));
        }
        var cycles := FileCycles(scanned.value.tally);
        if cycles.Err? {
          RunHalted(paths, i + 1, fs, Decode(loads), CycleResult, None);
          return Run(written, Some(cycles.error));
        }
        written := written + [(p, cycles.value)];
      }
    }
    assert paths[..|paths|] == paths;
    r := Run(written, None);
  }

  /** The script's outcome: inputs sharing a basename are rejected before any file is read;
      otherwise a run that ends without error wrote, for every existing input in order, the
      results of its cycles. */
  lemma StatsOutcome(paths: seq<string>, fs: Files, loads: Loads)
    ensures var r := StatsRun(paths, fs, Decode(loads), CycleResult, None);
      (SharesBasename(paths) ==> r == Run([], Some(Exit))) &&
      (!SharesBasename(paths) && r.halt.None? ==>
        Keys(r.written) == Existing(paths, fs) &&
        forall i :: 0 <= i < |r.written| ==> FileStats(fs.read(r.written[i].0), Decode(loads), CycleResult) == Ok(r.written[i].1))
  {
    RunFilesWritten(paths, fs, Decode(loads), CycleResult, None);
  }
}
