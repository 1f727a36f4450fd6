/**
 * a12_calculator.py: the Vargha-Delaney A12 statistic between two first-find reports (the
 * output of patch_reporter.py). For each key, the bins of its first finds are padded with
 * `max_val` up to `max_pop` runs and sorted, and the pairs of the two populations are
 * counted: a pair where the first value is smaller counts 1, a tie counts one half. Halves
 * are avoided here by counting twice over: 2 for a smaller first value, 1 for a tie.
 */
module A12 {
  import opened Wrappers
  import opened Sorting

  /** The defaults of `--max-pop` and `--max-val`. */
  const DefaultMaxPop: nat := 8
  const DefaultMaxVal: int := 14400

  /** A report key with its `ff_times` list of `(file, bin)` pairs. */
  datatype ReportEntry = ReportEntry(key: string, ffTimes: seq<(string, int)>)

  /** A decoded report, in the order of its keys. */
  type Report = seq<ReportEntry>

  /** `[x[1] for x in report[key]["ff_times"]]`. */
  function Bins(ff: seq<(string, int)>): (bs: seq<int>)
    ensures |bs| == |ff| && forall i :: 0 <= i < |ff| ==> bs[i] == ff[i].1
  {
    seq(|ff|, i requires 0 <= i < |ff| => ff[i].1)
  }

  /** `[v] * n`. */
  function Repeat(v: int, n: nat): (r: seq<int>)
    ensures |r| == n && forall i :: 0 <= i < n ==> r[i] == v
  {
    seq(n, i => v)
  }

  /** `sanitize_ff_times`: more runs than `max_pop` make it call `exit(1)`; otherwise the
      population is padded with `max_val` to exactly `max_pop` runs and sorted. */
  function SanitizeTimes(maxPop: nat, maxVal: int, xs: seq<int>): (r: Result<seq<int>>)
    ensures r.Err? <==> |xs| > maxPop
    ensures r.Err? ==> r.error == Exit
    ensures r.Ok? ==> |r.value| == maxPop && SortedBy(r.value, (x: int) => x)
    ensures r.Ok? ==> multiset(r.value) == multiset(xs) + multiset(Repeat(maxVal, maxPop - |xs|))
  {
    if |xs| > maxPop then Err(Exit) else Ok(SortBy(xs + Repeat(maxVal, maxPop - |xs|), (x: int) => x))
  }

  /** `sanitize_ff_times` as written: the padding loop, then the sort. */
  method SanitizeFfTimes(maxPop: nat, maxVal: int, ffTimes: seq<int>) returns (r: Result<seq<int>>)
    ensures r == SanitizeTimes(maxPop, maxVal, ffTimes)
  {
    if |ffTimes| > maxPop {
      return Err(Exit);
    }
    var xs := ffTimes;
    while |xs| < maxPop
      invariant |ffTimes| <= |xs| <= maxPop
      invariant xs == ffTimes + Repeat(maxVal, |xs| - |ffTimes|)
      decreases maxPop - |xs|
    {
      xs := xs + [maxVal];
    }
    r := Ok(SortBy(xs, (x: int) => x));
  }

  /** Twice what one pair adds to `numerator`: 2 when the first value is smaller, 1 for a tie. */
  function PairScore(a: int, b: int): int {
    if a < b then 2 else if a == b then 1 else 0
  }

  /** Twice what one first value adds, over every second value. */
  function RowScore(a: int, ys: seq<int>): int {
    if |ys| == 0 then 0 else RowScore(a, ys[..|ys| - 1]) + PairScore(a, ys[|ys| - 1])
  }

  /** Twice `numerator` after the nested loops. */
  function Score(xs: seq<int>, ys: seq<int>): int {
    if |xs| == 0 then 0 else Score(xs[..|xs| - 1], ys) + RowScore(xs[|xs| - 1], ys)
  }

  /** Twice the count of the commented-out check: 2 when the first value is larger, 1 for a tie. */
  function ReverseScore(xs: seq<int>, ys: seq<int>): int {
    if |xs| == 0 then 0 else ReverseScore(xs[..|xs| - 1], ys) + RowReverse(xs[|xs| - 1], ys)
  }

  function RowReverse(a: int, ys: seq<int>): int {
    if |ys| == 0 then 0 else RowReverse(a, ys[..|ys| - 1]) + PairScore(ys[|ys| - 1], a)
  }

  /** A row scores between 0 and twice its length, and with the reverse row exactly twice its
      length. */
  lemma {:induction false} RowBounds(a: int, ys: seq<int>)
    ensures 0 <= RowScore(a, ys) <= 2 * |ys|
    ensures RowScore(a, ys) + RowReverse(a, ys) == 2 * |ys|
  {
    if |ys| > 0 {
      RowBounds(a, ys[..|ys| - 1]);
    }
  }

  /** `0 <= numerator <= max_pop * max_pop`, and the reverse count is the rest of the pairs,
      which is what `a21 = 1 - a12` relies on. */
  lemma {:induction false} ScoreBounds(xs: seq<int>, ys: seq<int>)
    ensures 0 <= Score(xs, ys) <= 2 * |xs| * |ys|
    ensures Score(xs, ys) + ReverseScore(xs, ys) == 2 * |xs| * |ys|
  {
    if |xs| > 0 {
      ScoreBounds(xs[..|xs| - 1], ys);
      RowBounds(xs[|xs| - 1], ys);
      assert 2 * |xs| * |ys| == 2 * (|xs| - 1) * |ys| + 2 * |ys|;
    }
  }

  /** Every first value below every second value gives the largest count, `a12 = 1`. */
  lemma {:induction false} ScoreAllSmaller(xs: seq<int>, ys: seq<int>)
    requires forall i, j :: 0 <= i < |xs| && 0 <= j < |ys| ==> xs[i] < ys[j]
    ensures Score(xs, ys) == 2 * |xs| * |ys|
  {
    if |xs| > 0 {
      ScoreAllSmaller(xs[..|xs| - 1], ys);
      RowAllSmaller(xs[|xs| - 1], ys);
      assert 2 * |xs| * |ys| == 2 * (|xs| - 1) * |ys| + 2 * |ys|;
    }
  }

  lemma {:induction false} RowAllSmaller(a: int, ys: seq<int>)
    requires forall j :: 0 <= j < |ys| ==> a < ys[j]
    ensures RowScore(a, ys) == 2 * |ys|
  {
    if |ys| > 0 {
      RowAllSmaller(a, ys[..|ys| - 1]);
    }
  }

  /** Two populations that are the same value throughout tie on every pair, `a12 = 0.5`. */
  lemma {:induction false} ScoreAllTied(v: int, n: nat, m: nat)
    ensures Score(Repeat(v, n), Repeat(v, m)) == n * m
  {
    if n > 0 {
      assert Repeat(v, n)[..n - 1] == Repeat(v, n - 1);
      ScoreAllTied(v, n - 1, m);
      RowTied(v, m);
      assert n * m == (n - 1) * m + m;
    }
  }

  lemma {:induction false} RowTied(v: int, m: nat)
    ensures RowScore(v, Repeat(v, m)) == m
  {
    if m > 0 {
      assert Repeat(v, m)[..m - 1] == Repeat(v, m - 1);
      RowTied(v, m - 1);
    }
  }

  /** The nested loops as written, with the count doubled. */
  method Numerator(xs: seq<int>, ys: seq<int>) returns (twice: int)
    ensures twice == Score(xs, ys)
  {
    twice := 0;
    for i := 0 to |xs|
      invariant twice == Score(xs[..i], ys)
    {
      assert xs[..i + 1][..i] == xs[..i];
      var row := 0;
      for j := 0 to |ys|
        invariant row == RowScore(xs[i], ys[..j])
      {
        assert ys[..j + 1][..j] == ys[..j];
        if xs[i] < ys[j] {
          row := row + 2;
        } else if xs[i] == ys[j] {
          row := row + 1;
        }
      }
      assert ys[..|ys|] == ys;
      twice := twice + row;
    }
    assert xs[..|xs|] == xs;
  }

  /** The entry of `key` in a report, if any. */
  function Lookup(r: Report, key: string): (e: Option<seq<(string, int)>>)
    ensures e.None? <==> forall i :: 0 <= i < |r| ==> r[i].key != key
  {
    if |r| == 0 then None
    else if r[0].key == key then Some(r[0].ffTimes)
    else Lookup(r[1..], key)
  }

  /** What one comparison logs: the key and twice its `numerator`. */
  datatype Comparison = Comparison(key: string, twice: int)

  /** The populations one key compares: its own, and the other report's or, when the other
      report lacks the key, `max_pop` copies of `max_val`. */
  function Populations(key: string, times: seq<(string, int)>, other: Report, maxPop: nat, maxVal: int): (r: Result<(seq<int>, seq<int>)>)
    ensures r.Ok? ==> |r.value.0| == maxPop && |r.value.1| == maxPop
    ensures r.Ok? ==>
      SanitizeTimes(maxPop, maxVal, Bins(times)).Ok? &&
      r.value.0 == SanitizeTimes(maxPop, maxVal, Bins(times)).value
    ensures r.Ok? && Lookup(other, key).None? ==> r.value.1 == Repeat(maxVal, maxPop)
    ensures r.Ok? && Lookup(other, key).Some? ==>
      SanitizeTimes(maxPop, maxVal, Bins(Lookup(other, key).value)).Ok? &&
      r.value.1 == SanitizeTimes(maxPop, maxVal, Bins(Lookup(other, key).value)).value
    ensures r.Err? <==> |times| > maxPop || (Lookup(other, key).Some? && |Lookup(other, key).value| > maxPop)
    ensures r.Err? ==> r.error == Exit
  {
    match SanitizeTimes(maxPop, maxVal, Bins(times))
    case Err(e) => Err(e)
    case Ok(first) =>
      match Lookup(other, key)
      case None => Ok((first, Repeat(maxVal, maxPop)))
      case Some(ff) =>
        match SanitizeTimes(maxPop, maxVal, Bins(ff))
        case Err(e) => Err(e)
        case Ok(second) => Ok((first, second))
  }

  /** The state of `calculate_statistics`: `compared_keys` and the comparisons logged so far. */
  datatype Stats = Stats(compared: seq<string>, logged: seq<Comparison>)

  /** `calculate_statistics` over the first `|r1|` keys of the first report: a key compared
      before is skipped, a new one is appended to `compared_keys` and compared; an `exit(1)`
      ends the script. */
  function CalculateStatistics(r1: Report, r2: Report, compared: seq<string>, maxPop: nat, maxVal: int): Result<Stats> {
    if |r1| == 0 then Ok(Stats(compared, []))
    else
      match CalculateStatistics(r1[..|r1| - 1], r2, compared, maxPop, maxVal)
      case Err(e) => Err(e)
      case Ok(s) =>
        var e := r1[|r1| - 1];
        if e.key in s.compared then Ok(s)
        else
          match Populations(e.key, e.ffTimes, r2, maxPop, maxVal)
          case Err(err) => Err(err)
          case Ok(pops) => Ok(Stats(s.compared + [e.key], s.logged + [Comparison(e.key, Score(pops.0, pops.1))]))
  }

  /** Keys compared before are never compared again, every key of the first report ends up in
      `compared_keys` exactly once more than before at most, and every logged comparison is of
      a key new to `compared_keys`, with twice its numerator within `0..2 * max_pop * max_pop`. */
  lemma {:induction false} CalculateStatisticsKeys(r1: Report, r2: Report, compared: seq<string>, maxPop: nat, maxVal: int)
    requires CalculateStatistics(r1, r2, compared, maxPop, maxVal).Ok?
    ensures var s := CalculateStatistics(r1, r2, compared, maxPop, maxVal).value;
      |s.compared| == |compared| + |s.logged| && s.compared[..|compared|] == compared &&
      (forall q :: 0 <= q < |s.logged| ==> s.compared[|compared| + q] == s.logged[q].key && s.logged[q].key !in compared) &&
      (forall q :: 0 <= q < |s.logged| ==> 0 <= s.logged[q].twice <= 2 * maxPop * maxPop) &&
      (forall i :: 0 <= i < |r1| ==> r1[i].key in s.compared)
  {
    StatisticsLog(r1, r2, compared, maxPop, maxVal);
    StatisticsCover(r1, r2, compared, maxPop, maxVal);
  }

  /** One more key of the first report: skipped, or appended and logged. */
  lemma StatisticsLast(r1: Report, r2: Report, compared: seq<string>, maxPop: nat, maxVal: int)
    requires |r1| > 0 && CalculateStatistics(r1, r2, compared, maxPop, maxVal).Ok?
    ensures var s := CalculateStatistics(r1[..|r1| - 1], r2, compared, maxPop, maxVal);
      var s' := CalculateStatistics(r1, r2, compared, maxPop, maxVal).value;
      var e := r1[|r1| - 1];
      s.Ok? &&
      if e.key in s.value.compared then s' == s.value
      else
        Populations(e.key, e.ffTimes, r2, maxPop, maxVal).Ok? &&
        var pops := Populations(e.key, e.ffTimes, r2, maxPop, maxVal).value;
        s' == Stats(s.value.compared + [e.key], s.value.logged + [Comparison(e.key, Score(pops.0, pops.1))])
  {
  }

  /** The log and `compared_keys` grow together, by new keys only. */
  lemma {:induction false} StatisticsLog(r1: Report, r2: Report, compared: seq<string>, maxPop: nat, maxVal: int)
    requires CalculateStatistics(r1, r2, compared, maxPop, maxVal).Ok?
    ensures var s := CalculateStatistics(r1, r2, compared, maxPop, maxVal).value;
      |s.compared| == |compared| + |s.logged| && s.compared[..|compared|] == compared &&
      (forall q :: 0 <= q < |s.logged| ==> s.compared[|compared| + q] == s.logged[q].key && s.logged[q].key !in compared) &&
      (forall q :: 0 <= q < |s.logged| ==> 0 <= s.logged[q].twice <= 2 * maxPop * maxPop)
  {
    if |r1| > 0 {
      var init := r1[..|r1| - 1];
      StatisticsLast(r1, r2, compared, maxPop, maxVal);
      StatisticsLog(init, r2, compared, maxPop, maxVal);
      var s := CalculateStatistics(init, r2, compared, maxPop, maxVal).value;
      var e := r1[|r1| - 1];
      if e.key !in s.compared {
        var pops := Populations(e.key, e.ffTimes, r2, maxPop, maxVal).value;
        ScoreBounds(pops.0, pops.1);
        var s' := CalculateStatistics(r1, r2, compared, maxPop, maxVal).value;
        assert s'.compared[..|compared|] == s.compared[..|compared|];
        assert e.key !in compared by {
          assert forall x :: x in compared ==> x in s.compared[..|compared|];
        }
        forall q | 0 <= q < |s'.logged|
          ensures s'.compared[|compared| + q] == s'.logged[q].key && s'.logged[q].key !in compared
          ensures 0 <= s'.logged[q].twice <= 2 * maxPop * maxPop
        {
          if q < |s.logged| {
            assert s'.logged[q] == s.logged[q] && s'.compared[|compared| + q] == s.compared[|compared| + q];
          }
        }
      }
    }
  }

  /** Every key of the first report ends up in `compared_keys`. */
  lemma {:induction false} StatisticsCover(r1: Report, r2: Report, compared: seq<string>, maxPop: nat, maxVal: int)
    requires CalculateStatistics(r1, r2, compared, maxPop, maxVal).Ok?
    ensures var s := CalculateStatistics(r1, r2, compared, maxPop, maxVal).value;
      forall i :: 0 <= i < |r1| ==> r1[i].key in s.compared
  {
    if |r1| > 0 {
      var init := r1[..|r1| - 1];
      StatisticsLast(r1, r2, compared, maxPop, maxVal);
      StatisticsCover(init, r2, compared, maxPop, maxVal);
      var s := CalculateStatistics(init, r2, compared, maxPop, maxVal).value;
      var s' := CalculateStatistics(r1, r2, compared, maxPop, maxVal).value;
      assert forall x :: x in s.compared ==> x in s'.compared;
      forall i | 0 <= i < |r1| ensures r1[i].key in s'.compared {
        if i < |r1| - 1 {
          assert r1[i] == init[i];
        }
      }
    }
  }

  /** `calculate_statistics` as written: the key loop with `compared_keys` extended in place. */
  method CalculateStatisticsLoop(r1: Report, r2: Report, compared: seq<string>, maxPop: nat, maxVal: int)
    returns (r: Result<Stats>)
    ensures r == CalculateStatistics(r1, r2, compared, maxPop, maxVal)
  {
    var keys := compared;
    var logged: seq<Comparison> := [];
    for i := 0 to |r1|
      invariant CalculateStatistics(r1[..i], r2, compared, maxPop, maxVal) == Ok(Stats(keys, logged))
    {
      assert r1[..i + 1][..i] == r1[..i];
      var e := r1[i];
      if e.key in keys {
        continue;
      }
      keys := keys + [e.key];
      var first := SanitizeFfTimes(maxPop, maxVal, Bins(e.ffTimes));
      if first.Err? {
        CalculateStatisticsHalted(r1, r2, compared, maxPop, maxVal, i + 1);
        return Err(first.error);
      }
      var second: seq<int>;
      var other := Lookup(r2, e.key);
      if other.None? {
        second := Repeat(maxVal, maxPop);
      } else {
        var s := SanitizeFfTimes(maxPop, maxVal, Bins(other.value));
        if s.Err? {
          CalculateStatisticsHalted(r1, r2, compared, maxPop, maxVal, i + 1);
          return Err(s.error);
        }
        second := s.value;
      }
      var twice := Numerator(first.value, second);
      logged := logged + [Comparison(e.key, twice)];
    }
    assert r1[..|r1|] == r1;
    r := Ok(Stats(keys, logged));
  }

  /** The entry of a key in a report with one more key at the end: an earlier entry wins. */
  lemma {:induction false} LookupSnoc(r: Report, e: ReportEntry, key: string)
    ensures Lookup(r + [e], key) == if Lookup(r, key).Some? then Lookup(r, key)
                                    else if e.key == key then Some(e.ffTimes) else None
  {
    if |r| > 0 {
      assert (r + [e])[1..] == r[1..] + [e];
      LookupSnoc(r[1..], e, key);
    } else {
      assert [e][1..] == [];
    }
  }

  /** A logged comparison is of a key of the first report, scored on the populations of that
      key's `ff_times` in the first report and, through `Populations`, in the second. */
  ghost predicate Scored(r1: Report, r2: Report, c: Comparison, maxPop: nat, maxVal: int) {
    Lookup(r1, c.key).Some? &&
    var pops := Populations(c.key, Lookup(r1, c.key).value, r2, maxPop, maxVal);
    pops.Ok? && c.twice == Score(pops.value.0, pops.value.1)
  }

  /** A key scored against a report keeps its score when the report gains an entry. */
  lemma ScoredSnoc(r1: Report, e: ReportEntry, r2: Report, c: Comparison, maxPop: nat, maxVal: int)
    requires Scored(r1, r2, c, maxPop, maxVal)
    ensures Scored(r1 + [e], r2, c, maxPop, maxVal)
  {
    LookupSnoc(r1, e, c.key);
  }

  /** A key new to a report is scored on its own entry. */
  lemma ScoredNew(r1: Report, e: ReportEntry, r2: Report, maxPop: nat, maxVal: int)
    requires forall i :: 0 <= i < |r1| ==> r1[i].key != e.key
    requires Populations(e.key, e.ffTimes, r2, maxPop, maxVal).Ok?
    ensures var pops := Populations(e.key, e.ffTimes, r2, maxPop, maxVal).value;
      Scored(r1 + [e], r2, Comparison(e.key, Score(pops.0, pops.1)), maxPop, maxVal)
  {
    LookupSnoc(r1, e, e.key);
  }

  /** Every logged score is twice the numerator of the populations of its key: the key's
      first entry in the first report against the second report's entry or the padding. */
  lemma {:induction false} StatisticsScores(r1: Report, r2: Report, compared: seq<string>, maxPop: nat, maxVal: int)
    requires CalculateStatistics(r1, r2, compared, maxPop, maxVal).Ok?
    ensures var s := CalculateStatistics(r1, r2, compared, maxPop, maxVal).value;
      forall q :: 0 <= q < |s.logged| ==> Scored(r1, r2, s.logged[q], maxPop, maxVal)
  {
    if |r1| > 0 {
      var init := r1[..|r1| - 1];
      var e := r1[|r1| - 1];
      assert r1 == init + [e];
      StatisticsLast(r1, r2, compared, maxPop, maxVal);
      StatisticsScores(init, r2, compared, maxPop, maxVal);
      var s := CalculateStatistics(init, r2, compared, maxPop, maxVal).value;
      forall q | 0 <= q < |s.logged|
        ensures Scored(r1, r2, s.logged[q], maxPop, maxVal)
      {
        ScoredSnoc(init, e, r2, s.logged[q], maxPop, maxVal);
      }
      if e.key !in s.compared {
        CalculateStatisticsKeys(init, r2, compared, maxPop, maxVal);
        ScoredNew(init, e, r2, maxPop, maxVal);
      }
    }
  }

  /** Once `exit(1)` has been called, later keys change nothing. */
  lemma {:induction false} CalculateStatisticsHalted(r1: Report, r2: Report, compared: seq<string>, maxPop: nat, maxVal: int, i: int)
    requires 0 <= i <= |r1| && CalculateStatistics(r1[..i], r2, compared, maxPop, maxVal).Err?
    ensures CalculateStatistics(r1, r2, compared, maxPop, maxVal) == CalculateStatistics(r1[..i], r2, compared, maxPop, maxVal)
    decreases |r1| - i
  {
    if i < |r1| {
      assert r1[..i + 1][..i] == r1[..i];
      CalculateStatisticsHalted(r1, r2, compared, maxPop, maxVal, i + 1);
    } else {
      assert r1[..i] == r1;
    }
  }

  /** `main`: the first report against the second, then the second against the first with the
      keys already compared; the result is both calls' comparisons. */
  function A12Main(first: Report, second: Report, maxPop: nat, maxVal: int): Result<(seq<Comparison>, seq<Comparison>)> {
    match CalculateStatistics(first, second, [], maxPop, maxVal)
    case Err(e) => Err(e)
    case Ok(s1) =>
      match CalculateStatistics(second, first, s1.compared, maxPop, maxVal)
      case Err(e) => Err(e)
      case Ok(s2) => Ok((s1.logged, s2.logged))
  }

  /** The reversed call never compares again a key of the first report: it compares only keys
      the first report lacks, each the sanitized `ff_times` of its entry in the second report
      against `max_pop` copies of `max_val`. */
  lemma A12MainNoRecompare(first: Report, second: Report, maxPop: nat, maxVal: int)
    requires A12Main(first, second, maxPop, maxVal).Ok?
    ensures forall q, i :: 0 <= q < |A12Main(first, second, maxPop, maxVal).value.1| && 0 <= i < |first| ==>
      A12Main(first, second, maxPop, maxVal).value.1[q].key != first[i].key
    ensures var v := A12Main(first, second, maxPop, maxVal).value.1;
      forall q :: 0 <= q < |v| ==>
        Lookup(second, v[q].key).Some? &&
        SanitizeTimes(maxPop, maxVal, Bins(Lookup(second, v[q].key).value)).Ok? &&
        v[q].twice == Score(SanitizeTimes(maxPop, maxVal, Bins(Lookup(second, v[q].key).value)).value, Repeat(maxVal, maxPop))
  {
    CalculateStatisticsKeys(first, second, [], maxPop, maxVal);
    var s1 := CalculateStatistics(first, second, [], maxPop, maxVal).value;
    CalculateStatisticsKeys(second, first, s1.compared, maxPop, maxVal);
    StatisticsScores(second, first, s1.compared, maxPop, maxVal);
    var v := A12Main(first, second, maxPop, maxVal).value.1;
    forall q | 0 <= q < |v|
      ensures Lookup(first, v[q].key).None?
    {
      assert forall i :: 0 <= i < |first| ==> first[i].key != v[q].key;
    }
  }
}
