/**
 * `main` of fot_stat/stat_avg.py: the result files of several fot_stat runs of one target are
 * averaged. For every statistic and every cycle of the first file, the ranks that every
 * file's dictionary has are sorted, the first summary sentinel among them is given back its
 * name, and each of them is summed over the files; the average is that sum divided by the
 * number of files loaded.
 */
module StatAvg {
  import opened Wrappers
  import opened PyText
  import opened Sorting
  import opened Dicts

  // Rank keys

  /** `stoi_helper`: the two summary keys become negative sentinels, every other key goes
      through `int()`. */
  function StoI(s: string): (r: Result<int>)
    ensures r.Err? ==> r.error == ValueError
  {
    if s == "average" then Ok(-1)
    else if s == "count" then Ok(-2)
    else
      match ParseInt(s)
      case Some(n) => Ok(n)
      case None => Err(ValueError)
  }

  /** `str()` of a rank reads back as that rank: no rank's text is a summary name. */
  lemma StoIOfInt(n: int)
    ensures StoI(IntToString(n)) == Ok(n)
  {
    ParseIntToString(n);
    IntToStringChars(n);
    var s := IntToString(n);
    assert |s| > 0 && s[0] != 'a' && s[0] != 'c';
    assert s != "average" && s != "count";
  }

  /** A rank in the averaged output: a number, or a summary sentinel given back its name. */
  datatype RankKey = Rank(n: int) | Named(name: string)

  /** `str(rank)`: the key the sums look up. */
  function KeyText(k: RankKey): string {
    match k
    case Rank(n) => IntToString(n)
    case Named(s) => s
  }

  // Loaded files

  /** One cycle of one statistic in a loaded file: rank key to value. */
  type Ranks = map<string, int>

  /** One statistic of a loaded file: cycle key to its ranks. */
  type Cycles = seq<(string, Ranks)>

  /** A loaded result file: statistic name to its cycles. */
  type Data = seq<(string, Cycles)>

  /** `{stoi_helper(k) for k in d}`. */
  function RankSet(d: Ranks): (r: Result<set<int>>)
    ensures r.Ok? <==> forall k :: k in d ==> StoI(k).Ok?
    ensures r.Ok? ==> forall k :: k in d ==> StoI(k).value in r.value
    ensures r.Ok? ==> forall n :: n in r.value ==> exists k :: k in d && StoI(k) == Ok(n)
  {
    if forall k :: k in d ==> StoI(k).Ok? then Ok(set k | k in d :: StoI(k).value) else Err(ValueError)
  }

  /** The rank sets of the cycle's dictionaries, one per file. */
  function RankSets(sumList: seq<Ranks>): (r: seq<Result<set<int>>>)
    ensures |r| == |sumList| && forall i :: 0 <= i < |sumList| ==> r[i] == RankSet(sumList[i])
  {
    seq(|sumList|, i requires 0 <= i < |sumList| => RankSet(sumList[i]))
  }

  /** Rank `n` is in every one of the rank sets. */
  predicate InAll(sets: seq<Result<set<int>>>, n: int) {
    forall i :: 0 <= i < |sets| ==> sets[i].Ok? && n in sets[i].value
  }

  /** `set_0.intersection(*[set_i for every file])`: the ranks every file's dictionary of
      the cycle has; the first set that cannot be built raises. */
  function Intersection(sets: seq<Result<set<int>>>): (r: Result<set<int>>)
    requires |sets| > 0
    ensures r.Ok? <==> forall i :: 0 <= i < |sets| ==> sets[i].Ok?
    ensures r.Err? ==> exists i :: 0 <= i < |sets| && sets[i] == Err(r.error)
    ensures r.Ok? ==> forall n :: n in r.value <==> InAll(sets, n)
    decreases |sets|
  {
    var last := sets[|sets| - 1];
    var front := sets[..|sets| - 1];
    assert forall i :: 0 <= i < |front| ==> front[i] == sets[i];
    if |sets| == 1 then last
    else
      match Intersection(front)
      case Err(e) => Err(e)
      case Ok(s) =>
        match last
        case Err(e) => Err(e)
        case Ok(t) =>
          assert forall n :: InAll(sets, n) <==> InAll(front, n) && n in t;
          Ok(s * t)
  }

  /** The shared ranks of a cycle; an empty `sum_list` has no `sum_list[0]`. */
  function Common(sumList: seq<Ranks>): (r: Result<set<int>>)
    ensures r.Ok? <==> |sumList| > 0 && forall i :: 0 <= i < |sumList| ==> RankSet(sumList[i]).Ok?
    ensures r.Err? ==> r.error == if |sumList| == 0 then IndexError else ValueError
    ensures r.Ok? ==> forall n :: n in r.value <==> InAll(RankSets(sumList), n)
  {
    if |sumList| == 0 then Err(IndexError) else Intersection(RankSets(sumList))
  }

  // Sentinels

  predicate IsSentinel(n: int) {
    n == -1 || n == -2
  }

  /** The index the rename loop stops at: the first sentinel, or the end. */
  function FirstSentinel(s: seq<int>): (i: nat)
    ensures i <= |s|
    ensures i < |s| ==> IsSentinel(s[i])
    ensures forall j :: 0 <= j < i ==> !IsSentinel(s[j])
  {
    if |s| == 0 then 0
    else if IsSentinel(s[0]) then 0
    else 1 + FirstSentinel(s[1..])
  }

  /** `shared_ranks` after the rename loop: the first sentinel becomes its name and the loop
      stops, so any later one stays a number. */
  function Renamed(s: seq<int>): (r: seq<RankKey>)
    ensures |r| == |s|
  {
    seq(|s|, j requires 0 <= j < |s| =>
      if j == FirstSentinel(s) then Named(if s[j] == -1 then "average" else "count") else Rank(s[j]))
  }

  /** In the sorted shared ranks, at most one rank is renamed and every other keeps its
      number; as `count` sorts before `average`, `count` is the one renamed when both are
      shared, and `average` then stays `-1`. */
  lemma RenamedOnce(s: seq<int>)
    requires StrictlyIncreasing(s)
    ensures var r := Renamed(s);
      (forall j :: 0 <= j < |s| && r[j].Named? ==> j == FirstSentinel(s)) &&
      (forall j :: 0 <= j < |s| && r[j].Rank? ==> r[j].n == s[j]) &&
      (-2 in s ==> Named("count") in r && (-1 in s ==> Rank(-1) in r)) &&
      (-2 !in s && -1 in s ==> Named("average") in r) &&
      (!(-1 in s) && !(-2 in s) ==> forall j :: 0 <= j < |s| ==> r[j] == Rank(s[j]))
  {
    var r := Renamed(s);
    var i := FirstSentinel(s);
    if -2 in s {
      var p :| 0 <= p < |s| && s[p] == -2;
      assert i <= p;
      assert s[i] == -2;
      assert r[i] == Named("count");
      if -1 in s {
        var q :| 0 <= q < |s| && s[q] == -1;
        assert q != i;
        assert r[q] == Rank(-1);
      }
    } else if -1 in s {
      var q :| 0 <= q < |s| && s[q] == -1;
      assert i <= q && s[i] == -1;
      assert r[i] == Named("average");
    }
  }

  // Sums

  /** `sum_of_values`: the value under `key` summed over the files' dictionaries; a file
      without the key raises `KeyError`. */
  function SumFor(sumList: seq<Ranks>, key: string): (r: Result<int>)
    ensures r.Ok? <==> forall i :: 0 <= i < |sumList| ==> key in sumList[i]
    ensures r.Err? ==> r.error == KeyError
    decreases |sumList|
  {
    if |sumList| == 0 then Ok(0)
    else
      var front := sumList[..|sumList| - 1];
      assert forall i :: 0 <= i < |front| ==> front[i] == sumList[i];
      match SumFor(front, key)
      case Err(e) => Err(e)
      case Ok(s) =>
        if key in sumList[|sumList| - 1] then Ok(s + sumList[|sumList| - 1][key]) else Err(KeyError)
  }

  /** The sums of the given ranks, in order; the first rank some file lacks raises. */
  function SumsOf(keys: seq<RankKey>, sumList: seq<Ranks>): (r: Result<seq<(RankKey, int)>>)
    ensures r.Ok? <==> forall j :: 0 <= j < |keys| ==> SumFor(sumList, KeyText(keys[j])).Ok?
    ensures r.Ok? ==>
      Keys(r.value) == keys && forall j :: 0 <= j < |keys| ==> SumFor(sumList, KeyText(keys[j])) == Ok(r.value[j].1)
    ensures r.Err? ==> r.error == KeyError
    decreases |keys|
  {
    if |keys| == 0 then Ok([])
    else
      var front := keys[..|keys| - 1];
      var k := keys[|keys| - 1];
      assert forall j :: 0 <= j < |front| ==> front[j] == keys[j];
      match SumsOf(front, sumList)
      case Err(e) => Err(e)
      case Ok(done) =>
        match SumFor(sumList, KeyText(k))
        case Err(e) => Err(e)
        case Ok(v) =>
          SumsStep(keys, sumList, done, v);
          Ok(done + [(k, v)])
  }

  /** Appending the sum of the last key to the sums of the others gives the sums of all. */
  lemma SumsStep(keys: seq<RankKey>, sumList: seq<Ranks>, done: seq<(RankKey, int)>, v: int)
    requires |keys| > 0 && Keys(done) == keys[..|keys| - 1]
    requires forall j :: 0 <= j < |keys| - 1 ==> SumFor(sumList, KeyText(keys[j])) == Ok(done[j].1)
    requires SumFor(sumList, KeyText(keys[|keys| - 1])) == Ok(v)
    ensures Keys(done + [(keys[|keys| - 1], v)]) == keys
    ensures forall j :: 0 <= j < |keys| ==> SumFor(sumList, KeyText(keys[j])) == Ok((done + [(keys[|keys| - 1], v)])[j].1)
  {
    var k := keys[|keys| - 1];
    assert Keys(done + [(k, v)]) == Keys(done) + [k];
    assert keys[..|keys| - 1] + [k] == keys;
  }

  /** One cycle of one statistic: the shared ranks, sorted, the first sentinel renamed, each
      with its sum over the files. */
  function CycleSums(sumList: seq<Ranks>): Result<seq<(RankKey, int)>>
  {
    match Common(sumList)
    case Err(e) => Err(e)
    case Ok(shared) => SumsOf(Renamed(SortedInts(shared)), sumList)
  }

  /** Every key of a dictionary written by fot_stat.py: `str()` of a non-negative rank, or one
      of the two summary names. */
  ghost predicate Canonical(d: Ranks) {
    forall k :: k in d ==> k == "average" || k == "count" || exists n: nat :: k == IntToString(n)
  }

  lemma CanonicalKey(d: Ranks, k: string)
    requires Canonical(d) && k in d && k != "average" && k != "count"
    ensures StoI(k).Ok? && StoI(k).value >= 0 && k == IntToString(StoI(k).value)
  {
    var n: nat :| k == IntToString(n);
    StoIOfInt(n);
  }

  /** The rank keys of canonical dictionaries all read as ranks, and `"-1"` is not among
      them. */
  lemma CanonicalRankSet(d: Ranks)
    requires Canonical(d)
    ensures RankSet(d).Ok?
    ensures forall n :: n in RankSet(d).value ==> n >= 0 || n == -1 || n == -2
    ensures forall n :: n in RankSet(d).value && n >= 0 ==> IntToString(n) in d
    ensures -1 in RankSet(d).value ==> "average" in d
    ensures -2 in RankSet(d).value ==> "count" in d
    ensures IntToString(-1) !in d
  {
    StoIOfInt(-1);
    assert IntToString(-1) == "-1";
    forall k | k in d
      ensures StoI(k).Ok? && k != "-1"
    {
      if k != "average" && k != "count" {
        CanonicalKey(d, k);
      }
    }
    forall n | n in RankSet(d).value
      ensures n >= 0 || n == -1 || n == -2
      ensures n >= 0 ==> IntToString(n) in d
      ensures n == -1 ==> "average" in d
      ensures n == -2 ==> "count" in d
    {
      var k :| k in d && StoI(k) == Ok(n);
      if k != "average" && k != "count" {
        CanonicalKey(d, k);
      }
    }
  }

  /** With both sentinels shared, `count` is renamed and `-1` is looked up as `"-1"`, which
      no canonical dictionary has. */
  lemma CanonicalBoth(sumList: seq<Ranks>, shared: set<int>)
    requires |sumList| > 0 && forall i :: 0 <= i < |sumList| ==> Canonical(sumList[i])
    requires -1 in shared && -2 in shared
    ensures SumsOf(Renamed(SortedInts(shared)), sumList).Err?
  {
    var s := SortedInts(shared);
    var keys := Renamed(s);
    RenamedOnce(s);
    var q :| 0 <= q < |keys| && keys[q] == Rank(-1);
    CanonicalRankSet(sumList[0]);
    assert KeyText(keys[q]) == IntToString(-1);
    assert SumFor(sumList, KeyText(keys[q])).Err?;
  }

  /** Unless both sentinels are present, the key looked up for each sorted rank is its
      summary name or its text. */
  lemma RenamedText(s: seq<int>, j: int)
    requires StrictlyIncreasing(s) && 0 <= j < |s| && !(-1 in s && -2 in s)
    ensures KeyText(Renamed(s)[j]) == RankText(s[j])
  {
    var i := FirstSentinel(s);
    if IsSentinel(s[j]) {
      assert i == j;
    }
  }

  /** The key a rank is looked up under once renamed: its summary name or its text. */
  function RankText(n: int): string {
    if n == -1 then "average" else if n == -2 then "count" else IntToString(n)
  }

  lemma CanonicalHasText(d: Ranks, n: int)
    requires Canonical(d) && RankSet(d).Ok? && n in RankSet(d).value
    ensures RankText(n) in d
  {
    CanonicalRankSet(d);
  }

  /** Without both sentinels present, every renamed sorted rank that all canonical
      dictionaries have is found in each of them. */
  lemma CanonicalFound(sumList: seq<Ranks>, s: seq<int>, j: int)
    requires forall i :: 0 <= i < |sumList| ==> Canonical(sumList[i])
    requires StrictlyIncreasing(s) && 0 <= j < |s| && !(-1 in s && -2 in s)
    requires InAll(RankSets(sumList), s[j])
    ensures SumFor(sumList, KeyText(Renamed(s)[j])).Ok?
  {
    RenamedText(s, j);
    var text := RankText(s[j]);
    forall i | 0 <= i < |sumList|
      ensures text in sumList[i]
    {
      assert RankSets(sumList)[i] == RankSet(sumList[i]);
      CanonicalHasText(sumList[i], s[j]);
    }
    assert SumFor(sumList, text).Ok?;
  }

  /** For files written by fot_stat.py, the sums of a cycle fail exactly when both summary
      sentinels are shared, because the rename loop stops after the first one and `-1` is
      then looked up as `"-1"`. */
  lemma CanonicalSums(sumList: seq<Ranks>)
    requires |sumList| > 0 && forall i :: 0 <= i < |sumList| ==> Canonical(sumList[i])
    ensures Common(sumList).Ok?
    ensures var shared := Common(sumList).value;
      CycleSums(sumList).Ok? <==> !(-1 in shared && -2 in shared)
  {
    forall i | 0 <= i < |sumList|
      ensures RankSet(sumList[i]).Ok?
    {
      CanonicalRankSet(sumList[i]);
    }
    var shared := Common(sumList).value;
    if -1 in shared && -2 in shared {
      CanonicalBoth(sumList, shared);
    } else {
      var s := SortedInts(shared);
      forall j | 0 <= j < |s|
        ensures SumFor(sumList, KeyText(Renamed(s)[j])).Ok?
      {
        assert s[j] in shared;
        CanonicalFound(sumList, s, j);
      }
    }
  }

  /** fot_stat.py gives a dictionary `average` (the per-record values) or `count`
      (`rank_nums`), never both, so the sums of its files' cycles never raise. */
  lemma SingleSummarySums(sumList: seq<Ranks>)
    requires |sumList| > 0 && forall i :: 0 <= i < |sumList| ==> Canonical(sumList[i])
    requires !("average" in sumList[0] && "count" in sumList[0])
    ensures CycleSums(sumList).Ok?
  {
    CanonicalSums(sumList);
    CanonicalRankSet(sumList[0]);
    var shared := Common(sumList).value;
    assert RankSets(sumList)[0] == RankSet(sumList[0]);
    assert -1 in shared ==> InAll(RankSets(sumList), -1);
    assert -2 in shared ==> InAll(RankSets(sumList), -2);
  }

  // Statistics and cycles

  /** `int()` of a cycle key, the sort key of the cycles. */
  function CycleKey(k: string): int {
    match ParseInt(k)
    case Some(n) => n
    case None => 0
  }

  /** `sorted(cycles, key=lambda x: int(x))`: `ValueError` when a cycle key is not an
      integer. */
  function CycleOrder(cycles: Cycles): (r: Result<seq<string>>)
    ensures r.Ok? <==> forall i :: 0 <= i < |cycles| ==> ParseInt(cycles[i].0).Some?
    ensures r.Err? ==> r.error == ValueError
  {
    if forall i :: 0 <= i < |cycles| ==> ParseInt(cycles[i].0).Some? then Ok(SortBy(Keys(cycles), CycleKey))
    else Err(ValueError)
  }

  /** The cycles of a statistic come out in ascending cycle number, each of them once. */
  lemma CycleOrderSorted(cycles: Cycles)
    requires CycleOrder(cycles).Ok?
    ensures var order := CycleOrder(cycles).value;
      SortedBy(order, CycleKey) && multiset(order) == multiset(Keys(cycles)) &&
      forall j :: 0 <= j < |order| ==> ParseInt(order[j]) == Some(CycleKey(order[j]))
  {
    var order := CycleOrder(cycles).value;
    forall j | 0 <= j < |order|
      ensures ParseInt(order[j]) == Some(CycleKey(order[j]))
    {
      assert order[j] in multiset(Keys(cycles));
      var i :| 0 <= i < |cycles| && Keys(cycles)[i] == order[j];
    }
  }

  /** `each_dict[paramkey][cycle_num]` for one loaded file. */
  function Entry(d: Data, param: string, cycle: string): Option<Ranks> {
    match Lookup(d, param)
    case None => None
    case Some(cycles) => Lookup(cycles, cycle)
  }

  /** `[each_dict[paramkey][cycle_num] for each_dict in input_data_list]`: `KeyError` when a
      file lacks the statistic or the cycle. */
  function SumList(inputs: seq<Data>, param: string, cycle: string): (r: Result<seq<Ranks>>)
    ensures r.Ok? <==> forall i :: 0 <= i < |inputs| ==> Entry(inputs[i], param, cycle).Some?
    ensures r.Ok? ==>
      |r.value| == |inputs| && forall i :: 0 <= i < |inputs| ==> Entry(inputs[i], param, cycle) == Some(r.value[i])
    ensures r.Err? ==> r.error == KeyError
    decreases |inputs|
  {
    if |inputs| == 0 then Ok([])
    else
      var front := inputs[..|inputs| - 1];
      assert forall i :: 0 <= i < |front| ==> front[i] == inputs[i];
      match SumList(front, param, cycle)
      case Err(e) => Err(e)
      case Ok(done) =>
        match Entry(inputs[|inputs| - 1], param, cycle)
        case None => Err(KeyError)
        case Some(d) => Ok(done + [d])
  }

  /** The averaged ranks of one cycle of one statistic. */
  function CycleOf(inputs: seq<Data>, param: string, cycle: string): Result<Sums> {
    match SumList(inputs, param, cycle)
    case Err(e) => Err(e)
    case Ok(sumList) => CycleSums(sumList)
  }

  /** The sums of one cycle: each shared rank, in order, with its sum over the files. */
  type Sums = seq<(RankKey, int)>

  /** `f` applied to each key in order, each result stored under its key; the first key
      whose result raises ends the script. */
  function EachKey<T>(keys: seq<string>, f: string -> Result<T>): (r: Result<seq<(string, T)>>)
    ensures r.Ok? <==> forall j :: 0 <= j < |keys| ==> f(keys[j]).Ok?
    ensures r.Ok? ==>
      Keys(r.value) == keys && forall j :: 0 <= j < |keys| ==> f(keys[j]) == Ok(r.value[j].1)
    ensures r.Err? ==>
      exists j :: 0 <= j < |keys| && f(keys[j]) == Err(r.error) && forall i :: 0 <= i < j ==> f(keys[i]).Ok?
    decreases |keys|
  {
    if |keys| == 0 then Ok([])
    else
      var front := keys[..|keys| - 1];
      var c := keys[|keys| - 1];
      assert forall j :: 0 <= j < |front| ==> front[j] == keys[j];
      match EachKey(front, f)
      case Err(e) => Err(e)
      case Ok(done) =>
        match f(c)
        case Err(e) => Err(e)
        case Ok(v) =>
          assert Keys(done + [(c, v)]) == Keys(done) + [c];
          Ok(done + [(c, v)])
  }

  /** One more key, before any has failed: its result is stored, or its error ends the loop. */
  lemma EachKeyStep<T>(keys: seq<string>, j: int, f: string -> Result<T>)
    requires 0 <= j < |keys| && EachKey(keys[..j], f).Ok?
    ensures EachKey(keys[..j + 1], f) ==
      match f(keys[j])
      case Err(e) => Err(e)
      case Ok(v) => Ok(EachKey(keys[..j], f).value + [(keys[j], v)])
  {
    assert keys[..j + 1][..j] == keys[..j];
  }

  lemma {:induction false} EachKeyHalted<T>(keys: seq<string>, n: nat, f: string -> Result<T>)
    requires n <= |keys| && EachKey(keys[..n], f).Err?
    ensures EachKey(keys, f) == EachKey(keys[..n], f)
    decreases |keys|
  {
    if n < |keys| {
      assert keys[..|keys| - 1][..n] == keys[..n];
      EachKeyHalted(keys[..|keys| - 1], n, f);
    } else {
      assert keys[..n] == keys;
    }
  }

  /** The cycles of one statistic in the given order, each with its sums. */
  function ParamCycles(order: seq<string>, inputs: seq<Data>, param: string): Result<seq<(string, Sums)>> {
    EachKey(order, (c: string) => CycleOf(inputs, param, c))
  }

  // The averaged table

  /** `result_dict`: statistic name to its cycles, each with its averaged ranks. */
  type Table = seq<(string, seq<(string, Sums)>)>

  /** The statistics `result_dict` starts with, in its order. */
  const ResultKeys: seq<string> :=
    ["edge", "func", "time", "rank_nums", "total_bonus", "total_score", "file_len", "edge_num", "func_num"]

  function EmptyTable(): (t: Table)
    ensures Keys(t) == ResultKeys
  {
    seq(|ResultKeys|, i requires 0 <= i < |ResultKeys| => (ResultKeys[i], []))
  }

  /** One statistic of the first file: its cycles sorted, then each cycle's sums stored
      under the statistic, which must be one of `result_dict`'s (`KeyError` otherwise, at
      its first cycle). A statistic without cycles changes nothing. */
  function ParamResult(table: Table, param: string, cycles: Cycles, inputs: seq<Data>): (r: Result<Table>)
    ensures r.Ok? ==> Keys(r.value) == Keys(table)
    ensures r.Ok? && |cycles| > 0 ==> param in Keys(table)
  {
    match CycleOrder(cycles)
    case Err(e) => Err(e)
    case Ok(order) =>
      if |order| == 0 then Ok(table)
      else if param !in Keys(table) then Err(KeyError)
      else
        match ParamCycles(order, inputs, param)
        case Err(e) => Err(e)
        case Ok(cs) => Ok(Assign(table, param, cs))
  }

  /** The statistics of the first file, in its order, entered into `result_dict`. */
  function TableFrom(params: Data, inputs: seq<Data>): Result<Table> {
    TableAfter(EmptyTable(), params, inputs)
  }

  /** The statistics entered one by one into the table `t`. */
  function TableAfter(t: Table, params: Data, inputs: seq<Data>): Result<Table>
    decreases |params|
  {
    if |params| == 0 then Ok(t)
    else
      match TableAfter(t, params[..|params| - 1], inputs)
      case Err(e) => Err(e)
      case Ok(t') => ParamResult(t', params[|params| - 1].0, params[|params| - 1].1, inputs)
  }

  lemma {:induction false} TableFromHalted(params: Data, n: nat, inputs: seq<Data>)
    requires n <= |params| && TableFrom(params[..n], inputs).Err?
    ensures TableFrom(params, inputs) == TableFrom(params[..n], inputs)
    decreases |params|
  {
    if n < |params| {
      assert params[..|params| - 1][..n] == params[..n];
      TableFromHalted(params[..|params| - 1], n, inputs);
    } else {
      assert params[..n] == params;
    }
  }

  function TableOf(inputs: seq<Data>): Result<Table>
    requires |inputs| > 0
  {
    TableFrom(inputs[0], inputs)
  }

  /** A table built without error keeps `result_dict`'s statistics, and every statistic of
      the first file that has cycles is one of them. */
  lemma TableKeys(params: Data, inputs: seq<Data>)
    ensures TableFrom(params, inputs).Ok? ==>
      Keys(TableFrom(params, inputs).value) == ResultKeys &&
      forall i :: 0 <= i < |params| && |params[i].1| > 0 ==> params[i].0 in ResultKeys
  {
    if TableFrom(params, inputs).Ok? {
      TableKeysKept(EmptyTable(), params, inputs);
      CycledInAll(params, Keys(EmptyTable()));
    }
  }

  /** Every statistic of `params` that has cycles is among `ks`. */
  ghost predicate CycledIn(params: Data, ks: seq<string>)
    decreases |params|
  {
    |params| == 0 ||
    (CycledIn(params[..|params| - 1], ks) && (|params[|params| - 1].1| > 0 ==> params[|params| - 1].0 in ks))
  }

  lemma {:induction false} CycledInAll(params: Data, ks: seq<string>)
    requires CycledIn(params, ks)
    ensures forall i :: 0 <= i < |params| && |params[i].1| > 0 ==> params[i].0 in ks
    decreases |params|
  {
    if |params| > 0 {
      var front := params[..|params| - 1];
      CycledInAll(front, ks);
      forall i | 0 <= i < |params| && |params[i].1| > 0
        ensures params[i].0 in ks
      {
        if i < |front| {
          assert front[i] == params[i];
        }
      }
    }
  }

  lemma {:induction false} TableKeysKept(t: Table, params: Data, inputs: seq<Data>)
    requires TableAfter(t, params, inputs).Ok?
    ensures Keys(TableAfter(t, params, inputs).value) == Keys(t)
    ensures CycledIn(params, Keys(t))
    decreases |params|
  {
    if |params| > 0 {
      var front := params[..|params| - 1];
      var last := params[|params| - 1];
      var t0 := TableAfter(t, front, inputs);
      assert t0.Ok?;
      TableKeysKept(t, front, inputs);
      assert TableAfter(t, params, inputs) == ParamResult(t0.value, last.0, last.1, inputs);
    }
  }

  /** With the first file's statistics distinct, as in a JSON object, a table built without
      error holds under each statistic that has cycles its cycles in ascending order, each
      with its averaged ranks. */
  lemma {:induction false} TableEntries(params: Data, inputs: seq<Data>, i: int)
    requires Distinct(Keys(params)) && 0 <= i < |params| && |params[i].1| > 0
    requires TableFrom(params, inputs).Ok?
    ensures CycleOrder(params[i].1).Ok?
    ensures var order := CycleOrder(params[i].1).value;
      ParamCycles(order, inputs, params[i].0).Ok? &&
      Lookup(TableFrom(params, inputs).value, params[i].0) == Some(ParamCycles(order, inputs, params[i].0).value)
    decreases |params|
  {
    var front := params[..|params| - 1];
    var (p, cycles) := params[|params| - 1];
    var t0 := TableFrom(front, inputs).value;
    if i == |params| - 1 {
      var order := CycleOrder(cycles).value;
      assert |order| == |cycles|;
      var cs := ParamCycles(order, inputs, p).value;
      AssignLookup(t0, p, cs, p);
    } else {
      assert Keys(front) == Keys(params)[..|params| - 1];
      assert front[i] == params[i];
      TableEntries(front, inputs, i);
      assert params[i].0 != p;
      match CycleOrder(cycles)
      case Ok(order) =>
        if |order| > 0 {
          AssignLookup(t0, p, ParamCycles(order, inputs, p).value, params[i].0);
        }
    }
  }

  // Targets

  /** A target of the configuration: `data_files` and `output_file`, when present. */
  datatype Target = Target(dataFiles: Option<seq<string>>, outputFile: Option<string>)

  /** The configuration file: its `targets` dictionary, when present. */
  datatype Config = Config(targets: Option<seq<(string, Target)>>)

  /** `json.load` of a data file; `None` when opening or decoding it raises, which the
      script reports and skips. */
  type Loader = string -> Option<Data>

  /** `input_data_list`: the data files that load, in order. */
  function Loaded(files: seq<string>, load: Loader): (r: seq<Data>)
    ensures |r| <= |files|
    ensures |r| == 0 <==> forall i :: 0 <= i < |files| ==> load(files[i]).None?
    ensures forall j :: 0 <= j < |r| ==> exists i :: 0 <= i < |files| && load(files[i]) == Some(r[j])
    decreases |files|
  {
    if |files| == 0 then []
    else
      var front := files[..|files| - 1];
      var f := files[|files| - 1];
      assert forall i :: 0 <= i < |front| ==> front[i] == files[i];
      Loaded(front, load) + match load(f) case Some(d) => [d] case None => []
  }

  /** What one target writes: its output file, the number of data files loaded (the
      averages' divisor) and the table of sums. */
  datatype Averaged = Averaged(output: string, count: nat, table: Table)

  /** `sanitize_target`: both keys present and at least one data file. */
  predicate SaneTarget(t: Target) {
    t.dataFiles.Some? && t.outputFile.Some? && |t.dataFiles.value| > 0
  }

  /** One target: skipped (`None`) when it is not sane or none of its data files loads,
      otherwise its table averaged over the files that loaded. */
  function TargetResult(t: Target, load: Loader): Result<Option<Averaged>> {
    if !SaneTarget(t) then Ok(None)
    else
      var inputs := Loaded(t.dataFiles.value, load);
      if |inputs| == 0 then Ok(None)
      else
        match TableOf(inputs)
        case Err(e) => Err(e)
        case Ok(table) => Ok(Some(Averaged(t.outputFile.value, |inputs|, table)))
  }

  /** A target is written exactly when it is sane, some data file loads and its table is
      built; what it writes goes to its output file, averages over the files that loaded
      and keeps `result_dict`'s statistics. */
  lemma TargetOutcome(t: Target, load: Loader)
    ensures var r := TargetResult(t, load);
      (r.Ok? && r.value.Some? <==>
        SaneTarget(t) && |Loaded(t.dataFiles.value, load)| > 0 && TableOf(Loaded(t.dataFiles.value, load)).Ok?) &&
      (r.Ok? && r.value.Some? ==>
        var a := r.value.value;
        a.output == t.outputFile.value && 0 < a.count <= |t.dataFiles.value| && Keys(a.table) == ResultKeys)
  {
    if SaneTarget(t) {
      var inputs := Loaded(t.dataFiles.value, load);
      if |inputs| > 0 {
        TableKeys(inputs[0], inputs);
      }
    }
  }

  /** What a run wrote, one entry per target written, and the error or exit that ended it,
      if any. */
  datatype AvgRun = AvgRun(written: seq<Averaged>, halt: Option<PyError>)

  /** The loop over the targets, in the configuration's order, each handled by `target`;
      the first target that raises ends the script. */
  function RunTargets(ts: seq<(string, Target)>, target: Target -> Result<Option<Averaged>>): AvgRun
    decreases |ts|
  {
    if |ts| == 0 then AvgRun([], None)
    else
      var r := RunTargets(ts[..|ts| - 1], target);
      if r.halt.Some? then r
      else
        match target(ts[|ts| - 1].1)
        case Err(e) => AvgRun(r.written, Some(e))
        case Ok(None) => r
        case Ok(Some(a)) => AvgRun(r.written + [a], None)
  }

  /** One more target in the loop over the targets. */
  lemma RunTargetsStep(ts: seq<(string, Target)>, i: nat, target: Target -> Result<Option<Averaged>>)
    requires i < |ts| && RunTargets(ts[..i], target).halt.None?
    ensures var w := RunTargets(ts[..i], target).written;
      RunTargets(ts[..i + 1], target) ==
        match target(ts[i].1)
        case Err(e) => AvgRun(w, Some(e))
        case Ok(None) => AvgRun(w, None)
        case Ok(Some(a)) => AvgRun(w + [a], None)
  {
    assert ts[..i + 1][..i] == ts[..i];
  }

  lemma {:induction false} RunTargetsHalted(ts: seq<(string, Target)>, n: nat, target: Target -> Result<Option<Averaged>>)
    requires n <= |ts| && RunTargets(ts[..n], target).halt.Some?
    ensures RunTargets(ts, target) == RunTargets(ts[..n], target)
    decreases |ts|
  {
    if n < |ts| {
      assert ts[..|ts| - 1][..n] == ts[..n];
      RunTargetsHalted(ts[..|ts| - 1], n, target);
    } else {
      assert ts[..n] == ts;
    }
  }

  /** Reference definition: what the targets write, in order, when none of them raises. */
  function Produced(ts: seq<(string, Target)>, target: Target -> Result<Option<Averaged>>): seq<Averaged>
    decreases |ts|
  {
    if |ts| == 0 then []
    else
      Produced(ts[..|ts| - 1], target) +
        match target(ts[|ts| - 1].1) case Ok(Some(a)) => [a] case _ => []
  }

  /** A run over the targets ends without error exactly when no target raises, and then it
      wrote what every target produces, in order; otherwise the error is that of a target. */
  lemma {:induction false} RunTargetsOutcome(ts: seq<(string, Target)>, target: Target -> Result<Option<Averaged>>)
    ensures var r := RunTargets(ts, target);
      (r.halt.None? <==> forall i :: 0 <= i < |ts| ==> target(ts[i].1).Ok?) &&
      (r.halt.None? ==> r.written == Produced(ts, target)) &&
      (r.halt.Some? ==> exists i :: 0 <= i < |ts| && target(ts[i].1) == Err(r.halt.value))
    decreases |ts|
  {
    if |ts| > 0 {
      var front := ts[..|ts| - 1];
      RunTargetsOutcome(front, target);
      assert forall i :: 0 <= i < |front| ==> front[i] == ts[i];
    }
  }

  /** `main` past reading the configuration: a missing or empty `targets` exits, otherwise
      every target is averaged in turn. */
  function AvgMain(c: Config, load: Loader): (r: AvgRun)
    ensures c.targets.None? || |c.targets.value| == 0 ==> r == AvgRun([], Some(Exit))
  {
    if c.targets.None? || |c.targets.value| == 0 then AvgRun([], Some(Exit))
    else RunTargets(c.targets.value, (t: Target) => TargetResult(t, load))
  }

  // The script's loops

  /** The loop that gives the first sentinel among the sorted shared ranks its name and
      stops there. */
  method RenameFirstSentinel(s: seq<int>) returns (keys: seq<RankKey>)
    ensures keys == Renamed(s)
  {
    keys := seq(|s|, j requires 0 <= j < |s| => Rank(s[j]));
    var i := 0;
    while i < |s|
      invariant 0 <= i <= FirstSentinel(s)
      invariant keys == seq(|s|, j requires 0 <= j < |s| => Rank(s[j]))
    {
      if s[i] == -1 {
        keys := keys[i := Named("average")];
        return;
      } else if s[i] == -2 {
        keys := keys[i := Named("count")];
        return;
      }
      i := i + 1;
    }
  }

  /** The loops that sum each shared rank's value over the files; the first rank a file
      lacks raises `KeyError`. */
  method SumRanks(keys: seq<RankKey>, sumList: seq<Ranks>) returns (r: Result<Sums>)
    ensures r == SumsOf(keys, sumList)
  {
    var done: Sums := [];
    for j := 0 to |keys|
      invariant SumsOf(keys[..j], sumList) == Ok(done)
    {
      assert keys[..j + 1][..j] == keys[..j];
      var key := KeyText(keys[j]);
      var total := 0;
      for i := 0 to |sumList|
        invariant SumFor(sumList[..i], key) == Ok(total)
      {
        assert sumList[..i + 1][..i] == sumList[..i];
        if key !in sumList[i] {
          assert SumFor(sumList, key).Err?;
          assert SumsOf(keys[..j + 1], sumList).Err?;
          SumsHalted(keys, j + 1, sumList);
          return Err(KeyError);
        }
        total := total + sumList[i][key];
      }
      assert sumList[..|sumList|] == sumList;
      done := done + [(keys[j], total)];
    }
    assert keys[..|keys|] == keys;
    r := Ok(done);
  }

  lemma SumsHalted(keys: seq<RankKey>, n: nat, sumList: seq<Ranks>)
    requires n <= |keys| && SumsOf(keys[..n], sumList).Err?
    ensures SumsOf(keys, sumList) == Err(KeyError)
  {
    var j :| 0 <= j < n && SumFor(sumList, KeyText(keys[..n][j])).Err?;
    assert keys[..n][j] == keys[j];
  }

  /** One cycle of one statistic as the script computes it. */
  method AverageCycle(inputs: seq<Data>, param: string, cycle: string) returns (r: Result<Sums>)
    ensures r == CycleOf(inputs, param, cycle)
  {
    var sumList := SumList(inputs, param, cycle);
    if sumList.Err? {
      return Err(sumList.error);
    }
    var shared := Common(sumList.value);
    if shared.Err? {
      return Err(shared.error);
    }
    var keys := RenameFirstSentinel(SortedInts(shared.value));
    r := SumRanks(keys, sumList.value);
  }

  /** One statistic of the first file as the script computes it. */
  method AverageParam(table: Table, param: string, cycles: Cycles, inputs: seq<Data>) returns (r: Result<Table>)
    ensures r == ParamResult(table, param, cycles, inputs)
  {
    var order := CycleOrder(cycles);
    if order.Err? {
      return Err(order.error);
    }
    if |order.value| == 0 {
      return Ok(table);
    }
    if param !in Keys(table) {
      return Err(KeyError);
    }
    var cs := AverageCycles(order.value, inputs, param);
    if cs.Err? {
      return Err(cs.error);
    }
    r := Ok(Assign(table, param, cs.value));
  }

  /** The cycles of one statistic in the given order, each averaged as the script does. */
  method AverageCycles(order: seq<string>, inputs: seq<Data>, param: string) returns (r: Result<seq<(string, Sums)>>)
    ensures r == ParamCycles(order, inputs, param)
  {
    var f := (c: string) => CycleOf(inputs, param, c);
    var cs: seq<(string, Sums)> := [];
    for j := 0 to |order|
      invariant EachKey(order[..j], f) == Ok(cs)
    {
      EachKeyStep(order, j, f);
      var sums := AverageCycle(inputs, param, order[j]);
      if sums.Err? {
        EachKeyHalted(order, j + 1, f);
        return Err(sums.error);
      }
      cs := cs + [(order[j], sums.value)];
    }
    assert order[..|order|] == order;
    r := Ok(cs);
  }

  /** The table of one target as the script computes it. */
  method AverageTable(inputs: seq<Data>) returns (r: Result<Table>)
    requires |inputs| > 0
    ensures r == TableOf(inputs)
  {
    var params := inputs[0];
    var table := EmptyTable();
    for i := 0 to |params|
      invariant TableFrom(params[..i], inputs) == Ok(table)
    {
      assert params[..i + 1][..i] == params[..i];
      var next := AverageParam(table, params[i].0, params[i].1, inputs);
      if next.Err? {
        TableFromHalted(params, i + 1, inputs);
        return Err(next.error);
      }
      table := next.value;
    }
    assert params[..|params|] == params;
    r := Ok(table);
  }

  /** The loop that loads a target's data files, skipping those that fail. */
  method LoadInputs(files: seq<string>, load: Loader) returns (inputs: seq<Data>)
    ensures inputs == Loaded(files, load)
  {
    inputs := [];
    for i := 0 to |files|
      invariant inputs == Loaded(files[..i], load)
    {
      assert files[..i + 1][..i] == files[..i];
      var d := load(files[i]);
      if d.Some? {
        inputs := inputs + [d.value];
      }
    }
    assert files[..|files|] == files;
  }

  /** One target as written: skipped unless sane and some data file loads, otherwise its
      table. */
  method AverageTarget(t: Target, load: Loader) returns (r: Result<Option<Averaged>>)
    ensures r == TargetResult(t, load)
  {
    if !SaneTarget(t) {
      return Ok(None);
    }
    var inputs := LoadInputs(t.dataFiles.value, load);
    if |inputs| == 0 {
      return Ok(None);
    }
    var table := AverageTable(inputs);
    if table.Err? {
      return Err(table.error);
    }
    r := Ok(Some(Averaged(t.outputFile.value, |inputs|, table.value)));
  }

  /** `main` as written, past reading the configuration. */
  method AverageAll(c: Config, load: Loader) returns (r: AvgRun)
    ensures r == AvgMain(c, load)
  {
    if c.targets.None? || |c.targets.value| == 0 {
      return AvgRun([], Some(Exit));
    }
    var ts := c.targets.value;
    var target := (t: Target) => TargetResult(t, load);
    var written: seq<Averaged> := [];
    for i := 0 to |ts|
      invariant RunTargets(ts[..i], target) == AvgRun(written, None)
    {
      var one := AverageTarget(ts[i].1, load);
      RunTargetsStep(ts, i, target);
      if one.Err? {
        RunTargetsHalted(ts, i + 1, target);
        return AvgRun(written, Some(one.error));
      }
      if one.value.Some? {
        written := written + [one.value.value];
      }
    }
    assert ts[..|ts|] == ts;
    r := AvgRun(written, None);
  }
}
