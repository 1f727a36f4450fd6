/**
 * The entry loop of edge_coverage/worker.py and edge_coverage/main.py: every entry, in mtime
 * order, adds the edges of its showmap lines to the covered set and then writes the number of
 * entries checked so far and the number of covered edges into its bin. The two scripts differ
 * in how a target is sanitised and in whether bin 0 is defaulted afterwards.
 */
module EdgeCount {
  import opened Wrappers
  import opened Sorting
  import opened TimeBin
  import opened Targets
  import opened Corpus
  import opened Novelty
  import opened Series
  import opened EdgeSingle

  /** What the loop has built: `covered_edges`, `len(checked_entries)` and the writes made to
      `edge_no_dict` and `entry_no_dict`, in order. */
  datatype Tally = Tally(covered: set<int>, checked: nat, edgeWrites: seq<Write>, entryWrites: seq<Write>)

  const NoTally := Tally({}, 0, [], [])

  /** One entry: its parsed lines' edges join the covered set, then both dictionaries are
      written at the entry's bin. A line whose fields are not numbers aborts. */
  function CountEntry(t: Tally, e: Entry, lines: seq<string>): Result<Tally> {
    match ParseAll(lines)
    case Err(err) => Err(err)
    case Ok(hits) =>
      var c := t.covered + EdgesOf(hits);
      Ok(Tally(c, t.checked + 1, t.edgeWrites + [Write(e.bin, |c|)], t.entryWrites + [Write(e.bin, t.checked + 1)]))
  }

  /** The loop over the first `|entries|` entries. */
  function CountEntries(entries: seq<Entry>, showmap: Showmap): Result<Tally> {
    if |entries| == 0 then Ok(NoTally)
    else match CountEntries(entries[..|entries| - 1], showmap)
      case Err(err) => Err(err)
      case Ok(t) => CountEntry(t, entries[|entries| - 1], showmap(entries[|entries| - 1].path))
  }

  /** The writes follow the entries: the i-th entry writes its bin, `entry_no_dict` gets the
      position i + 1, and the edge counts never decrease and end at the covered set's size. */
  ghost predicate TallyOf(t: Tally, entries: seq<Entry>) {
    t.checked == |entries| == |t.edgeWrites| == |t.entryWrites| &&
    (forall i :: 0 <= i < |entries| ==> t.entryWrites[i] == Write(entries[i].bin, i + 1)) &&
    (forall i :: 0 <= i < |entries| ==> t.edgeWrites[i].bin == entries[i].bin) &&
    (forall i :: 0 <= i < |entries| ==> 0 <= t.edgeWrites[i].value <= |t.covered|) &&
    ValuesNonDecreasing(t.edgeWrites) &&
    (|entries| > 0 ==> t.edgeWrites[|entries| - 1].value == |t.covered|)
  }

  /** The last step of the loop, unfolded. */
  lemma CountEntriesLast(entries: seq<Entry>, showmap: Showmap)
    requires |entries| > 0 && CountEntries(entries, showmap).Ok?
    ensures var init := entries[..|entries| - 1];
      var e := entries[|entries| - 1];
      CountEntries(init, showmap).Ok? &&
      CountEntries(entries, showmap) == CountEntry(CountEntries(init, showmap).value, e, showmap(e.path))
  {
  }

  /** One entry keeps `TallyOf`: the covered set only grows, so its size does too. */
  lemma CountEntryKeeps(t: Tally, entries: seq<Entry>, e: Entry, lines: seq<string>)
    requires TallyOf(t, entries) && CountEntry(t, e, lines).Ok?
    ensures TallyOf(CountEntry(t, e, lines).value, entries + [e])
    ensures t.covered <= CountEntry(t, e, lines).value.covered
  {
    var hits := ParseAll(lines).value;
    var c := t.covered + EdgesOf(hits);
    var u := CountEntry(t, e, lines).value;
    assert u == Tally(c, t.checked + 1, t.edgeWrites + [Write(e.bin, |c|)], t.entryWrites + [Write(e.bin, t.checked + 1)]);
    assert |c| == |t.covered| + |EdgesOf(hits) - t.covered|;
    var es := entries + [e];
    forall i | 0 <= i < |es| ensures u.entryWrites[i] == Write(es[i].bin, i + 1) && u.edgeWrites[i].bin == es[i].bin {
      if i < |entries| {
        assert u.entryWrites[i] == t.entryWrites[i] && u.edgeWrites[i] == t.edgeWrites[i] && es[i] == entries[i];
      }
    }
  }

  /** The loop's tally always follows its entries. */
  lemma {:induction false} CountEntriesShape(entries: seq<Entry>, showmap: Showmap)
    requires CountEntries(entries, showmap).Ok?
    ensures TallyOf(CountEntries(entries, showmap).value, entries)
  {
    if |entries| > 0 {
      var init := entries[..|entries| - 1];
      var e := entries[|entries| - 1];
      CountEntriesLast(entries, showmap);
      CountEntriesShape(init, showmap);
      CountEntryKeeps(CountEntries(init, showmap).value, init, e, showmap(e.path));
      FrontLast(entries);
    }
  }

  /** A bad entry stops the loop, and nothing after it runs. */
  lemma {:induction false} CountEntriesAbort(entries: seq<Entry>, showmap: Showmap, n: int)
    requires 0 <= n <= |entries| && CountEntries(entries[..n], showmap).Err?
    ensures CountEntries(entries, showmap) == CountEntries(entries[..n], showmap)
    decreases |entries| - n
  {
    if n < |entries| {
      assert entries[..n + 1][..n] == entries[..n];
      CountEntriesAbort(entries, showmap, n + 1);
    } else {
      assert entries[..n] == entries;
    }
  }

  /** One turn of the entry loop, as `ScanCounts` takes it. */
  lemma CountStep(entries: seq<Entry>, showmap: Showmap, i: int, t: Tally)
    requires 0 <= i < |entries| && CountEntries(entries[..i], showmap) == Ok(t)
    ensures var e := entries[i];
      CountEntries(entries[..i + 1], showmap) == CountEntry(t, e, showmap(e.path))
  {
    assert entries[..i + 1][..i] == entries[..i];
  }

  /** The edges named by the well-formed lines of the entries' showmap outputs: what
      `covered_edges` should hold once the entries are checked. */
  ghost function EdgesSeen(entries: seq<Entry>, showmap: Showmap): set<int> {
    if |entries| == 0 then {}
    else
      var lines := showmap(entries[|entries| - 1].path);
      EdgesSeen(entries[..|entries| - 1], showmap) + (if ParseAll(lines).Ok? then EdgesOf(ParseAll(lines).value) else {})
  }

  /** The covered set of a completed loop holds exactly the edges its entries name. */
  lemma {:induction false} CountEntriesCovered(entries: seq<Entry>, showmap: Showmap)
    requires CountEntries(entries, showmap).Ok?
    ensures CountEntries(entries, showmap).value.covered == EdgesSeen(entries, showmap)
  {
    if |entries| > 0 {
      CountEntriesLast(entries, showmap);
      CountEntriesCovered(entries[..|entries| - 1], showmap);
    }
  }

  /** The loop over a prefix of the entries made the first writes of the whole loop. */
  lemma {:induction false} CountEntriesPrefix(entries: seq<Entry>, showmap: Showmap, n: int)
    requires CountEntries(entries, showmap).Ok? && 0 <= n <= |entries|
    ensures CountEntries(entries[..n], showmap).Ok? && |CountEntries(entries, showmap).value.edgeWrites| == |entries|
    ensures CountEntries(entries[..n], showmap).value.edgeWrites == CountEntries(entries, showmap).value.edgeWrites[..n]
  {
    CountEntriesLength(entries, showmap);
    if n < |entries| {
      var init := entries[..|entries| - 1];
      var e := entries[|entries| - 1];
      CountEntriesLast(entries, showmap);
      var t := CountEntries(init, showmap).value;
      var u := CountEntries(entries, showmap).value;
      CountEntriesLength(init, showmap);
      CountEntryKeepsWrites(t, e, showmap(e.path));
      CountEntriesPrefix(init, showmap, n);
      TakeTake(entries, |init|, n);
      TakeTake(u.edgeWrites, |init|, n);
    } else {
      TakeAll(entries);
    }
  }

  /** One entry leaves the earlier edge writes in place. */
  lemma CountEntryKeepsWrites(t: Tally, e: Entry, lines: seq<string>)
    requires CountEntry(t, e, lines).Ok?
    ensures CountEntry(t, e, lines).value.edgeWrites[..|t.edgeWrites|] == t.edgeWrites
  {
    var u := CountEntry(t, e, lines).value;
    assert u.edgeWrites == t.edgeWrites + [Write(e.bin, |u.covered|)];
  }

  /** One write per entry. */
  lemma {:induction false} CountEntriesLength(entries: seq<Entry>, showmap: Showmap)
    requires CountEntries(entries, showmap).Ok?
    ensures |CountEntries(entries, showmap).value.edgeWrites| == |entries|
  {
    if |entries| > 0 {
      CountEntriesLast(entries, showmap);
      CountEntriesLength(entries[..|entries| - 1], showmap);
    }
  }

  /** `edge_no_dict` and `entry_no_dict` of one target. */
  datatype Series2 = Series2(edges: map<int, int>, entries: map<int, int>)

  /** The dictionaries the loop leaves, with bin 0 defaulted to 0 in both when asked
      (edge_coverage/worker.py) or left alone (edge_coverage/main.py). */
  function TallySeries(t: Tally, defaultZero: bool): (s: Series2)
    ensures defaultZero ==> 0 in s.edges && 0 in s.entries
  {
    if defaultZero then Series2(DefaultZero(LastWrite(t.edgeWrites)), DefaultZero(LastWrite(t.entryWrites)))
    else Series2(LastWrite(t.edgeWrites), LastWrite(t.entryWrites))
  }

  /** The dictionaries of one target's sorted entries, or the error that stopped the loop. */
  function CountSeries(entries: seq<Entry>, showmap: Showmap, defaultZero: bool): (r: Result<Series2>)
    ensures r.Ok? && defaultZero ==> 0 in r.value.edges && 0 in r.value.entries
  {
    match CountEntries(entries, showmap)
    case Err(e) => Err(e)
    case Ok(t) => Ok(TallySeries(t, defaultZero))
  }

  /** The entry loop with its local set, list length and dictionaries; the line loop is
      `CoverLines`. */
  method ScanCounts(entries: seq<Entry>, showmap: Showmap, defaultZero: bool) returns (r: Result<Series2>)
    ensures r == CountSeries(entries, showmap, defaultZero)
  {
    var covered: set<int> := {};
    var checked := 0;
    var edgeNo: map<int, int> := map[];
    var entryNo: map<int, int> := map[];
    ghost var t := NoTally;
    for i := 0 to |entries|
      invariant CountEntries(entries[..i], showmap) == Ok(t)
      invariant t.covered == covered && t.checked == checked
      invariant edgeNo == LastWrite(t.edgeWrites) && entryNo == LastWrite(t.entryWrites)
    {
      var e := entries[i];
      var c := CoverLines(covered, showmap(e.path));
      if c.Err? {
        CountStep(entries, showmap, i, t);
        CountEntriesAbort(entries, showmap, i + 1);
        return Err(c.error);
      }
      CountStep(entries, showmap, i, t);
      covered := c.value;
      checked := checked + 1;
      entryNo := entryNo[e.bin := checked];
      edgeNo := edgeNo[e.bin := |covered|];
      LastWriteSnoc(t.edgeWrites, Write(e.bin, |covered|));
      LastWriteSnoc(t.entryWrites, Write(e.bin, checked));
      t := CountEntry(t, e, showmap(e.path)).value;
    }
    assert entries[..|entries|] == entries;
    if defaultZero {
      if 0 !in edgeNo {
        edgeNo := edgeNo[0 := 0];
      }
      if 0 !in entryNo {
        entryNo := entryNo[0 := 0];
      }
    }
    r := Ok(Series2(edgeNo, entryNo));
  }

  /** `entry_no_dict[b]` is the position of the last entry of bin `b`: the number of entries
      checked up to and including it, whatever the novelty of their lines. */
  lemma EntryCountAtLastOfBin(entries: seq<Entry>, showmap: Showmap, defaultZero: bool, i: int)
    requires CountSeries(entries, showmap, defaultZero).Ok? && 0 <= i < |entries|
    requires forall j :: i < j < |entries| ==> entries[j].bin != entries[i].bin
    ensures var s := CountSeries(entries, showmap, defaultZero).value;
      entries[i].bin in s.entries && s.entries[entries[i].bin] == i + 1
  {
    var t := CountEntries(entries, showmap).value;
    CountEntriesShape(entries, showmap);
    LastWriteWins(t.entryWrites, i);
  }

  /** `edge_no_dict[b]` is the number of distinct edges named by the entries up to and
      including the last entry of bin `b`. */
  lemma EdgeCountAtLastOfBin(entries: seq<Entry>, showmap: Showmap, defaultZero: bool, i: int)
    requires CountSeries(entries, showmap, defaultZero).Ok? && 0 <= i < |entries|
    requires forall j :: i < j < |entries| ==> entries[j].bin != entries[i].bin
    ensures var s := CountSeries(entries, showmap, defaultZero).value;
      entries[i].bin in s.edges && s.edges[entries[i].bin] == |EdgesSeen(entries[..i + 1], showmap)|
  {
    var t := CountEntries(entries, showmap).value;
    var w := t.edgeWrites;
    EdgeWriteBins(entries, showmap);
    EdgeWriteAt(entries, showmap, i);
    assert forall j :: i < j < |w| ==> w[j].bin != w[i].bin;
    LastWriteWins(w, i);
    assert CountSeries(entries, showmap, defaultZero).value == TallySeries(t, defaultZero);
  }

  /** Entry `j`'s edge write is at its bin. */
  lemma EdgeWriteBins(entries: seq<Entry>, showmap: Showmap)
    requires CountEntries(entries, showmap).Ok?
    ensures var w := CountEntries(entries, showmap).value.edgeWrites;
      |w| == |entries| && forall j :: 0 <= j < |w| ==> w[j].bin == entries[j].bin
  {
    CountEntriesShape(entries, showmap);
  }

  /** The edge write of entry `i` is at its bin, with the number of edges seen up to it. */
  lemma EdgeWriteAt(entries: seq<Entry>, showmap: Showmap, i: int)
    requires CountEntries(entries, showmap).Ok? && 0 <= i < |entries|
    ensures var w := CountEntries(entries, showmap).value.edgeWrites;
      |w| == |entries| && w[i] == Write(entries[i].bin, |EdgesSeen(entries[..i + 1], showmap)|)
  {
    var p := entries[..i + 1];
    CountEntriesPrefix(entries, showmap, i + 1);
    CountEntriesShape(p, showmap);
    CountEntriesCovered(p, showmap);
    CountEntriesShape(entries, showmap);
    assert p[i] == entries[i];
  }

  /** Both dictionaries hold exactly the bins of the entries, plus bin 0 when it is
      defaulted: with no default, bin 0 is missing unless some entry falls into it. */
  lemma SeriesBins(entries: seq<Entry>, showmap: Showmap, defaultZero: bool)
    requires CountSeries(entries, showmap, defaultZero).Ok?
    ensures var s := CountSeries(entries, showmap, defaultZero).value;
      var bins := set i | 0 <= i < |entries| :: entries[i].bin;
      s.edges.Keys == s.entries.Keys == (if defaultZero then bins + {0} else bins)
  {
    var t := CountEntries(entries, showmap).value;
    CountEntriesShape(entries, showmap);
    var bins := set i | 0 <= i < |entries| :: entries[i].bin;
    assert BinsOf(t.entryWrites) == bins by {
      forall b | b in bins ensures b in BinsOf(t.entryWrites) {
        var i :| 0 <= i < |entries| && entries[i].bin == b;
        assert t.entryWrites[i].bin == b;
      }
    }
    assert BinsOf(t.edgeWrites) == bins by {
      forall b | b in bins ensures b in BinsOf(t.edgeWrites) {
        var i :| 0 <= i < |entries| && entries[i].bin == b;
        assert t.edgeWrites[i].bin == b;
      }
    }
  }

  /** When the entries' bins are non-negative and come in order, both dictionaries grow with
      the bin, every bin is non-negative, and no entry count exceeds the number of entries. */
  lemma CountSeriesMonotone(entries: seq<Entry>, showmap: Showmap, defaultZero: bool)
    requires CountSeries(entries, showmap, defaultZero).Ok?
    requires forall i, j :: 0 <= i < j < |entries| ==> entries[i].bin <= entries[j].bin
    requires forall i :: 0 <= i < |entries| ==> entries[i].bin >= 0
    ensures var s := CountSeries(entries, showmap, defaultZero).value;
      MonotoneMap(s.edges) && MonotoneMap(s.entries) &&
      (forall b :: b in s.entries ==> b >= 0 && s.entries[b] <= |entries|)
  {
    CountEntriesShape(entries, showmap);
    TallyMonotone(CountEntries(entries, showmap).value, entries, defaultZero);
  }

  /** The dictionaries of a tally of ordered, non-negative bins grow with the bin. */
  lemma TallyMonotone(t: Tally, entries: seq<Entry>, defaultZero: bool)
    requires TallyOf(t, entries)
    requires forall i, j :: 0 <= i < j < |entries| ==> entries[i].bin <= entries[j].bin
    requires forall i :: 0 <= i < |entries| ==> entries[i].bin >= 0
    ensures var s := TallySeries(t, defaultZero);
      MonotoneMap(s.edges) && MonotoneMap(s.entries) &&
      (forall b :: b in s.entries ==> b >= 0 && s.entries[b] <= |entries|)
  {
    assert BinsNonDecreasing(t.entryWrites) && BinsNonDecreasing(t.edgeWrites);
    assert ValuesNonDecreasing(t.entryWrites);
    WrittenMonotone(t.edgeWrites);
    WrittenMonotone(t.entryWrites);
    LastWriteValues(t.entryWrites);
  }

  /** The sorted entries of a target, binned at discovery from `start`: no limit applies. */
  function CountedEntries(job: Job, env: Env, start: int): (r: seq<Entry>)
    requires job.target.entryDirs.Some?
    ensures SortedBy(r, (e: Entry) => e.mtime) && Binned(r, start, env.margin)
  {
    var found := FoundEntries(job.target.entryDirs.value, env.listing, env.patterns, env.matches,
                              FromStart(start, env.margin), None);
    FoundBinned(job.target.entryDirs.value, env.listing, env.patterns, env.matches, start, env.margin, None);
    SortedBinned(found, start, env.margin);
    SortByMtime(found)
  }

  /** One target: sanitised by `variant`, skipped (`Ok(None)`) when rejected; `int(start_time)`
      raises `TypeError` on a null start; then the entry loop, with bin 0 defaulted afterwards
      when `defaultZero` holds. */
  function CountOutcome(job: Job, env: Env, variant: Variant, defaultZero: bool): (r: Result<Option<Series2>>)
    ensures r.Ok? && r.value.Some? && defaultZero ==> 0 in r.value.value.edges && 0 in r.value.value.entries
    ensures r.Ok? && r.value.Some? ==>
      (Sanitize(job.target, env.fs, variant).Ok? && Sanitize(job.target, env.fs, variant).value.Some? &&
       Sanitize(job.target, env.fs, variant).value.value.Given?)
  {
    match Sanitize(job.target, env.fs, variant)
    case Err(e) => Err(e)
    case Ok(None) => Ok(None)
    case Ok(Some(st)) =>
      match ResolveStart(st, [], NullRaises)
      case Err(e) => Err(e)
      case Ok(start) =>
        match CountSeries(CountedEntries(job, env, start), env.showmap, defaultZero)
        case Err(e) => Err(e)
        case Ok(s) => Ok(Some(s))
  }

  /** The steps of the loop body for one target, in the scripts' order. */
  method CountTarget(job: Job, env: Env, variant: Variant, defaultZero: bool) returns (r: Result<Option<Series2>>)
    ensures r == CountOutcome(job, env, variant, defaultZero)
  {
    var sane := SanitizeTarget(job.target, env.fs, variant);
    if sane.Err? {
      return Err(sane.error);
    }
    if sane.value.None? {
      return Ok(None);
    }
    var start := ResolveStart(sane.value.value, [], NullRaises);
    if start.Err? {
      return Err(start.error);
    }
    var found := CollectEntries(job.target.entryDirs.value, env.listing, env.patterns, env.matches,
                                FromStart(start.value, env.margin), None);
    var sorted := SortByMtime(found);
    var s := ScanCounts(sorted, env.showmap, defaultZero);
    if s.Err? {
      return Err(s.error);
    }
    r := Ok(Some(s.value));
  }

  /** A null `start_time` that survives sanitising always raises, before any entry is read. */
  lemma NullStartRaises(job: Job, env: Env, variant: Variant, defaultZero: bool)
    requires Sanitize(job.target, env.fs, variant) == Ok(Some(Null))
    ensures CountOutcome(job, env, variant, defaultZero) == Err(TypeError)
  {
  }

  /** When no entry is older than the start time, both dictionaries of a processed target grow
      with the bin, every bin is non-negative, and the entry counts stop at the number of
      entries. */
  lemma CountOutcomeMonotone(job: Job, env: Env, variant: Variant, defaultZero: bool)
    requires CountOutcome(job, env, variant, defaultZero).Ok? && CountOutcome(job, env, variant, defaultZero).value.Some?
    requires forall e :: e in CountedEntries(job, env, Sanitize(job.target, env.fs, variant).value.value.value) ==>
      Sanitize(job.target, env.fs, variant).value.value.value <= e.mtime
    ensures var s := CountOutcome(job, env, variant, defaultZero).value.value;
      var n := |CountedEntries(job, env, Sanitize(job.target, env.fs, variant).value.value.value)|;
      MonotoneMap(s.edges) && MonotoneMap(s.entries) &&
      (forall b :: b in s.entries ==> b >= 0 && s.entries[b] <= n)
  {
    var start := Sanitize(job.target, env.fs, variant).value.value.value;
    var entries := CountedEntries(job, env, start);
    assert CountOutcome(job, env, variant, defaultZero) == Ok(Some(CountSeries(entries, env.showmap, defaultZero).value));
    CountedEntriesOrdered(job, env, start);
    CountSeriesMonotone(entries, env.showmap, defaultZero);
  }

  /** When no entry is older than the start time, the sorted entries' bins are non-negative
      and never decrease. */
  lemma CountedEntriesOrdered(job: Job, env: Env, start: int)
    requires job.target.entryDirs.Some?
    requires forall e :: e in CountedEntries(job, env, start) ==> start <= e.mtime
    ensures var entries := CountedEntries(job, env, start);
      (forall i, j :: 0 <= i < j < |entries| ==> entries[i].bin <= entries[j].bin) &&
      (forall i :: 0 <= i < |entries| ==> entries[i].bin >= 0)
  {
    var entries := CountedEntries(job, env, start);
    SortedBinsFromStart(entries, start, env.margin);
    forall i | 0 <= i < |entries| ensures entries[i].bin >= 0 {
      assert entries[i] in entries;
      BinNonNegative(entries[i].mtime, start, env.margin);
    }
  }

  /** `edge_group_dict` and `entry_group_dict`. */
  datatype Groups2 = Groups2(edges: map<string, map<int, int>>, entries: map<string, map<int, int>>)

  const NoGroups2 := Groups2(map[], map[])

  /** A target's name with the outcome of processing it. */
  datatype Done2 = Done2(name: string, outcome: Result<Option<Series2>>)

  /** The outcome of every target. */
  function CountOutcomes(jobs: seq<Job>, env: Env, variant: Variant, defaultZero: bool): (ds: seq<Done2>)
    ensures |ds| == |jobs|
    ensures forall k :: 0 <= k < |jobs| ==> ds[k] == Done2(jobs[k].name, CountOutcome(jobs[k], env, variant, defaultZero))
  {
    seq(|jobs|, k requires 0 <= k < |jobs| => Done2(jobs[k].name, CountOutcome(jobs[k], env, variant, defaultZero)))
  }

  /** The dictionaries after the targets, and the error that ended the run. */
  datatype Run2 = Run2(groups: Groups2, halt: Option<PyError>)

  /** The target loop over the first `|ds|` targets: rejected targets are skipped, a processed
      one stores its two dictionaries under its name, and an error ends the loop, leaving what
      the earlier targets stored. */
  function RunAll(g: Groups2, ds: seq<Done2>): Run2 {
    if |ds| == 0 then Run2(g, None)
    else
      var r := RunAll(g, ds[..|ds| - 1]);
      var d := ds[|ds| - 1];
      if r.halt.Some? then r
      else match d.outcome
        case Err(e) => Run2(r.groups, Some(e))
        case Ok(None) => r
        case Ok(Some(s)) => Run2(Groups2(r.groups.edges[d.name := s.edges], r.groups.entries[d.name := s.entries]), None)
  }

  /** One more target, before the loop has stopped: an error stops it, a rejected target
      changes nothing, a processed one stores its two dictionaries. */
  lemma RunAllStep(g: Groups2, ds: seq<Done2>, i: int)
    requires 0 <= i < |ds| && RunAll(g, ds[..i]).halt.None?
    ensures var r := RunAll(g, ds[..i]).groups;
      RunAll(g, ds[..i + 1]) ==
        match ds[i].outcome
        case Err(e) => Run2(r, Some(e))
        case Ok(None) => Run2(r, None)
        case Ok(Some(s)) => Run2(Groups2(r.edges[ds[i].name := s.edges], r.entries[ds[i].name := s.entries]), None)
  {
    assert ds[..i + 1][..i] == ds[..i];
  }

  /** Once the loop has stopped, later targets change nothing. */
  lemma {:induction false} RunAllHalted(g: Groups2, ds: seq<Done2>, i: int)
    requires 0 <= i <= |ds| && RunAll(g, ds[..i]).halt.Some?
    ensures RunAll(g, ds) == RunAll(g, ds[..i])
    decreases |ds| - i
  {
    if i < |ds| {
      assert ds[..i + 1][..i] == ds[..i];
      RunAllHalted(g, ds, i + 1);
    } else {
      assert ds[..i] == ds;
    }
  }

  /** The loop stops exactly when some target raises, and then with the first target's error. */
  lemma {:induction false} RunAllHalt(g: Groups2, ds: seq<Done2>)
    ensures RunAll(g, ds).halt.None? <==> forall k :: 0 <= k < |ds| ==> ds[k].outcome.Ok?
    ensures RunAll(g, ds).halt.Some? ==>
      exists k :: 0 <= k < |ds| && ds[k].outcome == Err(RunAll(g, ds).halt.value) && (forall j :: 0 <= j < k ==> ds[j].outcome.Ok?)
  {
    if |ds| > 0 {
      var init := ds[..|ds| - 1];
      RunAllHalt(g, init);
      var r := RunAll(g, init);
      if r.halt.Some? {
        var k :| 0 <= k < |init| && init[k].outcome == Err(r.halt.value) && forall j :: 0 <= j < k ==> init[j].outcome.Ok?;
        assert ds[k] == init[k];
      } else {
        assert forall k :: 0 <= k < |init| ==> ds[k] == init[k];
      }
    }
  }

  /** Both dictionaries hold the same names: those they started with and those of processed
      targets. */
  lemma {:induction false} RunAllKeys(g: Groups2, ds: seq<Done2>)
    requires g.edges.Keys == g.entries.Keys
    ensures var r := RunAll(g, ds).groups;
      r.edges.Keys == r.entries.Keys &&
      forall n :: n in r.edges ==> n in g.edges || exists k :: 0 <= k < |ds| && ds[k].name == n && ds[k].outcome.Ok? && ds[k].outcome.value.Some?
  {
    if |ds| > 0 {
      var init := ds[..|ds| - 1];
      RunAllKeys(g, init);
      var r := RunAll(g, ds).groups;
      forall n | n in r.edges
        ensures n in g.edges || exists k :: 0 <= k < |ds| && ds[k].name == n && ds[k].outcome.Ok? && ds[k].outcome.value.Some?
      {
        if n !in g.edges && n != ds[|ds| - 1].name {
          var k :| 0 <= k < |init| && init[k].name == n && init[k].outcome.Ok? && init[k].outcome.value.Some?;
          assert ds[k] == init[k];
        }
      }
    }
  }

  /** Target names are the keys of a dictionary (edge_coverage/main.py) or are assumed unique
      (edge_coverage/worker.py), so no two share one. */
  predicate DistinctNames2(ds: seq<Done2>) {
    forall i, j :: 0 <= i < j < |ds| ==> ds[i].name != ds[j].name
  }

  /** A target reached before any error is stored exactly when it was processed, with its own
      two dictionaries; later errors do not undo it. */
  lemma {:induction false} RunAllStored(ds: seq<Done2>, k: int)
    requires DistinctNames2(ds) && 0 <= k < |ds|
    requires forall j :: 0 <= j <= k ==> ds[j].outcome.Ok?
    ensures var g := RunAll(NoGroups2, ds).groups;
      var n := ds[k].name;
      (n in g.edges <==> ds[k].outcome.value.Some?) && (n in g.entries <==> ds[k].outcome.value.Some?) &&
      (ds[k].outcome.value.Some? ==> g.edges[n] == ds[k].outcome.value.value.edges && g.entries[n] == ds[k].outcome.value.value.entries)
  {
    var init := ds[..|ds| - 1];
    var last := ds[|ds| - 1];
    var r := RunAll(NoGroups2, init);
    if k == |ds| - 1 {
      RunAllHalt(NoGroups2, init);
      assert forall j :: 0 <= j < |init| ==> init[j].outcome.Ok? by {
        assert forall j :: 0 <= j < |init| ==> init[j] == ds[j];
      }
      RunAllKeys(NoGroups2, init);
      forall j | 0 <= j < |init| ensures init[j].name != last.name {
        assert init[j] == ds[j];
      }
    } else {
      assert init[k] == ds[k];
      RunAllStored(init, k);
      assert last.name != ds[k].name;
    }
  }
}
