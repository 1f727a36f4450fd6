/**
 * `Worker.run` of edge_coverage/single.py: for each target, the corpus entries are checked in
 * modification-time order; after each entry three dictionaries record, for the entry's bin,
 * the number of covered edges, of new bucketed paths and of new raw paths.
 */
module EdgeSingle {
  import opened Wrappers
  import opened Sorting
  import opened TimeBin
  import opened Targets
  import opened Corpus
  import opened Novelty
  import opened Series

  /** Running showmap on an entry and reading its output file: the output's lines. */
  type Showmap = string -> seq<string>

  /** Everything a worker reads besides its targets: the stats files, the directory listings,
      the name patterns and their matcher, `max_span`, the bin width and showmap. */
  datatype Env = Env(fs: FileSystem, listing: Listing, patterns: seq<string>, matches: NameMatch,
                     maxSpan: int, margin: Width, showmap: Showmap)

  /** The bin widths the unit names map to: a second, a minute or an hour. */
  type Width = m: int | m == 1 || m == 60 || m == 3600 witness 3600

  /** `bin_limit = (3600 / bucket_margin) * int(max_span)`: the number of bins in `max_span`
      hours; the quotient is exact for the three widths. */
  function BinLimit(env: Env): int {
    (3600 / env.margin) * env.maxSpan
  }

  /** A target with the name it is stored under (`target['name']`). */
  datatype Job = Job(name: string, target: Target)

  /** The state of the entry loop: the tracker, `len(checked_entries)`, `len(new_paths)`,
      `len(new_paths_alt)`, and the writes made so far to `edge_no_dict`, `entry_no_dict`
      and `entry_no_dict_alt`. */
  datatype Progress = Progress(tracker: Tracker, checked: nat, newPaths: nat, newPathsAlt: nat,
                               edgeWrites: seq<Write>, entryWrites: seq<Write>, entryAltWrites: seq<Write>)

  const NoProgress := Progress(EmptyTracker, 0, 0, 0, [], [], [])

  /** One entry: its showmap lines are observed, then the counters and the three dictionaries
      are updated for the entry's bin. A bad line aborts. */
  function CheckEntry(p: Progress, e: Entry, lines: seq<string>): Result<Progress> {
    match ObserveLines(p.tracker, lines)
    case Err(err) => Err(err)
    case Ok(v) =>
      var n := p.newPaths + (if v.isNew then 1 else 0);
      var na := p.newPathsAlt + (if v.isNewAlt then 1 else 0);
      Ok(Progress(v.tracker, p.checked + 1, n, na,
                  p.edgeWrites + [Write(e.bin, |v.tracker.covered|)],
                  p.entryWrites + [Write(e.bin, n)],
                  p.entryAltWrites + [Write(e.bin, na)]))
  }

  /** The entry loop over the first `|entries|` entries. */
  function CheckEntries(entries: seq<Entry>, showmap: Showmap): Result<Progress> {
    if |entries| == 0 then Ok(NoProgress)
    else match CheckEntries(entries[..|entries| - 1], showmap)
      case Err(err) => Err(err)
      case Ok(p) => CheckEntry(p, entries[|entries| - 1], showmap(entries[|entries| - 1].path))
  }

  /** The counters agree with the tracker: every entry is checked once, and the two histories
      stay in lockstep so that new bucketed paths never outnumber new raw paths. */
  ghost predicate CountsAgree(p: Progress, n: nat) {
    p.checked == n && p.newPaths <= p.newPathsAlt <= p.checked &&
    Lockstep(p.tracker) && NoDuplicates(p.tracker.hist) && NoDuplicates(p.tracker.histAlt)
  }

  lemma {:induction false} CheckEntriesCounts(entries: seq<Entry>, showmap: Showmap)
    requires CheckEntries(entries, showmap).Ok?
    ensures CountsAgree(CheckEntries(entries, showmap).value, |entries|)
  {
    if |entries| == 0 {
      EmptyLockstep();
    } else {
      var init := entries[..|entries| - 1];
      CheckEntriesCounts(init, showmap);
      var p := CheckEntries(init, showmap).value;
      var lines := showmap(entries[|entries| - 1].path);
      var hits := ParseAll(lines).value;
      ObserveHitsLockstep(p.tracker, hits);
      ObserveHitsNoDuplicates(p.tracker, hits);
    }
  }

  /** The writes made by the loop: one per entry to each dictionary, at the entry's bin. */
  ghost predicate WritesAt(p: Progress, entries: seq<Entry>) {
    |p.edgeWrites| == |entries| && |p.entryWrites| == |entries| && |p.entryAltWrites| == |entries| &&
    forall i :: 0 <= i < |entries| ==>
      p.edgeWrites[i].bin == entries[i].bin && p.entryWrites[i].bin == entries[i].bin &&
      p.entryAltWrites[i].bin == entries[i].bin
  }

  /** The values written are never negative and never exceed the current counters, and each
      entry's bucketed count is at most its raw count. */
  ghost predicate WritesBounded(p: Progress) {
    |p.entryWrites| == |p.entryAltWrites| &&
    (forall i :: 0 <= i < |p.edgeWrites| ==> 0 <= p.edgeWrites[i].value <= |p.tracker.covered|) &&
    forall i :: 0 <= i < |p.entryWrites| ==>
      0 <= p.entryWrites[i].value <= p.entryAltWrites[i].value <= p.newPathsAlt &&
      p.entryWrites[i].value <= p.newPaths
  }

  /** The values written never decrease from entry to entry. */
  ghost predicate WritesGrow(p: Progress) {
    ValuesNonDecreasing(p.edgeWrites) && ValuesNonDecreasing(p.entryWrites) && ValuesNonDecreasing(p.entryAltWrites)
  }

  /** The covered set only grows from entry to entry. */
  lemma CheckEntryCoveredGrows(p: Progress, e: Entry, lines: seq<string>)
    requires CheckEntry(p, e, lines).Ok?
    ensures p.tracker.covered <= CheckEntry(p, e, lines).value.tracker.covered
    ensures |p.tracker.covered| <= |CheckEntry(p, e, lines).value.tracker.covered|
  {
    ObserveHitsEdges(p.tracker, ParseAll(lines).value);
    var q := CheckEntry(p, e, lines).value;
    SubsetCard(p.tracker.covered, q.tracker.covered);
  }

  lemma {:induction false} SubsetCard(a: set<int>, b: set<int>)
    requires a <= b
    ensures |a| <= |b|
    decreases |a|
  {
    if a != {} {
      var x := Pick(a);
      SubsetCard(a - {x}, b - {x});
    }
  }

  /** What one entry does to the progress, field by field. */
  lemma CheckEntryFields(p: Progress, e: Entry, lines: seq<string>)
    requires CheckEntry(p, e, lines).Ok?
    ensures var q := CheckEntry(p, e, lines).value;
      q.checked == p.checked + 1 &&
      (q.newPaths == p.newPaths || q.newPaths == p.newPaths + 1) &&
      (q.newPathsAlt == p.newPathsAlt || q.newPathsAlt == p.newPathsAlt + 1) &&
      q.edgeWrites == p.edgeWrites + [Write(e.bin, |q.tracker.covered|)] &&
      q.entryWrites == p.entryWrites + [Write(e.bin, q.newPaths)] &&
      q.entryAltWrites == p.entryAltWrites + [Write(e.bin, q.newPathsAlt)]
  {
  }

  /** Appending a write no smaller than every earlier one keeps the values non-decreasing. */
  lemma GrowSnoc(ws: seq<Write>, w: Write)
    requires ValuesNonDecreasing(ws) && forall i :: 0 <= i < |ws| ==> ws[i].value <= w.value
    ensures ValuesNonDecreasing(ws + [w])
  {
  }

  lemma CheckEntryWritesAt(p: Progress, init: seq<Entry>, e: Entry, lines: seq<string>)
    requires CheckEntry(p, e, lines).Ok? && WritesAt(p, init)
    ensures WritesAt(CheckEntry(p, e, lines).value, init + [e])
  {
    CheckEntryFields(p, e, lines);
    var q := CheckEntry(p, e, lines).value;
    WritesAtSnoc(p, q, init, e, |q.tracker.covered|, q.newPaths, q.newPathsAlt);
  }

  lemma WritesAtSnoc(p: Progress, q: Progress, init: seq<Entry>, e: Entry, a: int, b: int, c: int)
    requires WritesAt(p, init)
    requires q.edgeWrites == p.edgeWrites + [Write(e.bin, a)]
    requires q.entryWrites == p.entryWrites + [Write(e.bin, b)]
    requires q.entryAltWrites == p.entryAltWrites + [Write(e.bin, c)]
    ensures WritesAt(q, init + [e])
  {
    assert forall i :: 0 <= i < |init| ==> (init + [e])[i] == init[i];
  }

  lemma CheckEntryWritesBounded(p: Progress, e: Entry, lines: seq<string>)
    requires CheckEntry(p, e, lines).Ok? && WritesBounded(p) && p.newPaths <= p.newPathsAlt
    requires ObserveLines(p.tracker, lines).value.isNew ==> ObserveLines(p.tracker, lines).value.isNewAlt
    ensures WritesBounded(CheckEntry(p, e, lines).value)
  {
    CheckEntryFields(p, e, lines);
    CheckEntryCoveredGrows(p, e, lines);
  }

  lemma CheckEntryWritesGrow(p: Progress, e: Entry, lines: seq<string>)
    requires CheckEntry(p, e, lines).Ok? && WritesBounded(p) && WritesGrow(p)
    ensures WritesGrow(CheckEntry(p, e, lines).value)
  {
    CheckEntryFields(p, e, lines);
    CheckEntryCoveredGrows(p, e, lines);
    var q := CheckEntry(p, e, lines).value;
    GrowSnoc(p.edgeWrites, Write(e.bin, |q.tracker.covered|));
    GrowSnoc(p.entryWrites, Write(e.bin, q.newPaths));
    GrowSnoc(p.entryAltWrites, Write(e.bin, q.newPathsAlt));
  }

  /** One more entry keeps all three write invariants. */
  lemma CheckEntryWrites(p: Progress, init: seq<Entry>, e: Entry, lines: seq<string>)
    requires CheckEntry(p, e, lines).Ok? && CountsAgree(p, |init|)
    requires WritesAt(p, init) && WritesBounded(p) && WritesGrow(p)
    ensures var q := CheckEntry(p, e, lines).value;
      WritesAt(q, init + [e]) && WritesBounded(q) && WritesGrow(q)
  {
    ObserveHitsLockstep(p.tracker, ParseAll(lines).value);
    CheckEntryWritesAt(p, init, e, lines);
    CheckEntryWritesBounded(p, e, lines);
    CheckEntryWritesGrow(p, e, lines);
  }

  /** The loop's last step. */
  lemma CheckEntriesLast(entries: seq<Entry>, showmap: Showmap)
    requires |entries| > 0 && CheckEntries(entries, showmap).Ok?
    ensures var init := entries[..|entries| - 1];
      var e := entries[|entries| - 1];
      entries == init + [e] && CheckEntries(init, showmap).Ok? &&
      CheckEntries(entries, showmap) == CheckEntry(CheckEntries(init, showmap).value, e, showmap(e.path))
  {
  }

  /** One more step of the loop. */
  lemma CheckEntriesStep(entries: seq<Entry>, showmap: Showmap, i: int)
    requires 0 <= i < |entries| && CheckEntries(entries[..i], showmap).Ok?
    ensures CheckEntries(entries[..i + 1], showmap) == CheckEntry(CheckEntries(entries[..i], showmap).value, entries[i], showmap(entries[i].path))
  {
    TakeNext(entries, i);
  }

  lemma {:induction false} CheckEntriesWrites(entries: seq<Entry>, showmap: Showmap)
    requires CheckEntries(entries, showmap).Ok?
    ensures var p := CheckEntries(entries, showmap).value;
      WritesAt(p, entries) && WritesBounded(p) && WritesGrow(p)
  {
    if |entries| > 0 {
      var init := entries[..|entries| - 1];
      var e := entries[|entries| - 1];
      CheckEntriesLast(entries, showmap);
      CheckEntriesWrites(init, showmap);
      CheckEntriesCounts(init, showmap);
      CheckEntryWrites(CheckEntries(init, showmap).value, init, e, showmap(e.path));
    }
  }

  /** An entry whose showmap output holds a line with a non-integer field stops the target,
      whatever comes after it, unless an earlier entry already did. */
  lemma {:induction false} CheckEntriesAbort(entries: seq<Entry>, showmap: Showmap, i: int)
    requires 0 <= i < |entries| && ParseAll(showmap(entries[i].path)).Err?
    ensures CheckEntries(entries, showmap).Err?
    decreases |entries|
  {
    var init := entries[..|entries| - 1];
    if i < |entries| - 1 {
      assert init[i] == entries[i];
      CheckEntriesAbort(init, showmap, i);
    }
  }

  /** The three dictionaries of one target. */
  datatype Series3 = Series3(edges: map<int, int>, entries: map<int, int>, entriesAlt: map<int, int>)

  /** The dictionaries after the loop: bin 0 is defaulted to 0 for the edge and bucketed
      entry counts only. */
  function SeriesOf(p: Progress): (s: Series3)
    ensures 0 in s.edges && 0 in s.entries
    ensures s.edges.Keys == BinsOf(p.edgeWrites) + {0}
    ensures s.entries.Keys == BinsOf(p.entryWrites) + {0}
    ensures s.entriesAlt.Keys == BinsOf(p.entryAltWrites)
  {
    Series3(DefaultZero(LastWrite(p.edgeWrites)), DefaultZero(LastWrite(p.entryWrites)), LastWrite(p.entryAltWrites))
  }

  /** Entries checked in order of non-decreasing, non-negative bins leave three dictionaries
      whose counts grow with the bin; in every bin the bucketed count is at most the raw
      count, and both have the same bins apart from the defaulted bin 0. */
  lemma SeriesMonotone(entries: seq<Entry>, showmap: Showmap)
    requires EntrySeries(entries, showmap).Ok?
    requires forall i, j :: 0 <= i <= j < |entries| ==> entries[i].bin <= entries[j].bin
    requires forall i :: 0 <= i < |entries| ==> entries[i].bin >= 0
    ensures var s := EntrySeries(entries, showmap).value;
      MonotoneMap(s.edges) && MonotoneMap(s.entries) && MonotoneMap(s.entriesAlt) &&
      s.entries.Keys == s.entriesAlt.Keys + {0} &&
      forall b :: b in s.entriesAlt ==> b >= 0 && s.entries[b] <= s.entriesAlt[b]
  {
    var p := CheckEntries(entries, showmap).value;
    assert EntrySeries(entries, showmap).value == SeriesOf(p);
    CheckEntriesWrites(entries, showmap);
    WritesFollowBins(p, entries);
    WrittenMonotone(p.edgeWrites);
    WrittenMonotone(p.entryWrites);
    WrittenMonotone(p.entryAltWrites);
    LastWriteDominated(p.entryWrites, p.entryAltWrites);
  }

  /** The writes inherit the order and the sign of the entries' bins. */
  lemma WritesFollowBins(p: Progress, entries: seq<Entry>)
    requires WritesAt(p, entries) && WritesBounded(p)
    requires forall i, j :: 0 <= i <= j < |entries| ==> entries[i].bin <= entries[j].bin
    requires forall i :: 0 <= i < |entries| ==> entries[i].bin >= 0
    ensures BinsNonDecreasing(p.edgeWrites) && BinsNonDecreasing(p.entryWrites) && BinsNonDecreasing(p.entryAltWrites)
    ensures forall i :: 0 <= i < |p.edgeWrites| ==> p.edgeWrites[i].bin >= 0 && p.edgeWrites[i].value >= 0
    ensures forall i :: 0 <= i < |p.entryWrites| ==> p.entryWrites[i].bin >= 0 && p.entryWrites[i].value >= 0
    ensures forall i :: 0 <= i < |p.entryAltWrites| ==> p.entryAltWrites[i].bin >= 0 && p.entryAltWrites[i].value >= 0
    ensures forall b :: b in BinsOf(p.entryAltWrites) ==> b >= 0
  {
  }

  /** A failed entry ends the loop: nothing after it is looked at. */
  lemma {:induction false} CheckEntriesAbortAt(entries: seq<Entry>, showmap: Showmap, i: int)
    requires 0 <= i <= |entries| && CheckEntries(entries[..i], showmap).Err?
    ensures CheckEntries(entries, showmap) == CheckEntries(entries[..i], showmap)
    decreases |entries| - i
  {
    if i < |entries| {
      assert entries[..i + 1][..i] == entries[..i];
      CheckEntriesAbortAt(entries, showmap, i + 1);
    } else {
      assert entries[..i] == entries;
    }
  }

  /** One target of `Worker.run`: skipped (`Ok(None)`) when `sanitize_target` rejects it, its
      three dictionaries when every step succeeds, or the error that ends the thread. Entries
      are found with bin 0 and the `bin_limit` test, sorted by modification time, then binned
      from the start time, which falls back to the earliest entry when it is `null`. */
  function TargetOutcome(job: Job, env: Env): (r: Result<Option<Series3>>)
    ensures r.Ok? && r.value.Some? ==> 0 in r.value.value.edges && 0 in r.value.value.entries
  {
    match Sanitize(job.target, env.fs, StatsOrExplicit)
    case Err(e) => Err(e)
    case Ok(None) => Ok(None)
    case Ok(Some(start)) =>
      var sorted := SortedCorpus(job, env);
      match ResolveStart(start, sorted, NullIsEarliest)
      case Err(e) => Err(e)
      case Ok(s) =>
        match EntrySeries(Rebinned(sorted, s, env.margin), env.showmap)
        case Err(e) => Err(e)
        case Ok(series) => Ok(Some(series))
  }

  /** The dictionaries left by the entry loop, or the error that stopped it. */
  function EntrySeries(entries: seq<Entry>, showmap: Showmap): (r: Result<Series3>)
    ensures r.Ok? ==> 0 in r.value.edges && 0 in r.value.entries
  {
    match CheckEntries(entries, showmap)
    case Err(e) => Err(e)
    case Ok(p) => Ok(SeriesOf(p))
  }

  /** The steps of `Worker.run` for one target, with the entry loop keeping the tracker, the
      counters and the three dictionaries as local state. */
  method ProcessTarget(job: Job, env: Env) returns (r: Result<Option<Series3>>)
    ensures r == TargetOutcome(job, env)
  {
    var sane := SanitizeTarget(job.target, env.fs, StatsOrExplicit);
    if sane.Err? {
      return Err(sane.error);
    }
    if sane.value.None? {
      return Ok(None);
    }
    var found := CollectEntries(job.target.entryDirs.value, env.listing, env.patterns, env.matches,
                                Deferred, Some(BinLimit(env)));
    var sorted := SortByMtime(found);
    var start := ResolveStart(sane.value.value, sorted, NullIsEarliest);
    if start.Err? {
      return Err(start.error);
    }
    var entries := Rebin(sorted, start.value, env.margin);
    var series := ScanEntries(entries, env.showmap);
    if series.Err? {
      return Err(series.error);
    }
    r := Ok(Some(series.value));
  }

  /** The loop's local state holds what the progress records: the tracker, the counters and
      the last write to each bin of the three histories. */
  ghost predicate Mirrors(p: Progress, tracker: Tracker, checked: nat, newPaths: nat, newPathsAlt: nat,
                          edgeNo: map<int, int>, entryNo: map<int, int>, entryNoAlt: map<int, int>) {
    p.tracker == tracker && p.checked == checked && p.newPaths == newPaths && p.newPathsAlt == newPathsAlt &&
    edgeNo == LastWrite(p.edgeWrites) && entryNo == LastWrite(p.entryWrites) && entryNoAlt == LastWrite(p.entryAltWrites)
  }

  lemma MirrorsStep(p: Progress, e: Entry, lines: seq<string>, v: Verdict, tracker: Tracker, checked: nat,
                    newPaths: nat, newPathsAlt: nat, edgeNo: map<int, int>, entryNo: map<int, int>, entryNoAlt: map<int, int>)
    requires Mirrors(p, tracker, checked, newPaths, newPathsAlt, edgeNo, entryNo, entryNoAlt)
    requires ObserveLines(tracker, lines) == Ok(v)
    ensures CheckEntry(p, e, lines).Ok?
    ensures var n := newPaths + (if v.isNew then 1 else 0);
      var na := newPathsAlt + (if v.isNewAlt then 1 else 0);
      Mirrors(CheckEntry(p, e, lines).value, v.tracker, checked + 1, n, na,
              edgeNo[e.bin := |v.tracker.covered|], entryNo[e.bin := n], entryNoAlt[e.bin := na])
  {
    var n := newPaths + (if v.isNew then 1 else 0);
    var na := newPathsAlt + (if v.isNewAlt then 1 else 0);
    var q := Progress(v.tracker, checked + 1, n, na, p.edgeWrites + [Write(e.bin, |v.tracker.covered|)],
                      p.entryWrites + [Write(e.bin, n)], p.entryAltWrites + [Write(e.bin, na)]);
    assert CheckEntry(p, e, lines) == Ok(q);
    LastWriteSnoc(p.edgeWrites, Write(e.bin, |v.tracker.covered|));
    LastWriteSnoc(p.entryWrites, Write(e.bin, n));
    LastWriteSnoc(p.entryAltWrites, Write(e.bin, na));
  }

  /** The entry loop: the tracker, the counters and the three dictionaries are local state,
      updated entry by entry; bin 0 is defaulted afterwards. */
  method ScanEntries(entries: seq<Entry>, showmap: Showmap) returns (r: Result<Series3>)
    ensures r == EntrySeries(entries, showmap)
  {
    var tracker, checked, newPaths, newPathsAlt := EmptyTracker, 0, 0, 0;
    var edgeNo, entryNo, entryNoAlt := map[], map[], map[];
    ghost var p := NoProgress;
    for i := 0 to |entries|
      invariant CheckEntries(entries[..i], showmap) == Ok(p)
      invariant Mirrors(p, tracker, checked, newPaths, newPathsAlt, edgeNo, entryNo, entryNoAlt)
    {
      var e := entries[i];
      CheckEntriesStep(entries, showmap, i);
      var v := ScanShowmap(tracker, showmap(e.path));
      if v.Err? {
        CheckEntriesAbortAt(entries, showmap, i + 1);
        return Err(v.error);
      }
      MirrorsStep(p, e, showmap(e.path), v.value, tracker, checked, newPaths, newPathsAlt, edgeNo, entryNo, entryNoAlt);
      p := CheckEntry(p, e, showmap(e.path)).value;
      tracker := v.value.tracker;
      checked := checked + 1;
      if v.value.isNew {
        newPaths := newPaths + 1;
      }
      if v.value.isNewAlt {
        newPathsAlt := newPathsAlt + 1;
      }
      entryNo := entryNo[e.bin := newPaths];
      entryNoAlt := entryNoAlt[e.bin := newPathsAlt];
      edgeNo := edgeNo[e.bin := |tracker.covered|];
    }
    TakeAll(entries);
    if 0 !in edgeNo {
      edgeNo := edgeNo[0 := 0];
    }
    if 0 !in entryNo {
      entryNo := entryNo[0 := 0];
    }
    r := Ok(Series3(edgeNo, entryNo, entryNoAlt));
  }

  /** The corpus of an accepted target: the found entries in modification-time order. */
  function SortedCorpus(job: Job, env: Env): seq<Entry>
    requires job.target.entryDirs.Some?
  {
    SortByMtime(FoundEntries(job.target.entryDirs.value, env.listing, env.patterns, env.matches,
                             Deferred, Some(BinLimit(env))))
  }

  /** When the start time is the earliest entry's (a `null` start) or no later than any entry,
      every bin is non-negative and in mtime order, so the target's three dictionaries grow with
      the bin, and in each bin the bucketed path count is at most the raw one. */
  lemma TargetSeriesMonotone(job: Job, env: Env, start: StartSetting)
    requires Sanitize(job.target, env.fs, StatsOrExplicit) == Ok(Some(start))
    requires start == Null || (start.Given? && forall e :: e in SortedCorpus(job, env) ==> start.value <= e.mtime)
    requires TargetOutcome(job, env).Ok? && TargetOutcome(job, env).value.Some?
    ensures var s := TargetOutcome(job, env).value.value;
      MonotoneMap(s.edges) && MonotoneMap(s.entries) && MonotoneMap(s.entriesAlt) &&
      s.entries.Keys == s.entriesAlt.Keys + {0} &&
      forall b :: b in s.entriesAlt ==> b >= 0 && s.entries[b] <= s.entriesAlt[b]
  {
    var sorted := SortedCorpus(job, env);
    var st := ResolveStart(start, sorted, NullIsEarliest).value;
    var entries := Rebinned(sorted, st, env.margin);
    assert TargetOutcome(job, env) == Ok(Some(EntrySeries(entries, env.showmap).value));
    EntriesFromStart(sorted, st, env.margin, start == Null);
    SeriesMonotone(entries, env.showmap);
  }

  /** Binning sorted entries from a start no later than any of them gives bins in order and
      never negative. */
  lemma EntriesFromStart(sorted: seq<Entry>, start: int, margin: Margin, earliest: bool)
    requires SortedBy(sorted, (e: Entry) => e.mtime)
    requires earliest ==> |sorted| > 0 && start == sorted[0].mtime
    requires !earliest ==> forall e :: e in sorted ==> start <= e.mtime
    ensures var entries := Rebinned(sorted, start, margin);
      (forall i, j :: 0 <= i <= j < |entries| ==> entries[i].bin <= entries[j].bin) &&
      (forall i :: 0 <= i < |entries| ==> entries[i].bin >= 0)
  {
    var entries := Rebinned(sorted, start, margin);
    RebinnedSorted(sorted, start, margin);
    SortedBinsFromStart(entries, start, margin);
    if !earliest {
      forall i | 0 <= i < |entries| ensures entries[i].bin >= 0 {
        assert sorted[i] in sorted;
        BinNonNegative(entries[i].mtime, start, margin);
      }
    }
  }

  /** The `i`-th entry wrote, at its bin, the counts as they stood right after it. */
  lemma {:induction false} WriteOfEntry(entries: seq<Entry>, showmap: Showmap, i: int)
    requires CheckEntries(entries, showmap).Ok? && 0 <= i < |entries|
    ensures CheckEntries(entries[..i + 1], showmap).Ok?
    ensures var q := CheckEntries(entries, showmap).value;
      var p := CheckEntries(entries[..i + 1], showmap).value;
      i < |q.edgeWrites| && i < |q.entryWrites| && i < |q.entryAltWrites| &&
      q.edgeWrites[i] == Write(entries[i].bin, |p.tracker.covered|) &&
      q.entryWrites[i] == Write(entries[i].bin, p.newPaths) &&
      q.entryAltWrites[i] == Write(entries[i].bin, p.newPathsAlt)
  {
    var init := entries[..|entries| - 1];
    var e := entries[|entries| - 1];
    CheckEntriesLast(entries, showmap);
    var m := CheckEntries(init, showmap).value;
    CheckEntryFields(m, e, showmap(e.path));
    if i == |entries| - 1 {
      assert entries[..i + 1] == entries;
      CheckEntriesWrites(init, showmap);
    } else {
      WriteOfEntry(init, showmap, i);
      assert init[..i + 1] == entries[..i + 1];
      assert init[i] == entries[i];
    }
  }

  /** `edge_no_dict[b]`, `entry_no_dict[b]` and `entry_no_dict_alt[b]` hold the covered-edge
      count and the two path counts as they were right after the last entry of bin `b`. */
  lemma SeriesAtLastOfBin(entries: seq<Entry>, showmap: Showmap, i: int)
    requires EntrySeries(entries, showmap).Ok? && 0 <= i < |entries|
    requires forall j :: i < j < |entries| ==> entries[j].bin != entries[i].bin
    ensures CheckEntries(entries[..i + 1], showmap).Ok?
    ensures var s := EntrySeries(entries, showmap).value;
      var p := CheckEntries(entries[..i + 1], showmap).value;
      var b := entries[i].bin;
      b in s.edges && b in s.entries && b in s.entriesAlt &&
      s.edges[b] == |p.tracker.covered| && s.entries[b] == p.newPaths && s.entriesAlt[b] == p.newPathsAlt
  {
    var q := CheckEntries(entries, showmap).value;
    assert EntrySeries(entries, showmap) == Ok(SeriesOf(q));
    CheckEntriesWrites(entries, showmap);
    WriteOfEntry(entries, showmap, i);
    LastWriteAlone(q.edgeWrites, entries, i);
    LastWriteAlone(q.entryWrites, entries, i);
    LastWriteAlone(q.entryAltWrites, entries, i);
  }

  /** A write that no later write to the same bin follows decides that bin. */
  lemma {:induction false} LastWriteAlone(ws: seq<Write>, entries: seq<Entry>, i: int)
    requires |ws| == |entries| && 0 <= i < |entries|
    requires forall j :: 0 <= j < |entries| ==> ws[j].bin == entries[j].bin
    requires forall j :: i < j < |entries| ==> entries[j].bin != entries[i].bin
    ensures ws[i].bin in LastWrite(ws) && LastWrite(ws)[ws[i].bin] == ws[i].value
    ensures ws[i].bin in DefaultZero(LastWrite(ws)) && DefaultZero(LastWrite(ws))[ws[i].bin] == ws[i].value
  {
    LastWriteWins(ws, i);
  }
}
