/**
 * The corpus of one target: the entry files found in its entry directories, sorted by
 * modification time, with the start time resolved and each entry's time bin set. Every
 * aggregation script starts this way (edge_coverage/single.py, edge_coverage/worker.py,
 * edge_coverage/main.py, crash/main.py, real_path_counter.py).
 */
module Corpus {
  import opened Wrappers
  import opened Sorting
  import opened TimeBin
  import opened Targets

  /** A file of a directory listing: its name and its whole-second modification time. */
  datatype FileInfo = FileInfo(name: string, mtime: int)

  /** `Entry(path, m_time, bin_no)`. */
  datatype Entry = Entry(path: string, mtime: int, bin: int)

  /** `os.listdir` of a directory together with `os.stat` of each file, in listing order. */
  type Listing = string -> seq<FileInfo>

  /** `re.fullmatch(pattern, name) is not None`. */
  type NameMatch = (string, string) -> bool

  /** A bin width in seconds. */
  type Margin = m: int | m > 0 witness 1

  /** How an entry's bin is set when the entry is found: left at 0 until the start time is known
      (edge_coverage/single.py, real_path_counter.py), or computed at once. */
  datatype Binning = Deferred | FromStart(start: int, margin: Margin)

  function InitialBin(b: Binning, mtime: int): int {
    match b
    case Deferred => 0
    case FromStart(start, margin) => BinOf(mtime, start, margin)
  }

  /** Some pattern matches the whole name. */
  predicate AnyMatch(patterns: seq<string>, matches: NameMatch, name: string) {
    exists k :: 0 <= k < |patterns| && matches(patterns[k], name)
  }

  /** `entry.bin_no > bin_limit` rejects the entry (edge_coverage/single.py only). */
  predicate Admitted(bin: int, limit: Option<int>) {
    limit.None? || bin <= limit.value
  }

  /** The entry a file contributes, if any. */
  function FileEntry(dir: string, f: FileInfo, patterns: seq<string>, matches: NameMatch,
                     binning: Binning, limit: Option<int>): Option<Entry>
  {
    if AnyMatch(patterns, matches, f.name) && Admitted(InitialBin(binning, f.mtime), limit)
    then Some(Entry(dir + "/" + f.name, f.mtime, InitialBin(binning, f.mtime)))
    else None
  }

  /** The pattern loop for one file: the first matching pattern creates the entry and `break`s;
      a rejected entry `continue`s with the next pattern. The later patterns are matched
      against the file's own name, so each one that matches rejects the file again, and a file
      yields at most one entry however many patterns match it. (edge_coverage/single.py has
      already rebound the name to the joined path when it continues.) */
  method MatchFile(dir: string, f: FileInfo, patterns: seq<string>, matches: NameMatch,
                   binning: Binning, limit: Option<int>) returns (e: Option<Entry>)
    ensures e.Some? <==> AnyMatch(patterns, matches, f.name) && Admitted(InitialBin(binning, f.mtime), limit)
    ensures e.Some? ==> e.value == Entry(dir + "/" + f.name, f.mtime, InitialBin(binning, f.mtime))
  {
    e := None;
    var k := 0;
    while k < |patterns|
      invariant 0 <= k <= |patterns| && e.None?
      invariant forall q :: 0 <= q < k ==> !matches(patterns[q], f.name) || !Admitted(InitialBin(binning, f.mtime), limit)
    {
      if matches(patterns[k], f.name) {
        var entry := Entry(dir + "/" + f.name, f.mtime, InitialBin(binning, f.mtime));
        if entry.bin > (if limit.Some? then limit.value else entry.bin) {
          k := k + 1;
          continue;
        }
        e := Some(entry);
        break;
      }
      k := k + 1;
    }
  }

  /** The entries of the first `|files|` files of one directory, in listing order. */
  function DirEntries(dir: string, files: seq<FileInfo>, patterns: seq<string>, matches: NameMatch,
                      binning: Binning, limit: Option<int>): seq<Entry>
  {
    if |files| == 0 then []
    else
      var init := DirEntries(dir, files[..|files| - 1], patterns, matches, binning, limit);
      match FileEntry(dir, files[|files| - 1], patterns, matches, binning, limit)
      case None => init
      case Some(e) => init + [e]
  }

  /** The entries of all directories, in directory order. */
  function FoundEntries(dirs: seq<string>, listing: Listing, patterns: seq<string>, matches: NameMatch,
                        binning: Binning, limit: Option<int>): seq<Entry>
  {
    if |dirs| == 0 then []
    else
      var last := dirs[|dirs| - 1];
      FoundEntries(dirs[..|dirs| - 1], listing, patterns, matches, binning, limit) +
        DirEntries(last, listing(last), patterns, matches, binning, limit)
  }

  /** Every found entry comes from a listed file whose name some pattern matches. */
  lemma {:induction false} DirEntriesMatch(dir: string, files: seq<FileInfo>, patterns: seq<string>, matches: NameMatch,
                                           binning: Binning, limit: Option<int>)
    ensures |DirEntries(dir, files, patterns, matches, binning, limit)| <= |files|
    ensures forall e :: e in DirEntries(dir, files, patterns, matches, binning, limit) ==>
      exists f :: f in files && AnyMatch(patterns, matches, f.name) && e == Entry(dir + "/" + f.name, f.mtime, InitialBin(binning, f.mtime))
  {
    if |files| > 0 {
      var init := files[..|files| - 1];
      DirEntriesMatch(dir, init, patterns, matches, binning, limit);
      forall e | e in DirEntries(dir, init, patterns, matches, binning, limit)
        ensures exists f :: f in files && AnyMatch(patterns, matches, f.name) && e == Entry(dir + "/" + f.name, f.mtime, InitialBin(binning, f.mtime))
      {
        var f :| f in init && AnyMatch(patterns, matches, f.name) && e == Entry(dir + "/" + f.name, f.mtime, InitialBin(binning, f.mtime));
        assert f in files;
      }
      assert files[|files| - 1] in files;
    }
  }

  /** The loop over one directory's listing. */
  method CollectDir(dir: string, files: seq<FileInfo>, patterns: seq<string>, matches: NameMatch,
                    binning: Binning, limit: Option<int>) returns (entries: seq<Entry>)
    ensures entries == DirEntries(dir, files, patterns, matches, binning, limit)
  {
    entries := [];
    for j := 0 to |files|
      invariant entries == DirEntries(dir, files[..j], patterns, matches, binning, limit)
    {
      var e := MatchFile(dir, files[j], patterns, matches, binning, limit);
      assert files[..j + 1][..j] == files[..j];
      if e.Some? {
        entries := entries + [e.value];
      }
    }
    assert files[..|files|] == files;
  }

  /** The loops over the entry directories and their listings. */
  method CollectEntries(dirs: seq<string>, listing: Listing, patterns: seq<string>, matches: NameMatch,
                        binning: Binning, limit: Option<int>) returns (entries: seq<Entry>)
    ensures entries == FoundEntries(dirs, listing, patterns, matches, binning, limit)
  {
    entries := [];
    for i := 0 to |dirs|
      invariant entries == FoundEntries(dirs[..i], listing, patterns, matches, binning, limit)
    {
      var found := CollectDir(dirs[i], listing(dirs[i]), patterns, matches, binning, limit);
      assert dirs[..i + 1][..i] == dirs[..i];
      entries := entries + found;
    }
    assert dirs[..|dirs|] == dirs;
  }

  /** `entries.sort(key=lambda x: x.m_time)`: stable, ascending modification time. */
  function SortByMtime(entries: seq<Entry>): (r: seq<Entry>)
    ensures SortedBy(r, (e: Entry) => e.mtime)
    ensures multiset(r) == multiset(entries)
  {
    SortBy(entries, (e: Entry) => e.mtime)
  }

  /** What a `null` start time does: fall back to the earliest entry, or make `int(None)`
      raise `TypeError`. */
  datatype NullStart = NullIsEarliest | NullRaises

  /** The start time used for binning. */
  function ResolveStart(s: StartSetting, sorted: seq<Entry>, onNull: NullStart): (r: Result<int>)
    ensures s.Given? ==> r == Ok(s.value)
    ensures s == Null && onNull == NullIsEarliest ==> (r.Ok? <==> |sorted| > 0)
    ensures r.Ok? && s == Null ==> onNull == NullIsEarliest && r.value == sorted[0].mtime
    ensures r.Err? ==> r.error in {TypeError, IndexError, KeyError}
  {
    match s
    case Given(v) => Ok(v)
    case Absent => Err(KeyError)
    case Null =>
      if onNull == NullRaises then Err(TypeError)
      else if |sorted| == 0 then Err(IndexError)
      else
        assert onNull == NullIsEarliest;
        Ok(sorted[0].mtime)
  }

  /** Every entry with its bin set from the start time. */
  function Rebinned(entries: seq<Entry>, start: int, margin: Margin): (r: seq<Entry>)
    ensures |r| == |entries|
    ensures forall i :: 0 <= i < |r| ==> r[i] == entries[i].(bin := BinOf(entries[i].mtime, start, margin))
  {
    seq(|entries|, i requires 0 <= i < |entries| => entries[i].(bin := BinOf(entries[i].mtime, start, margin)))
  }

  /** The loop that sets every entry's bin once the start time is known. */
  method Rebin(entries: seq<Entry>, start: int, margin: Margin) returns (r: seq<Entry>)
    ensures r == Rebinned(entries, start, margin)
  {
    r := entries;
    for i := 0 to |r|
      invariant |r| == |entries|
      invariant forall k :: 0 <= k < i ==> r[k] == entries[k].(bin := BinOf(entries[k].mtime, start, margin))
      invariant forall k :: i <= k < |r| ==> r[k] == entries[k]
    {
      r := r[i := r[i].(bin := BinOf(r[i].mtime, start, margin))];
    }
  }

  /** Setting the bins keeps the order by modification time, and each entry's bin is that of
      its own modification time. */
  lemma RebinnedSorted(entries: seq<Entry>, start: int, margin: Margin)
    requires SortedBy(entries, (e: Entry) => e.mtime)
    ensures SortedBy(Rebinned(entries, start, margin), (e: Entry) => e.mtime)
    ensures Binned(Rebinned(entries, start, margin), start, margin)
  {
    var r := Rebinned(entries, start, margin);
    assert forall i :: 0 <= i < |r| ==> r[i].mtime == entries[i].mtime;
  }

  /** Each entry carries the bin of its own modification time. */
  ghost predicate Binned(entries: seq<Entry>, start: int, margin: Margin) {
    forall i :: 0 <= i < |entries| ==> entries[i].bin == BinOf(entries[i].mtime, start, margin)
  }

  /** With bins computed at discovery, every entry found carries the bin of its own
      modification time. */
  lemma {:induction false} FoundBinned(dirs: seq<string>, listing: Listing, patterns: seq<string>, matches: NameMatch,
                                       start: int, margin: Margin, limit: Option<int>)
    ensures forall e :: e in FoundEntries(dirs, listing, patterns, matches, FromStart(start, margin), limit) ==>
      e.bin == BinOf(e.mtime, start, margin)
  {
    if |dirs| > 0 {
      var last := dirs[|dirs| - 1];
      FoundBinned(dirs[..|dirs| - 1], listing, patterns, matches, start, margin, limit);
      DirEntriesMatch(last, listing(last), patterns, matches, FromStart(start, margin), limit);
    }
  }

  /** Sorting keeps every entry's bin. */
  lemma SortedBinned(found: seq<Entry>, start: int, margin: Margin)
    requires forall e :: e in found ==> e.bin == BinOf(e.mtime, start, margin)
    ensures Binned(SortByMtime(found), start, margin)
  {
    var r := SortByMtime(found);
    forall i | 0 <= i < |r| ensures r[i].bin == BinOf(r[i].mtime, start, margin) {
      assert r[i] in multiset(r);
    }
  }

  /** After the sort, bins never decrease along the entries; when the start time is the earliest
      modification time, every bin is at least 0 and the first entry is in bin 0. */
  lemma SortedBinsFromStart(entries: seq<Entry>, start: int, margin: Margin)
    requires SortedBy(entries, (e: Entry) => e.mtime) && Binned(entries, start, margin)
    ensures forall i, j :: 0 <= i <= j < |entries| ==> entries[i].bin <= entries[j].bin
    ensures |entries| > 0 && start == entries[0].mtime ==>
      entries[0].bin == 0 && forall i :: 0 <= i < |entries| ==> entries[i].bin >= 0
  {
    forall i, j | 0 <= i <= j < |entries| ensures entries[i].bin <= entries[j].bin {
      BinMonotone(entries[i].mtime, entries[j].mtime, start, margin);
    }
    if |entries| > 0 && start == entries[0].mtime {
      forall i | 0 <= i < |entries| ensures entries[i].bin >= 0 {
        BinNonNegative(entries[i].mtime, start, margin);
      }
    }
  }

  /** With bins still 0 at discovery, a non-negative limit rejects nothing: the entries found
      are those found without any limit. */
  lemma {:induction false} DeferredLimitKeepsAll(dirs: seq<string>, listing: Listing, patterns: seq<string>,
                                                 matches: NameMatch, limit: int)
    ensures limit >= 0 ==> FoundEntries(dirs, listing, patterns, matches, Deferred, Some(limit)) ==
                           FoundEntries(dirs, listing, patterns, matches, Deferred, None)
    ensures limit < 0 ==> FoundEntries(dirs, listing, patterns, matches, Deferred, Some(limit)) == []
  {
    if |dirs| > 0 {
      DeferredLimitKeepsAll(dirs[..|dirs| - 1], listing, patterns, matches, limit);
      var last := dirs[|dirs| - 1];
      DirLimitKeepsAll(last, listing(last), patterns, matches, limit);
    }
  }

  lemma {:induction false} DirLimitKeepsAll(dir: string, files: seq<FileInfo>, patterns: seq<string>,
                                            matches: NameMatch, limit: int)
    ensures limit >= 0 ==> DirEntries(dir, files, patterns, matches, Deferred, Some(limit)) ==
                           DirEntries(dir, files, patterns, matches, Deferred, None)
    ensures limit < 0 ==> DirEntries(dir, files, patterns, matches, Deferred, Some(limit)) == []
  {
    if |files| > 0 {
      DirLimitKeepsAll(dir, files[..|files| - 1], patterns, matches, limit);
    }
  }
}
