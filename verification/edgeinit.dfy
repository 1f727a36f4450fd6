/**
 * The initial-seed count of edge_coverage/single.py's `main`: the edges that the seeds in
 * `init_seeds_dir` cover, subtracted from the found-edge series.
 */
module EdgeInit {
  import opened Wrappers
  import opened PyText
  import opened Sorting
  import opened Corpus

  /** The lines of showmap's output for a file. */
  type Output = string -> seq<string>

  /** `int(line.split(':')[0])` for a line of an initial seed's showmap output; `None` stands
      for its `ValueError`. */
  function EdgeIdOf(line: string): Option<int> {
    ParseInt(SplitOn(line, ":")[0])
  }

  /** The edge id of each line. */
  function EdgeIds(lines: seq<string>): (ids: seq<Option<int>>)
    ensures |ids| == |lines| && forall i :: 0 <= i < |lines| ==> ids[i] == EdgeIdOf(lines[i])
  {
    seq(|lines|, i requires 0 <= i < |lines| => EdgeIdOf(lines[i]))
  }

  /** The edges covered by the initial seeds, line by line. The `except IndexError` never
      fires (a split always has a first piece), so a line whose first field is not an integer
      raises `ValueError` and ends the script. */
  function InitCovered(ids: seq<Option<int>>): (r: Result<set<int>>)
    ensures r.Ok? <==> forall i :: 0 <= i < |ids| ==> ids[i].Some?
    ensures r.Err? ==> r.error == ValueError
  {
    if |ids| == 0 then Ok({})
    else match InitCovered(ids[..|ids| - 1])
      case Err(e) => Err(e)
      case Ok(c) =>
        match ids[|ids| - 1]
        case None => Err(ValueError)
        case Some(id) => Ok(c + {id})
  }

  /** The covered set holds exactly the edge ids of the lines. */
  lemma {:induction false} InitCoveredIds(ids: seq<Option<int>>)
    requires InitCovered(ids).Ok?
    ensures forall id :: id in InitCovered(ids).value <==> exists i :: 0 <= i < |ids| && ids[i] == Some(id)
  {
    if |ids| > 0 {
      var init := ids[..|ids| - 1];
      InitCoveredIds(init);
      forall i | 0 <= i < |init| ensures init[i] == ids[i] {
      }
    }
  }

  /** The edge ids of the entries' showmap lines, entry after entry. */
  function AllIds(entries: seq<Entry>, showmap: Output): seq<Option<int>> {
    if |entries| == 0 then []
    else AllIds(entries[..|entries| - 1], showmap) + EdgeIds(showmap(entries[|entries| - 1].path))
  }

  /** `Entry(init_seeds_dir + '/' + f, mtime, 0)` for each listed file, in listing order. */
  function SeedEntries(dir: string, files: seq<FileInfo>): (r: seq<Entry>)
    ensures forall e :: e in r <==> exists f :: f in files && e == Entry(dir + "/" + f.name, f.mtime, 0)
  {
    if |files| == 0 then []
    else SeedEntries(dir, files[..|files| - 1]) + [Entry(dir + "/" + files[|files| - 1].name, files[|files| - 1].mtime, 0)]
  }

  /** The initial seeds sorted by modification time. */
  function InitEntries(dir: string, listing: Listing): (r: seq<Entry>)
    ensures SortedBy(r, (e: Entry) => e.mtime)
    ensures forall e :: e in r <==> exists f :: f in listing(dir) && e == Entry(dir + "/" + f.name, f.mtime, 0)
  {
    var found := SeedEntries(dir, listing(dir));
    var r := SortByMtime(found);
    SameMembers(found, r);
    r
  }

  lemma SameMembers<T>(a: seq<T>, b: seq<T>)
    requires multiset(a) == multiset(b)
    ensures forall x :: x in a <==> x in b
  {
    forall x ensures x in a <==> x in b {
      assert x in a <==> x in multiset(a);
      assert x in b <==> x in multiset(b);
    }
  }

  /** `init_edges`: the number of edges the initial seeds cover. */
  function InitEdges(dir: string, listing: Listing, showmap: Output): Result<nat> {
    match InitCovered(AllIds(InitEntries(dir, listing), showmap))
    case Err(e) => Err(e)
    case Ok(c) => Ok(|c|)
  }

  /** The initial-seed loop of `main`: each sorted seed's showmap lines, each line's edge id
      added to the covered set. */
  method CountInitEdges(dir: string, listing: Listing, showmap: Output) returns (r: Result<nat>)
    ensures r == InitEdges(dir, listing, showmap)
  {
    var entries := InitEntries(dir, listing);
    var covered: set<int> := {};
    for i := 0 to |entries|
      invariant InitCovered(AllIds(entries[..i], showmap)) == Ok(covered)
    {
      AllIdsSnoc(entries, showmap, i);
      var next := AddLines(AllIds(entries[..i], showmap), covered, showmap(entries[i].path));
      if next.Err? {
        InitCoveredAbort(entries, showmap, i + 1);
        return Err(ValueError);
      }
      covered := next.value;
    }
    TakeAll(entries);
    r := Ok(|covered|);
  }

  /** The inner loop: one seed's lines added to the covered set. */
  method AddLines(ghost done: seq<Option<int>>, covered: set<int>, lines: seq<string>) returns (r: Result<set<int>>)
    requires InitCovered(done) == Ok(covered)
    ensures r == InitCovered(done + EdgeIds(lines))
  {
    ghost var ids := EdgeIds(lines);
    var c := covered;
    assert done + ids[..0] == done;
    for j := 0 to |lines|
      invariant InitCovered(done + ids[..j]) == Ok(c)
    {
      var id := EdgeIdOf(lines[j]);
      AddLinesStep(done, ids, j, c);
      if id.None? {
        return Err(ValueError);
      }
      c := c + {id.value};
    }
    assert ids[..|lines|] == ids;
    r := Ok(c);
  }

  /** One line of the inner loop: its id joins the set, or its failure stops the count. */
  lemma AddLinesStep(done: seq<Option<int>>, ids: seq<Option<int>>, j: int, c: set<int>)
    requires 0 <= j < |ids| && InitCovered(done + ids[..j]) == Ok(c)
    ensures ids[j].Some? ==> InitCovered(done + ids[..j + 1]) == Ok(c + {ids[j].value})
    ensures ids[j].None? ==> InitCovered(done + ids) == Err(ValueError)
  {
    AppendTake(done, ids, j);
    InitCoveredSnoc(done + ids[..j], ids[j]);
    if ids[j].None? {
      assert (done + ids)[|done| + j] == ids[j];
    }
  }

  lemma InitCoveredAbort(entries: seq<Entry>, showmap: Output, n: int)
    requires 0 <= n <= |entries| && InitCovered(AllIds(entries[..n], showmap)).Err?
    ensures InitCovered(AllIds(entries, showmap)) == Err(ValueError)
  {
    AllIdsPrefix(entries, showmap, n);
    PrefixAbort(AllIds(entries, showmap), AllIds(entries[..n], showmap));
  }

  /** A line without an edge id in a prefix makes the whole count fail. */
  lemma PrefixAbort(all: seq<Option<int>>, pre: seq<Option<int>>)
    requires |pre| <= |all| && all[..|pre|] == pre && InitCovered(pre).Err?
    ensures InitCovered(all) == Err(ValueError)
  {
    var i :| 0 <= i < |pre| && pre[i].None?;
    assert all[i] == pre[i];
  }

  lemma {:induction false} AllIdsPrefix(entries: seq<Entry>, showmap: Output, n: int)
    requires 0 <= n <= |entries|
    ensures var ids := AllIds(entries[..n], showmap);
      |ids| <= |AllIds(entries, showmap)| && AllIds(entries, showmap)[..|ids|] == ids
    decreases |entries| - n
  {
    if n == |entries| {
      assert entries[..n] == entries;
    } else {
      AllIdsPrefix(entries, showmap, n + 1);
      AllIdsSnoc(entries, showmap, n);
    }
  }

  lemma AppendTake<T>(a: seq<T>, b: seq<T>, j: int)
    requires 0 <= j < |b|
    ensures a + b[..0] == a && a + b[..j + 1] == (a + b[..j]) + [b[j]]
  {
    assert b[..j + 1] == b[..j] + [b[j]];
  }

  lemma InitCoveredSnoc(ids: seq<Option<int>>, id: Option<int>)
    ensures InitCovered(ids + [id]) ==
      match InitCovered(ids)
      case Err(e) => Err(e)
      case Ok(c) => (match id case None => Err(ValueError) case Some(x) => Ok(c + {x}))
  {
    assert (ids + [id])[..|ids|] == ids;
  }

  lemma AllIdsSnoc(entries: seq<Entry>, showmap: Output, i: int)
    requires 0 <= i < |entries|
    ensures AllIds(entries[..i + 1], showmap) == AllIds(entries[..i], showmap) + EdgeIds(showmap(entries[i].path))
  {
    TakeNext(entries, i);
  }
}
