/**
 * Novelty tracking over showmap output, the heart of `Worker.run` in
 * edge_coverage/single.py: every `edge_id:count` line of an entry's coverage map is checked
 * against two per-edge histories, one of hit-count classes and one of raw counts. The entry
 * is a new path when some edge shows a class (or a raw count) never recorded for it before.
 * The set of covered edges grows with every parsed line.
 */
module Novelty {
  import opened Wrappers
  import opened PyText
  import opened Bucket

  /** One parsed showmap line. */
  datatype Hit = Hit(edge: int, count: int)

  /** The `try` body for one line: `int(line.split(':')[0])`, then `line.split(':')[1]`, then
      `int` of it. A line without a second field raises `IndexError`, which is caught and the
      line skipped (`Ok(None)`); a non-integer field raises `ValueError`, which is not. */
  function ParseLine(line: string): (r: Result<Option<Hit>>)
    ensures r.Err? ==> r.error == ValueError
  {
    var fields := SplitOn(line, ":");
    match ParseInt(fields[0])
    case None => Err(ValueError)
    case Some(e) =>
      if |fields| < 2 then Ok(None)
      else match ParseInt(fields[1])
        case None => Err(ValueError)
        case Some(c) => Ok(Some(Hit(e, c)))
  }

  /** The line showmap writes for a hit. */
  function FormatHit(h: Hit): string {
    IntToString(h.edge) + ":" + IntToString(h.count) + "\n"
  }

  /** Every line in showmap's own format parses back to its hit. */
  lemma ParseFormatHit(h: Hit)
    ensures ParseLine(FormatHit(h)) == Ok(Some(h))
  {
    var a, b := IntToString(h.edge), IntToString(h.count);
    IntToStringChars(h.edge);
    IntToStringChars(h.count);
    assert FormatHit(h) == a + [':'] + (b + "\n");
    SplitOnCharAfter(a, ':', b + "\n");
    assert ':' !in b + "\n" by {
      assert forall i :: 0 <= i < |b| ==> (b + "\n")[i] == b[i];
    }
    SplitOnCharFree(b + "\n", ':');
    ParseIntToString(h.edge);
    ParseIntToString(h.count);
  }

  /** A line without ':' is skipped when its text is a number and aborts the run otherwise: the
      first `int` comes before the index that raises. */
  lemma ParseLineWithoutColon(line: string)
    requires ':' !in line
    ensures ParseLine(line) == if ParseInt(line).Some? then Ok(None) else Err(ValueError)
  {
    SplitOnCharFree(line, ':');
  }

  /** The hits of a whole showmap output, or the error of its first bad line. */
  function ParseAll(lines: seq<string>): (r: Result<seq<Hit>>)
    ensures r.Ok? ==> |r.value| <= |lines|
  {
    if |lines| == 0 then Ok([])
    else match ParseAll(lines[..|lines| - 1])
      case Err(e) => Err(e)
      case Ok(hs) =>
        match ParseLine(lines[|lines| - 1])
        case Err(e) => Err(e)
        case Ok(None) => Ok(hs)
        case Ok(Some(h)) => Ok(hs + [h])
  }

  /** `hitcount_dict` / `hitcount_dict_alt`: per edge, the values seen so far in first-seen order. */
  type History = map<int, seq<int>>

  predicate Seen(h: History, e: int, v: int) {
    e in h && v in h[e]
  }

  predicate NoDuplicates(h: History) {
    forall e, i, j :: e in h && 0 <= i < j < |h[e]| ==> h[e][i] != h[e][j]
  }

  /** One history update: a new edge gets `[v]`, a known edge gets `v` appended if it lacks
      it. The flag says whether anything was recorded. */
  function Record(h: History, e: int, v: int): (r: (History, bool))
    ensures r.1 <==> !Seen(h, e, v)
    ensures forall e', v' :: Seen(r.0, e', v') <==> Seen(h, e', v') || (e' == e && v' == v)
    ensures r.0.Keys == h.Keys + {e}
    ensures forall e' :: e' in h ==> h[e'] <= r.0[e']
    ensures NoDuplicates(h) ==> NoDuplicates(r.0)
  {
    if e !in h then (h[e := [v]], true)
    else if v !in h[e] then (h[e := h[e] + [v]], true)
    else (h, false)
  }

  /** The state a target's entries share: both histories and `covered_edges`. */
  datatype Tracker = Tracker(hist: History, histAlt: History, covered: set<int>)

  /** The tracker after an entry, with `is_new_path` and `is_new_path_alt`. */
  datatype Verdict = Verdict(tracker: Tracker, isNew: bool, isNewAlt: bool)

  const EmptyTracker := Tracker(map[], map[], {})

  /** One parsed line: bucketed history, raw history, then `covered_edges.add`. */
  function ObserveHit(t: Tracker, hit: Hit): Verdict {
    var (h, n) := Record(t.hist, hit.edge, GetBucket(hit.count));
    var (ha, na) := Record(t.histAlt, hit.edge, hit.count);
    Verdict(Tracker(h, ha, t.covered + {hit.edge}), n, na)
  }

  /** All the hits of one entry, in order; the flags are raised by any hit. */
  function ObserveHits(t: Tracker, hits: seq<Hit>): Verdict {
    if |hits| == 0 then Verdict(t, false, false)
    else
      var v := ObserveHits(t, hits[..|hits| - 1]);
      var w := ObserveHit(v.tracker, hits[|hits| - 1]);
      Verdict(w.tracker, v.isNew || w.isNew, v.isNewAlt || w.isNewAlt)
  }

  /** One entry's showmap output: the verdict, or the error that aborts the run. Because an
      error ends the run and discards the target's state, the updates made by the lines before
      a bad line are never observed, and parsing first gives the same outcome as the loop. */
  function ObserveLines(t: Tracker, lines: seq<string>): Result<Verdict> {
    match ParseAll(lines)
    case Err(e) => Err(e)
    case Ok(hs) => Ok(ObserveHits(t, hs))
  }

  /** Some hit of `hits` is on edge `e` with class `v`. */
  predicate BucketIn(hits: seq<Hit>, e: int, v: int) {
    exists k :: 0 <= k < |hits| && hits[k].edge == e && GetBucket(hits[k].count) == v
  }

  /** Some hit of `hits` is on edge `e` with raw count `v`. */
  predicate RawIn(hits: seq<Hit>, e: int, v: int) {
    exists k :: 0 <= k < |hits| && hits[k] == Hit(e, v)
  }

  function EdgesOf(hits: seq<Hit>): set<int> {
    set k | 0 <= k < |hits| :: hits[k].edge
  }

  lemma BucketInSnoc(hits: seq<Hit>, h: Hit)
    ensures forall e, v :: BucketIn(hits + [h], e, v) <==> BucketIn(hits, e, v) || (e == h.edge && v == GetBucket(h.count))
  {
    var hs := hits + [h];
    forall e, v ensures BucketIn(hs, e, v) <==> BucketIn(hits, e, v) || (e == h.edge && v == GetBucket(h.count)) {
      if BucketIn(hs, e, v) {
        var k :| 0 <= k < |hs| && hs[k].edge == e && GetBucket(hs[k].count) == v;
        if k < |hits| {
          assert hits[k] == hs[k];
        }
      }
      if BucketIn(hits, e, v) {
        var k :| 0 <= k < |hits| && hits[k].edge == e && GetBucket(hits[k].count) == v;
        assert hs[k] == hits[k];
      }
      assert hs[|hits|] == h;
    }
  }

  lemma RawInSnoc(hits: seq<Hit>, h: Hit)
    ensures forall e, v :: RawIn(hits + [h], e, v) <==> RawIn(hits, e, v) || Hit(e, v) == h
  {
    var hs := hits + [h];
    forall e, v ensures RawIn(hs, e, v) <==> RawIn(hits, e, v) || Hit(e, v) == h {
      if RawIn(hs, e, v) {
        var k :| 0 <= k < |hs| && hs[k] == Hit(e, v);
        if k < |hits| {
          assert hits[k] == hs[k];
        }
      }
      if RawIn(hits, e, v) {
        var k :| 0 <= k < |hits| && hits[k] == Hit(e, v);
        assert hs[k] == hits[k];
      }
      assert hs[|hits|] == h;
    }
  }

  /** The entry's last hit is applied to the tracker left by the others. */
  lemma ObserveHitsLast(t: Tracker, hits: seq<Hit>)
    requires |hits| > 0
    ensures var init := hits[..|hits| - 1];
      hits == init + [hits[|hits| - 1]] &&
      ObserveHits(t, hits).tracker == ObserveHit(ObserveHits(t, init).tracker, hits[|hits| - 1]).tracker
  {
    FrontLast(hits);
  }

  /** The histories afterwards record exactly what they held before plus the entry's pairs. */
  lemma {:induction false} ObserveHitsSeen(t: Tracker, hits: seq<Hit>)
    ensures forall e, v :: Seen(ObserveHits(t, hits).tracker.hist, e, v) <==> Seen(t.hist, e, v) || BucketIn(hits, e, v)
    ensures forall e, v :: Seen(ObserveHits(t, hits).tracker.histAlt, e, v) <==> Seen(t.histAlt, e, v) || RawIn(hits, e, v)
  {
    if |hits| > 0 {
      var init := hits[..|hits| - 1];
      ObserveHitsSeen(t, init);
      ObserveHitsLast(t, hits);
      BucketInSnoc(init, hits[|hits| - 1]);
      RawInSnoc(init, hits[|hits| - 1]);
    }
  }

  /** Both histories gain exactly the entry's edges as keys, and the covered set gains the
      same edges. */
  lemma {:induction false} ObserveHitsEdges(t: Tracker, hits: seq<Hit>)
    ensures ObserveHits(t, hits).tracker.hist.Keys == t.hist.Keys + EdgesOf(hits)
    ensures ObserveHits(t, hits).tracker.histAlt.Keys == t.histAlt.Keys + EdgesOf(hits)
    ensures ObserveHits(t, hits).tracker.covered == t.covered + EdgesOf(hits)
  {
    if |hits| > 0 {
      var init := hits[..|hits| - 1];
      ObserveHitsEdges(t, init);
      ObserveHitsLast(t, hits);
      EdgesOfSnoc(init, hits[|hits| - 1]);
    }
  }

  /** Each per-edge list only grows, at its end. */
  lemma {:induction false} ObserveHitsGrow(t: Tracker, hits: seq<Hit>)
    ensures forall e :: e in t.hist ==> e in ObserveHits(t, hits).tracker.hist && t.hist[e] <= ObserveHits(t, hits).tracker.hist[e]
    ensures forall e :: e in t.histAlt ==> e in ObserveHits(t, hits).tracker.histAlt && t.histAlt[e] <= ObserveHits(t, hits).tracker.histAlt[e]
  {
    if |hits| > 0 {
      var init := hits[..|hits| - 1];
      ObserveHitsGrow(t, init);
      ObserveHitsLast(t, hits);
      var m := ObserveHits(t, init).tracker;
      var r := ObserveHits(t, hits).tracker;
      forall e | e in t.hist ensures e in r.hist && t.hist[e] <= r.hist[e] {
        assert t.hist[e] <= m.hist[e] <= r.hist[e];
      }
      forall e | e in t.histAlt ensures e in r.histAlt && t.histAlt[e] <= r.histAlt[e] {
        assert t.histAlt[e] <= m.histAlt[e] <= r.histAlt[e];
      }
    }
  }

  /** No per-edge list ever holds a value twice. */
  lemma {:induction false} ObserveHitsNoDuplicates(t: Tracker, hits: seq<Hit>)
    requires NoDuplicates(t.hist) && NoDuplicates(t.histAlt)
    ensures NoDuplicates(ObserveHits(t, hits).tracker.hist)
    ensures NoDuplicates(ObserveHits(t, hits).tracker.histAlt)
  {
    if |hits| > 0 {
      ObserveHitsNoDuplicates(t, hits[..|hits| - 1]);
      ObserveHitsLast(t, hits);
    }
  }

  /** Some hit of the entry carries a class its edge had not recorded in `t`. */
  predicate FreshBucket(t: Tracker, hits: seq<Hit>) {
    exists k :: 0 <= k < |hits| && !Seen(t.hist, hits[k].edge, GetBucket(hits[k].count))
  }

  /** Some hit of the entry carries a raw count its edge had not recorded in `t`. */
  predicate FreshRaw(t: Tracker, hits: seq<Hit>) {
    exists k :: 0 <= k < |hits| && !Seen(t.histAlt, hits[k].edge, hits[k].count)
  }

  lemma FreshSnoc(t: Tracker, hits: seq<Hit>, h: Hit)
    ensures FreshBucket(t, hits + [h]) <==> FreshBucket(t, hits) || !Seen(t.hist, h.edge, GetBucket(h.count))
    ensures FreshRaw(t, hits + [h]) <==> FreshRaw(t, hits) || !Seen(t.histAlt, h.edge, h.count)
  {
    var hs := hits + [h];
    assert forall k :: 0 <= k < |hits| ==> hs[k] == hits[k];
    assert hs[|hits|] == h;
  }

  /** An entry is a new path exactly when one of its (edge, class) pairs was not yet recorded
      when the entry was reached; likewise for raw counts. A pair repeated within the entry
      counts once. */
  lemma {:induction false} ObserveHitsNew(t: Tracker, hits: seq<Hit>)
    ensures ObserveHits(t, hits).isNew <==> FreshBucket(t, hits)
    ensures ObserveHits(t, hits).isNewAlt <==> FreshRaw(t, hits)
  {
    if |hits| > 0 {
      var init := hits[..|hits| - 1];
      var last := hits[|hits| - 1];
      ObserveHitsNew(t, init);
      ObserveHitsSeen(t, init);
      ObserveHitsLast(t, hits);
      FreshSnoc(t, init, last);
      var m := ObserveHits(t, init).tracker;
      if !Seen(t.hist, last.edge, GetBucket(last.count)) && Seen(m.hist, last.edge, GetBucket(last.count)) {
        var k :| 0 <= k < |init| && init[k].edge == last.edge && GetBucket(init[k].count) == GetBucket(last.count);
        assert !Seen(t.hist, init[k].edge, GetBucket(init[k].count));
      }
      if !Seen(t.histAlt, last.edge, last.count) && Seen(m.histAlt, last.edge, last.count) {
        var k :| 0 <= k < |init| && init[k] == Hit(last.edge, last.count);
        assert !Seen(t.histAlt, init[k].edge, init[k].count);
      }
    }
  }

  /** The two histories move in lockstep: they know the same edges, and an edge's classes are
      exactly the classes of its raw counts. */
  ghost predicate Lockstep(t: Tracker) {
    t.hist.Keys == t.histAlt.Keys &&
    forall e, v :: Seen(t.hist, e, v) <==> exists w :: Seen(t.histAlt, e, w) && GetBucket(w) == v
  }

  /** Lockstep holds for the empty tracker and survives every entry; under it, a new bucketed
      path is always a new raw path. */
  lemma ObserveHitsLockstep(t: Tracker, hits: seq<Hit>)
    requires Lockstep(t)
    ensures Lockstep(ObserveHits(t, hits).tracker)
    ensures ObserveHits(t, hits).isNew ==> ObserveHits(t, hits).isNewAlt
  {
    ObserveHitsSeen(t, hits);
    ObserveHitsEdges(t, hits);
    ObserveHitsNew(t, hits);
    var r := ObserveHits(t, hits).tracker;
    forall e, v ensures Seen(r.hist, e, v) <==> exists w :: Seen(r.histAlt, e, w) && GetBucket(w) == v {
      if BucketIn(hits, e, v) {
        var k :| 0 <= k < |hits| && hits[k].edge == e && GetBucket(hits[k].count) == v;
        assert RawIn(hits, e, hits[k].count);
        assert Seen(r.histAlt, e, hits[k].count);
      }
      if exists w :: Seen(r.histAlt, e, w) && GetBucket(w) == v {
        var w :| Seen(r.histAlt, e, w) && GetBucket(w) == v;
        if !Seen(t.histAlt, e, w) {
          var k :| 0 <= k < |hits| && hits[k] == Hit(e, w);
          assert BucketIn(hits, e, v);
        }
      }
    }
    if ObserveHits(t, hits).isNew {
      var k :| 0 <= k < |hits| && !Seen(t.hist, hits[k].edge, GetBucket(hits[k].count));
      assert !Seen(t.histAlt, hits[k].edge, hits[k].count);
    }
  }

  lemma EmptyLockstep()
    ensures Lockstep(EmptyTracker) && NoDuplicates(EmptyTracker.hist) && NoDuplicates(EmptyTracker.histAlt)
  {
  }

  /** The line loop of `Worker.run` in edge_coverage/single.py, updating the histories and the
      covered set one parsed line at a time. */
  method ScanShowmap(t: Tracker, lines: seq<string>) returns (r: Result<Verdict>)
    ensures r == ObserveLines(t, lines)
  {
    var hist, histAlt, covered := t.hist, t.histAlt, t.covered;
    var isNew, isNewAlt := false, false;
    ghost var hits: seq<Hit> := [];
    for i := 0 to |lines|
      invariant ParseAll(lines[..i]) == Ok(hits)
      invariant ObserveHits(t, hits) == Verdict(Tracker(hist, histAlt, covered), isNew, isNewAlt)
    {
      assert lines[..i + 1][..i] == lines[..i];
      var parsed := ParseLine(lines[i]);
      if parsed.Err? {
        assert ParseAll(lines[..i + 1]).Err?;
        ParseAllAbort(lines, i + 1);
        return Err(parsed.error);
      }
      if parsed.value.Some? {
        var hit := parsed.value.value;
        var n, na;
        hist, n := Record(hist, hit.edge, GetBucket(hit.count)).0, Record(hist, hit.edge, GetBucket(hit.count)).1;
        histAlt, na := Record(histAlt, hit.edge, hit.count).0, Record(histAlt, hit.edge, hit.count).1;
        covered := covered + {hit.edge};
        isNew, isNewAlt := isNew || n, isNewAlt || na;
        assert (hits + [hit])[..|hits|] == hits;
        hits := hits + [hit];
      }
    }
    assert lines[..|lines|] == lines;
    r := Ok(Verdict(Tracker(hist, histAlt, covered), isNew, isNewAlt));
  }

  /** A bad line aborts the whole output, whatever follows it. */
  lemma {:induction false} ParseAllAbort(lines: seq<string>, i: int)
    requires 0 <= i <= |lines| && ParseAll(lines[..i]).Err?
    ensures ParseAll(lines) == ParseAll(lines[..i])
    decreases |lines| - i
  {
    if i < |lines| {
      assert lines[..i + 1][..i] == lines[..i];
      ParseAllAbort(lines, i + 1);
    } else {
      assert lines[..i] == lines;
    }
  }

  /** The line loop of edge_coverage/worker.py and edge_coverage/main.py: only the covered set,
      with the same parse (both fields must be numbers before the edge is added). */
  method CoverLines(covered: set<int>, lines: seq<string>) returns (r: Result<set<int>>)
    ensures ParseAll(lines).Err? ==> r == Err(ParseAll(lines).error)
    ensures ParseAll(lines).Ok? ==> r == Ok(covered + EdgesOf(ParseAll(lines).value))
  {
    var cov := covered;
    ghost var hits: seq<Hit> := [];
    for i := 0 to |lines|
      invariant ParseAll(lines[..i]) == Ok(hits)
      invariant cov == covered + EdgesOf(hits)
    {
      assert lines[..i + 1][..i] == lines[..i];
      var parsed := ParseLine(lines[i]);
      if parsed.Err? {
        ParseAllAbort(lines, i + 1);
        return Err(parsed.error);
      }
      if parsed.value.Some? {
        var hit := parsed.value.value;
        cov := cov + {hit.edge};
        EdgesOfSnoc(hits, hit);
        hits := hits + [hit];
      }
    }
    assert lines[..|lines|] == lines;
    r := Ok(cov);
  }

  lemma EdgesOfSnoc(hits: seq<Hit>, h: Hit)
    ensures EdgesOf(hits + [h]) == EdgesOf(hits) + {h.edge}
  {
    var hs := hits + [h];
    forall x | x in EdgesOf(hs) ensures x in EdgesOf(hits) + {h.edge} {
      var k :| 0 <= k < |hs| && hs[k].edge == x;
      if k < |hits| {
        assert hits[k] == hs[k];
      }
    }
    forall x | x in EdgesOf(hits) ensures x in EdgesOf(hs) {
      var k :| 0 <= k < |hits| && hits[k].edge == x;
      assert hs[k] == hits[k];
    }
    assert hs[|hits|] == h;
  }
}
