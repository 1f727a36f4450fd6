/**
 * The first-find bookkeeping of crash_reporter.py and patch_reporter.py. Every file a target's
 * run left behind is replayed and yields a key (a stack trace, or a return code) or nothing.
 * Within one target only the first file of each key counts (`found_traces`, reset per
 * target); across targets, `find_runs` counts the targets that found the key and the list
 * beside it holds, in target order, what each of them recorded for its first find.
 */
module FirstFind {
  import opened Wrappers

  /** What one replayed file yields: its key, if any, and the value recorded on a first find. */
  datatype Hit<K, V> = Hit(key: Option<K>, value: V)

  /** `{'find_runs': n, 'times': [...]}` (or `'ff_times'`). */
  datatype Info<V> = Info(findRuns: int, firsts: seq<V>)

  /** A key's entry of the dictionary, with a missing key read as no runs. */
  function Get<K(==), V>(d: map<K, Info<V>>, k: K): Info<V> {
    if k in d then d[k] else Info(0, [])
  }

  /** The keys of a list of first finds, in order. */
  function KeysOf<K(==), V>(ps: seq<(K, V)>): (ks: seq<K>)
    ensures |ks| == |ps| && forall i :: 0 <= i < |ps| ==> ks[i] == ps[i].0
  {
    seq(|ps|, i requires 0 <= i < |ps| => ps[i].0)
  }

  /** No key occurs twice. */
  predicate DistinctKeys<K(==), V>(ps: seq<(K, V)>) {
    forall i, j :: 0 <= i < j < |ps| ==> ps[i].0 != ps[j].0
  }

  /** The first finds of one target: the loop over its files with `found_traces` kept as the
      keys found so far. A file without a key, or with a key already found, adds nothing. */
  function FirstHits<K(==), V>(hs: seq<Hit<K, V>>): seq<(K, V)> {
    if |hs| == 0 then []
    else
      var r := FirstHits(hs[..|hs| - 1]);
      var h := hs[|hs| - 1];
      if h.key.Some? && h.key.value !in KeysOf(r) then r + [(h.key.value, h.value)] else r
  }

  /** A target records every key at most once. */
  lemma {:induction false} FirstHitsDistinct<K, V>(hs: seq<Hit<K, V>>)
    ensures DistinctKeys(FirstHits(hs))
  {
    if |hs| > 0 {
      var r := FirstHits(hs[..|hs| - 1]);
      FirstHitsDistinct(hs[..|hs| - 1]);
      var h := hs[|hs| - 1];
      if h.key.Some? && h.key.value !in KeysOf(r) {
        var r' := r + [(h.key.value, h.value)];
        forall i, j | 0 <= i < j < |r'| ensures r'[i].0 != r'[j].0 {
          if j == |r| {
            assert KeysOf(r)[i] == r[i].0;
          }
        }
      }
    }
  }

  /** The file at `i` is the first of the target's files to yield key `k`. */
  predicate FirstOf<K(==), V>(hs: seq<Hit<K, V>>, i: int, k: K) {
    0 <= i < |hs| && hs[i].key == Some(k) && forall j :: 0 <= j < i ==> hs[j].key != Some(k)
  }

  /** The file at `i` is the first to yield the key of first find `p`, and `p` holds its value. */
  ghost predicate FirstFrom<K, V>(hs: seq<Hit<K, V>>, p: (K, V)) {
    exists i :: FirstOf(hs, i, p.0) && hs[i].value == p.1
  }

  /** A target records exactly the keys its files yield, each with the value of the first file
      that yields it. */
  lemma {:induction false} FirstHitsFirst<K, V>(hs: seq<Hit<K, V>>)
    ensures forall q :: 0 <= q < |FirstHits(hs)| ==> FirstFrom(hs, FirstHits(hs)[q])
    ensures forall i :: 0 <= i < |hs| && hs[i].key.Some? ==> hs[i].key.value in KeysOf(FirstHits(hs))
  {
    if |hs| > 0 {
      var init := hs[..|hs| - 1];
      var h := hs[|hs| - 1];
      FirstHitsFirst(init);
      var r := FirstHits(init);
      var r' := FirstHits(hs);
      forall q | 0 <= q < |r'|
        ensures FirstFrom(hs, r'[q])
      {
        if q < |r| {
          assert FirstFrom(init, r[q]);
          var i :| FirstOf(init, i, r[q].0) && init[i].value == r[q].1;
          assert r'[q] == r[q];
          assert FirstOf(hs, i, r'[q].0) && hs[i].value == r'[q].1;
        } else {
          assert r'[q] == (h.key.value, h.value);
          forall j | 0 <= j < |hs| - 1 ensures hs[j].key != Some(h.key.value) {
            assert hs[j] == init[j];
          }
          assert FirstOf(hs, |hs| - 1, r'[q].0);
        }
      }
      forall i | 0 <= i < |hs| && hs[i].key.Some? ensures hs[i].key.value in KeysOf(r') {
        if i < |hs| - 1 {
          assert hs[i] == init[i];
          var p :| 0 <= p < |r| && KeysOf(r)[p] == hs[i].key.value;
          assert KeysOf(r')[p] == hs[i].key.value;
        } else if hs[i].key.value !in KeysOf(r) {
          assert KeysOf(r')[|r|] == hs[i].key.value;
        } else {
          var p :| 0 <= p < |r| && KeysOf(r)[p] == hs[i].key.value;
          assert KeysOf(r')[p] == hs[i].key.value;
        }
      }
    }
  }

  /** One first find entered in the dictionary: a new key starts at one run, a known key gets
      one more run and one more value. */
  function Add<K(==), V>(d: map<K, Info<V>>, k: K, v: V): (r: map<K, Info<V>>)
    ensures r.Keys == d.Keys + {k}
    ensures r[k] == Info(Get(d, k).findRuns + 1, Get(d, k).firsts + [v])
    ensures forall j :: j in d && j != k ==> r[j] == d[j]
  {
    if k !in d then d[k := Info(1, [v])] else d[k := Info(d[k].findRuns + 1, d[k].firsts + [v])]
  }

  /** The first finds of one target entered in order. */
  function Record<K(==), V>(d: map<K, Info<V>>, ps: seq<(K, V)>): map<K, Info<V>> {
    if |ps| == 0 then d
    else
      var last := ps[|ps| - 1];
      Add(Record(d, ps[..|ps| - 1]), last.0, last.1)
  }

  /** The value a list of first finds holds for `k` (its last occurrence). */
  function Lookup<K(==), V>(ps: seq<(K, V)>, k: K): Option<V> {
    if |ps| == 0 then None
    else if ps[|ps| - 1].0 == k then Some(ps[|ps| - 1].1)
    else Lookup(ps[..|ps| - 1], k)
  }

  /** A dictionary entry with one more first find, or none. */
  function Bump<V>(i: Info<V>, v: Option<V>): Info<V> {
    if v.None? then i else Info(i.findRuns + 1, i.firsts + [v.value])
  }

  lemma {:induction false} LookupMissing<K, V>(ps: seq<(K, V)>, k: K)
    requires k !in KeysOf(ps)
    ensures Lookup(ps, k) == None
  {
    if |ps| > 0 {
      assert KeysOf(ps)[|ps| - 1] == ps[|ps| - 1].0;
      LookupMissing(ps[..|ps| - 1], k);
    }
  }

  /** With every key recorded once, a target changes each key's entry by its own first find
      only: one run more and its value appended, or nothing. */
  lemma {:induction false} RecordAt<K, V>(d: map<K, Info<V>>, ps: seq<(K, V)>, k: K)
    requires DistinctKeys(ps)
    ensures (k in Record(d, ps)) <==> (k in d || Lookup(ps, k).Some?)
    ensures Get(Record(d, ps), k) == Bump(Get(d, k), Lookup(ps, k))
  {
    if |ps| > 0 {
      var init := ps[..|ps| - 1];
      var last := ps[|ps| - 1];
      RecordAt(d, init, k);
      if last.0 == k {
        forall p | 0 <= p < |init| ensures KeysOf(init)[p] != k {
          assert init[p] == ps[p];
        }
        LookupMissing(init, k);
      }
    }
  }

  /** Every entry has as many runs as recorded values, and at least one. */
  ghost predicate Consistent<K, V>(d: map<K, Info<V>>) {
    forall k :: k in d ==> d[k].findRuns == |d[k].firsts| >= 1
  }

  /** The first finds of every target in order: the values each target recorded for `k`. */
  function FirstsOf<K(==), V>(lists: seq<seq<(K, V)>>, k: K): (vs: seq<V>)
    ensures |vs| <= |lists|
  {
    if |lists| == 0 then []
    else
      var init := FirstsOf(lists[..|lists| - 1], k);
      match Lookup(lists[|lists| - 1], k)
      case None => init
      case Some(v) => init + [v]
  }

  /** The dictionary after entering every target's first finds, starting from `{}`. */
  function ReportOf<K(==), V>(lists: seq<seq<(K, V)>>): map<K, Info<V>> {
    if |lists| == 0 then map[] else Record(ReportOf(lists[..|lists| - 1]), lists[|lists| - 1])
  }

  /** `find_runs` of a key is the number of targets that found it, and its list holds their
      first finds in target order; a key no target found is absent. */
  lemma {:induction false} ReportOfCounts<K, V>(lists: seq<seq<(K, V)>>, k: K)
    requires forall t :: 0 <= t < |lists| ==> DistinctKeys(lists[t])
    ensures (k in ReportOf(lists)) <==> |FirstsOf(lists, k)| > 0
    ensures Get(ReportOf(lists), k) == Info(|FirstsOf(lists, k)|, FirstsOf(lists, k))
  {
    if |lists| > 0 {
      var init := lists[..|lists| - 1];
      ReportOfCounts(init, k);
      RecordAt(ReportOf(init), lists[|lists| - 1], k);
    }
  }

  /** Hence every entry has as many runs as values, and never more runs than targets. */
  lemma ReportOfConsistent<K, V>(lists: seq<seq<(K, V)>>)
    requires forall t :: 0 <= t < |lists| ==> DistinctKeys(lists[t])
    ensures Consistent(ReportOf(lists))
    ensures forall k :: k in ReportOf(lists) ==> ReportOf(lists)[k].findRuns <= |lists|
  {
    forall k | k in ReportOf(lists)
      ensures ReportOf(lists)[k].findRuns == |ReportOf(lists)[k].firsts| >= 1
      ensures ReportOf(lists)[k].findRuns <= |lists|
    {
      ReportOfCounts(lists, k);
    }
  }

  /** One more file in the target's loop. */
  lemma FirstHitsSnoc<K, V>(hs: seq<Hit<K, V>>, i: int)
    requires 0 <= i < |hs|
    ensures var r := FirstHits(hs[..i]);
      FirstHits(hs[..i + 1]) ==
        if hs[i].key.Some? && hs[i].key.value !in KeysOf(r) then r + [(hs[i].key.value, hs[i].value)] else r
  {
    assert hs[..i + 1][..i] == hs[..i];
  }

  lemma KeysOfSnoc<K, V>(ps: seq<(K, V)>, p: (K, V))
    ensures KeysOf(ps + [p]) == KeysOf(ps) + [p.0]
  {
  }

  /** One more first find entered. */
  lemma RecordSnoc<K, V>(d: map<K, Info<V>>, ps: seq<(K, V)>, k: K, v: V)
    ensures Record(d, ps + [(k, v)]) == Add(Record(d, ps), k, v)
  {
    assert (ps + [(k, v)])[..|ps|] == ps;
  }

  /** The bookkeeping loop of one target as written: `found_traces` starts empty, and every
      file whose key is new to the target bumps the key's entry. */
  method RecordTarget<K(==), V>(d: map<K, Info<V>>, hs: seq<Hit<K, V>>) returns (r: map<K, Info<V>>)
    ensures r == Record(d, FirstHits(hs))
  {
    var found: seq<K> := [];
    ghost var ps: seq<(K, V)> := [];
    r := d;
    for i := 0 to |hs|
      invariant ps == FirstHits(hs[..i]) && found == KeysOf(ps) && r == Record(d, ps)
    {
      FirstHitsSnoc(hs, i);
      var h := hs[i];
      if h.key.Some? && h.key.value !in found {
        RecordSnoc(d, ps, h.key.value, h.value);
        KeysOfSnoc(ps, (h.key.value, h.value));
        found := found + [h.key.value];
        ps := ps + [(h.key.value, h.value)];
        r := EnterFind(r, h.key.value, h.value);
      }
    }
    assert hs[..|hs|] == hs;
  }

  /** A new key's entry starts at one run; a known key's entry gains a run and a value. */
  method EnterFind<K(==), V>(d: map<K, Info<V>>, k: K, v: V) returns (r: map<K, Info<V>>)
    ensures r == Add(d, k, v)
  {
    if k !in d {
      r := d[k := Info(1, [v])];
    } else {
      r := d[k := Info(d[k].findRuns + 1, d[k].firsts + [v])];
    }
  }
}
