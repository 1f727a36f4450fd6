/**
 * Python dictionaries as the scripts use them: they keep insertion order, and an assignment
 * to an existing key keeps its place, so a dictionary is an association list.
 */
module Dicts {
  import opened Wrappers

  /** The keys of a dictionary, in order. */
  function Keys<K, T>(xs: seq<(K, T)>): (ks: seq<K>)
    ensures |ks| == |xs| && forall i :: 0 <= i < |xs| ==> ks[i] == xs[i].0
  {
    seq(|xs|, i requires 0 <= i < |xs| => xs[i].0)
  }

  predicate Distinct<K(==)>(ks: seq<K>) {
    forall i, j :: 0 <= i < j < |ks| ==> ks[i] != ks[j]
  }

  /** `d.get(k)`: the value stored under `k`, if any. */
  function Lookup<K(==), T>(xs: seq<(K, T)>, k: K): (r: Option<T>)
    ensures r.Some? <==> k in Keys(xs)
  {
    if |xs| == 0 then None
    else if xs[0].0 == k then Some(xs[0].1)
    else
      assert Keys(xs) == [xs[0].0] + Keys(xs[1..]);
      Lookup(xs[1..], k)
  }

  /** The keys of a non-empty dictionary: its first key, then those of the rest. */
  lemma KeysCons<K, T>(xs: seq<(K, T)>)
    requires |xs| > 0
    ensures Keys(xs) == [xs[0].0] + Keys(xs[1..])
  {
  }

  /** `d[k] = v`: an existing key keeps its place and takes the new value; a new key goes
      last. */
  function Assign<K(==), T>(xs: seq<(K, T)>, k: K, v: T): (r: seq<(K, T)>)
    ensures Keys(r) == if k in Keys(xs) then Keys(xs) else Keys(xs) + [k]
  {
    if |xs| == 0 then [(k, v)]
    else
      var r := if xs[0].0 == k then [(k, v)] + xs[1..] else [xs[0]] + Assign(xs[1..], k, v);
      KeysCons(xs);
      KeysCons(r);
      assert r[1..] == if xs[0].0 == k then xs[1..] else Assign(xs[1..], k, v);
      r
  }

  /** After `d[k] = v`, `k` maps to `v` and every other key to what it mapped to before. */
  lemma {:induction false} AssignLookup<K, T>(xs: seq<(K, T)>, k: K, v: T, j: K)
    ensures Lookup(Assign(xs, k, v), j) == if j == k then Some(v) else Lookup(xs, j)
  {
    if |xs| > 0 && xs[0].0 != k {
      AssignLookup(xs[1..], k, v, j);
    }
  }

  /** Assignment keeps the keys of a dictionary distinct. */
  lemma AssignDistinct<K, T>(xs: seq<(K, T)>, k: K, v: T)
    requires Distinct(Keys(xs))
    ensures Distinct(Keys(Assign(xs, k, v)))
  {
  }

  /** With distinct keys, looking up an entry's key finds that entry. */
  lemma {:induction false} LookupAt<K, T>(xs: seq<(K, T)>, i: int)
    requires Distinct(Keys(xs)) && 0 <= i < |xs|
    ensures Lookup(xs, xs[i].0) == Some(xs[i].1)
  {
    if i > 0 {
      assert xs[0].0 != xs[i].0;
      assert Keys(xs[1..]) == Keys(xs)[1..];
      LookupAt(xs[1..], i - 1);
    }
  }
}
