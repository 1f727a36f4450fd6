/**
 * The orderings the scripts impose: Python's stable `list.sort(key=...)` on an integer key
 * (entries by modification time, first-find times, cycle numbers), and `sorted` on a set of
 * names (target/group names in code-point order) or of integers (shared ranks).
 */
module Sorting {

  predicate SortedBy<T>(s: seq<T>, key: T -> int) {
    forall i, j :: 0 <= i < j < |s| ==> key(s[i]) <= key(s[j])
  }

  /** Every element of `s` has a key of at least `k`. */
  predicate KeysAtLeast<T>(s: seq<T>, k: int, key: T -> int) {
    forall i :: 0 <= i < |s| ==> k <= key(s[i])
  }

  /** Inserts `x` in front of the first element whose key exceeds `key(x)`. */
  function InsertBy<T>(s: seq<T>, x: T, key: T -> int): (r: seq<T>)
    ensures multiset(r) == multiset(s) + multiset{x}
    ensures |r| == |s| + 1
  {
    if |s| == 0 then [x]
    else if key(x) < key(s[0]) then [x] + s
    else
      assert s == [s[0]] + s[1..];
      [s[0]] + InsertBy(s[1..], x, key)
  }

  /** Inserting into a sorted sequence keeps it sorted, and keeps any lower bound that `x`
      also respects. */
  lemma {:induction false} InsertBySorted<T>(s: seq<T>, x: T, key: T -> int, k: int)
    requires SortedBy(s, key)
    requires KeysAtLeast(s, k, key) && k <= key(x)
    ensures SortedBy(InsertBy(s, x, key), key)
    ensures KeysAtLeast(InsertBy(s, x, key), k, key)
  {
    if |s| > 0 && key(s[0]) <= key(x) {
      InsertBySorted(s[1..], x, key, key(s[0]));
      var r' := InsertBy(s[1..], x, key);
      assert InsertBy(s, x, key) == [s[0]] + r';
    }
  }

  /** `list.sort(key=key)`: a stable insertion sort, so elements with equal keys keep their
      input order. */
  function SortBy<T>(s: seq<T>, key: T -> int): (r: seq<T>)
    ensures SortedBy(r, key)
    ensures multiset(r) == multiset(s)
    ensures |r| == |s|
  {
    if |s| == 0 then []
    else
      assert s == s[..|s| - 1] + [s[|s| - 1]];
      var sorted := SortBy(s[..|s| - 1], key);
      var x := s[|s| - 1];
      InsertBySorted(sorted, x, key, if |sorted| == 0 || key(x) < key(sorted[0]) then key(x) else key(sorted[0]));
      InsertBy(sorted, x, key)
  }

  /** The elements of `s` whose key is `v`, in their order in `s`. */
  function WithKey<T>(s: seq<T>, v: int, key: T -> int): (r: seq<T>)
    ensures |r| <= |s|
  {
    if |s| == 0 then [] else (if key(s[0]) == v then [s[0]] else []) + WithKey(s[1..], v, key)
  }

  /** Selecting by key distributes over concatenation. */
  lemma {:induction false} WithKeyAppend<T>(a: seq<T>, b: seq<T>, v: int, key: T -> int)
    ensures WithKey(a + b, v, key) == WithKey(a, v, key) + WithKey(b, v, key)
  {
    if |a| > 0 {
      assert (a + b)[1..] == a[1..] + b;
      WithKeyAppend(a[1..], b, v, key);
    } else {
      assert a + b == b;
    }
  }

  /** No element of a sequence whose keys all exceed `v` has key `v`. */
  lemma {:induction false} WithKeyAbove<T>(s: seq<T>, k: int, v: int, key: T -> int)
    requires KeysAtLeast(s, k, key) && v < k
    ensures WithKey(s, v, key) == []
  {
    if |s| > 0 {
      WithKeyAbove(s[1..], k, v, key);
    }
  }

  /** Selecting from a sequence with one more element in front. */
  lemma WithKeyCons<T>(y: T, s: seq<T>, v: int, key: T -> int)
    ensures WithKey([y] + s, v, key) == (if key(y) == v then [y] else []) + WithKey(s, v, key)
  {
    assert ([y] + s)[1..] == s;
  }

  /** `x` inserted in front of a sorted sequence whose keys all exceed its own. */
  lemma WithKeyInsertFront<T>(s: seq<T>, x: T, v: int, key: T -> int)
    requires |s| > 0 && key(x) < key(s[0]) && SortedBy(s, key)
    ensures WithKey(InsertBy(s, x, key), v, key) == WithKey(s, v, key) + (if key(x) == v then [x] else [])
  {
    assert InsertBy(s, x, key) == [x] + s;
    WithKeyCons(x, s, v, key);
    if key(x) == v {
      WithKeyAbove(s, key(s[0]), v, key);
    }
  }

  /** `x` inserted past the first element. */
  lemma WithKeyInsertPast<T>(s: seq<T>, x: T, v: int, key: T -> int)
    requires |s| > 0 && key(s[0]) <= key(x)
    requires WithKey(InsertBy(s[1..], x, key), v, key) == WithKey(s[1..], v, key) + (if key(x) == v then [x] else [])
    ensures WithKey(InsertBy(s, x, key), v, key) == WithKey(s, v, key) + (if key(x) == v then [x] else [])
  {
    var t := InsertBy(s[1..], x, key);
    assert InsertBy(s, x, key) == [s[0]] + t;
    WithKeyCons(s[0], t, v, key);
    var head := if key(s[0]) == v then [s[0]] else [];
    var tail := if key(x) == v then [x] else [];
    assert WithKey(s, v, key) == head + WithKey(s[1..], v, key);
    assert head + (WithKey(s[1..], v, key) + tail) == (head + WithKey(s[1..], v, key)) + tail;
  }

  /** Inserting into a sorted sequence puts `x` after every element with the same key. */
  lemma {:induction false} WithKeyInsert<T>(s: seq<T>, x: T, v: int, key: T -> int)
    requires SortedBy(s, key)
    ensures WithKey(InsertBy(s, x, key), v, key) == WithKey(s, v, key) + (if key(x) == v then [x] else [])
  {
    if |s| == 0 {
    } else if key(x) < key(s[0]) {
      WithKeyInsertFront(s, x, v, key);
    } else {
      WithKeyInsert(s[1..], x, v, key);
      WithKeyInsertPast(s, x, v, key);
    }
  }

  /** Selecting from a sequence with one more element at the end. */
  lemma WithKeySnoc<T>(s: seq<T>, v: int, key: T -> int)
    requires |s| > 0
    ensures WithKey(s, v, key) == WithKey(s[..|s| - 1], v, key) + (if key(s[|s| - 1]) == v then [s[|s| - 1]] else [])
  {
    var x := s[|s| - 1];
    assert s == s[..|s| - 1] + [x];
    WithKeyAppend(s[..|s| - 1], [x], v, key);
    assert WithKey([x], v, key) == (if key(x) == v then [x] else []) + WithKey([x][1..], v, key);
  }

  /** The sort of a non-empty sequence inserts its last element into the sort of the rest. */
  lemma SortBySnoc<T>(s: seq<T>, key: T -> int)
    requires |s| > 0
    ensures SortBy(s, key) == InsertBy(SortBy(s[..|s| - 1], key), s[|s| - 1], key)
  {
  }

  /** `list.sort` is stable: the elements with any one key keep their input order. */
  lemma {:induction false} SortByStable<T>(s: seq<T>, v: int, key: T -> int)
    ensures WithKey(SortBy(s, key), v, key) == WithKey(s, v, key)
  {
    if |s| > 0 {
      SortByStable(s[..|s| - 1], v, key);
      SortBySnoc(s, key);
      WithKeyInsert(SortBy(s[..|s| - 1], key), s[|s| - 1], v, key);
      WithKeySnoc(s, v, key);
    }
  }

  /** Python's `a <= b` on strings: code-point lexicographic order. */
  predicate LexLe(a: string, b: string) {
    |a| == 0 || (|b| > 0 && (a[0] < b[0] || (a[0] == b[0] && LexLe(a[1..], b[1..]))))
  }

  lemma {:induction false} LexLeTotal(a: string, b: string)
    ensures LexLe(a, b) || LexLe(b, a)
  {
    if |a| > 0 && |b| > 0 && a[0] == b[0] {
      LexLeTotal(a[1..], b[1..]);
    }
  }

  lemma {:induction false} LexLeAntisymmetric(a: string, b: string)
    requires LexLe(a, b) && LexLe(b, a)
    ensures a == b
  {
    if |a| > 0 && |b| > 0 {
      LexLeAntisymmetric(a[1..], b[1..]);
      assert a == [a[0]] + a[1..] && b == [b[0]] + b[1..];
    }
  }

  lemma {:induction false} LexLeTransitive(a: string, b: string, c: string)
    requires LexLe(a, b) && LexLe(b, c)
    ensures LexLe(a, c)
  {
    if |a| > 0 && |b| > 0 && |c| > 0 && a[0] == b[0] == c[0] {
      LexLeTransitive(a[1..], b[1..], c[1..]);
    }
  }

  /** A common prefix does not change the order of two names. */
  lemma {:induction false} LexLePrefix(p: string, a: string, b: string)
    requires LexLe(a, b)
    ensures LexLe(p + a, p + b)
  {
    if |p| > 0 {
      LexLePrefix(p[1..], a, b);
      assert (p + a)[1..] == p[1..] + a && (p + b)[1..] == p[1..] + b;
      assert (p + a)[0] == p[0] == (p + b)[0];
    } else {
      assert p + a == a && p + b == b;
    }
  }

  /** Names in code-point order along the sequence. */
  predicate SortedByName<T>(s: seq<T>, name: T -> string) {
    forall i, j :: 0 <= i < j < |s| ==> LexLe(name(s[i]), name(s[j]))
  }

  /** Inserts `x` in front of the first element whose name is not below `name(x)`. */
  function InsertByName<T>(s: seq<T>, x: T, name: T -> string): (r: seq<T>)
    ensures multiset(r) == multiset(s) + multiset{x}
    ensures |r| == |s| + 1
  {
    if |s| == 0 then [x]
    else if LexLe(name(x), name(s[0])) then [x] + s
    else
      assert s == [s[0]] + s[1..];
      [s[0]] + InsertByName(s[1..], x, name)
  }

  /** Inserting into a sorted sequence keeps it sorted, and keeps any lower bound that `x`
      also respects. */
  lemma {:induction false} InsertByNameSorted<T>(s: seq<T>, x: T, name: T -> string, low: string)
    requires SortedByName(s, name)
    requires (forall i :: 0 <= i < |s| ==> LexLe(low, name(s[i]))) && LexLe(low, name(x))
    ensures SortedByName(InsertByName(s, x, name), name)
    ensures forall i :: 0 <= i < |InsertByName(s, x, name)| ==> LexLe(low, name(InsertByName(s, x, name)[i]))
  {
    var r := InsertByName(s, x, name);
    if |s| > 0 {
      if LexLe(name(x), name(s[0])) {
        assert r == [x] + s;
        InsertFrontSorted(s, x, name);
      } else {
        LexLeTotal(name(x), name(s[0]));
        var r' := InsertByName(s[1..], x, name);
        InsertByNameSorted(s[1..], x, name, name(s[0]));
        assert r == [s[0]] + r';
        ConsSorted(s[0], r', name, low);
      }
    }
  }

  /** Putting `x` in front of a sorted sequence whose first name is not below it. */
  lemma InsertFrontSorted<T>(s: seq<T>, x: T, name: T -> string)
    requires |s| > 0 && SortedByName(s, name) && LexLe(name(x), name(s[0]))
    ensures SortedByName([x] + s, name)
  {
    var r := [x] + s;
    forall i, j | 0 <= i < j < |r| ensures LexLe(name(r[i]), name(r[j])) {
      if i == 0 && j > 1 {
        LexLeTransitive(name(x), name(s[0]), name(s[j - 1]));
      }
    }
  }

  /** Putting `y` in front of a sorted sequence bounded below by its name. */
  lemma ConsSorted<T>(y: T, r: seq<T>, name: T -> string, low: string)
    requires SortedByName(r, name) && forall i :: 0 <= i < |r| ==> LexLe(name(y), name(r[i]))
    requires LexLe(low, name(y))
    ensures SortedByName([y] + r, name)
    ensures forall i :: 0 <= i < |[y] + r| ==> LexLe(low, name(([y] + r)[i]))
  {
    var q := [y] + r;
    forall i, j | 0 <= i < j < |q| ensures LexLe(name(q[i]), name(q[j])) {
      if i > 0 {
        assert q[i] == r[i - 1] && q[j] == r[j - 1];
      }
    }
    forall i | 0 <= i < |q| ensures LexLe(low, name(q[i])) {
      if i > 0 {
        LexLeTransitive(low, name(y), name(r[i - 1]));
      }
    }
  }

  /** `list.sort()` on names: an insertion sort into code-point order. */
  function SortByName<T>(s: seq<T>, name: T -> string): (r: seq<T>)
    ensures SortedByName(r, name)
    ensures multiset(r) == multiset(s)
    ensures |r| == |s|
  {
    if |s| == 0 then []
    else
      assert s == s[..|s| - 1] + [s[|s| - 1]];
      var sorted := SortByName(s[..|s| - 1], name);
      var x := s[|s| - 1];
      InsertByNameSorted(sorted, x, name, "");
      InsertByName(sorted, x, name)
  }

  predicate StrictlySortedNames(s: seq<string>) {
    forall i, j :: 0 <= i < j < |s| ==> LexLe(s[i], s[j]) && s[i] != s[j]
  }

  /** Some element of a non-empty set. */
  lemma Pick<T>(xs: set<T>) returns (x: T)
    requires xs != {}
    ensures x in xs
  {
    x :| x in xs;
  }

  /** `m` is the least of `names`. */
  predicate IsLeastName(m: string, names: set<string>) {
    m in names && forall y :: y in names ==> LexLe(m, y)
  }

  /** Every non-empty set of names has a least element. */
  lemma {:induction false} LeastName(names: set<string>) returns (m: string)
    requires names != {}
    ensures IsLeastName(m, names)
    decreases |names|
  {
    var x := Pick(names);
    var rest := names - {x};
    LexLeTotal(x, x);
    assert forall y :: y in names ==> y == x || y in rest;
    if rest == {} {
      m := x;
    } else {
      var least := LeastName(rest);
      LexLeTotal(least, x);
      m := if LexLe(least, x) then least else x;
      forall y | y in names ensures LexLe(m, y) {
        if y != x {
          assert y in rest;
          if m == x {
            LexLeTransitive(x, least, y);
          }
        }
      }
    }
  }

  /** `sorted(names)` for a set of distinct names: every name once, in ascending order. */
  method SortedNames(names: set<string>) returns (r: seq<string>)
    ensures StrictlySortedNames(r)
    ensures forall x :: x in r <==> x in names
    ensures |r| == |names|
  {
    r := [];
    var rest := names;
    while rest != {}
      invariant rest <= names
      invariant StrictlySortedNames(r)
      invariant forall x :: x in names <==> x in r || x in rest
      invariant forall x :: x in r ==> x !in rest
      invariant forall i, y :: 0 <= i < |r| && y in rest ==> LexLe(r[i], y)
      invariant |r| + |rest| == |names|
      decreases |rest|
    {
      ghost var least := LeastName(rest);
      var m :| m in rest && IsLeastName(m, rest);
      assert IsLeastName(m, rest);
      assert forall y :: y in rest ==> LexLe(m, y);
      r := r + [m];
      rest := rest - {m};
    }
  }

  predicate StrictlyIncreasing(s: seq<int>) {
    forall i, j :: 0 <= i < j < |s| ==> s[i] < s[j]
  }

  predicate IsLeastInt(m: int, xs: set<int>) {
    m in xs && forall y :: y in xs ==> m <= y
  }

  lemma {:induction false} LeastInt(xs: set<int>) returns (m: int)
    requires xs != {}
    ensures IsLeastInt(m, xs)
    decreases |xs|
  {
    var x := Pick(xs);
    var rest := xs - {x};
    assert forall y :: y in xs ==> y == x || y in rest;
    if rest == {} {
      m := x;
    } else {
      var least := LeastInt(rest);
      m := if least < x then least else x;
      forall y | y in xs ensures m <= y {
        if y != x {
          assert y in rest;
        }
      }
    }
  }

  lemma LeastIntExists(xs: set<int>)
    requires xs != {}
    ensures exists m :: IsLeastInt(m, xs)
  {
    var m := LeastInt(xs);
  }

  /** Python's `min` of a non-empty collection of integers. */
  function MinOf(xs: set<int>): (m: int)
    requires xs != {}
    ensures m in xs && forall y :: y in xs ==> m <= y
  {
    LeastIntExists(xs);
    var m :| m in xs && IsLeastInt(m, xs);
    m
  }

  /** `sorted(xs)` for a set of integers: every element once, ascending. */
  function SortedInts(xs: set<int>): (r: seq<int>)
    ensures StrictlyIncreasing(r)
    ensures forall x :: x in r <==> x in xs
    ensures |r| == |xs|
    decreases |xs|
  {
    if xs == {} then []
    else
      var m := MinOf(xs);
      var rest := SortedInts(xs - {m});
      assert forall j :: 0 <= j < |rest| ==> m < rest[j] by {
        forall j | 0 <= j < |rest|
          ensures m < rest[j]
        {
          assert rest[j] in xs - {m};
        }
      }
      [m] + rest
  }
}
