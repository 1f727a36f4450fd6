/**
 * The target loop of the scripts that keep one dictionary per target (crash/main.py and
 * real_path_counter.py): each processed target's dictionary is stored under the target's
 * name, a skipped target stores nothing, and an exception ends the script with what the
 * earlier targets stored.
 */
module GroupStore {
  import opened Wrappers

  /** A target's name with the outcome of processing it: an error, a skip, or its dictionary. */
  datatype Done1 = Done1(name: string, outcome: Result<Option<map<int, int>>>)

  /** The dictionary of groups after the loop, and the error that ended it. */
  datatype Stored = Stored(groups: map<string, map<int, int>>, halt: Option<PyError>)

  /** The target loop over the first `|ds|` targets. */
  function StoreAll(ds: seq<Done1>): Stored {
    if |ds| == 0 then Stored(map[], None)
    else
      var r := StoreAll(ds[..|ds| - 1]);
      var d := ds[|ds| - 1];
      if r.halt.Some? then r
      else match d.outcome
        case Err(e) => Stored(r.groups, Some(e))
        case Ok(None) => r
        case Ok(Some(m)) => Stored(r.groups[d.name := m], None)
  }

  /** Once the loop has stopped, later targets change nothing. */
  lemma {:induction false} StoreAllHalted(ds: seq<Done1>, i: int)
    requires 0 <= i <= |ds| && StoreAll(ds[..i]).halt.Some?
    ensures StoreAll(ds) == StoreAll(ds[..i])
    decreases |ds| - i
  {
    if i < |ds| {
      assert ds[..i + 1][..i] == ds[..i];
      StoreAllHalted(ds, i + 1);
    } else {
      assert ds[..i] == ds;
    }
  }

  /** The loop finishes exactly when no target raises, and otherwise ends with the error of the
      first target that does. */
  lemma {:induction false} StoreAllHalt(ds: seq<Done1>)
    ensures StoreAll(ds).halt.None? <==> forall k :: 0 <= k < |ds| ==> ds[k].outcome.Ok?
    ensures StoreAll(ds).halt.Some? ==>
      exists k :: 0 <= k < |ds| && ds[k].outcome == Err(StoreAll(ds).halt.value) && (forall j :: 0 <= j < k ==> ds[j].outcome.Ok?)
  {
    if |ds| > 0 {
      var init := ds[..|ds| - 1];
      StoreAllHalt(init);
      var r := StoreAll(init);
      if r.halt.Some? {
        var k :| 0 <= k < |init| && init[k].outcome == Err(r.halt.value) && forall j :: 0 <= j < k ==> init[j].outcome.Ok?;
        assert ds[k] == init[k];
      } else {
        assert forall k :: 0 <= k < |init| ==> ds[k] == init[k];
      }
    }
  }

  /** Some target of name `n` was processed into dictionary `m`. */
  ghost predicate ProcessedAs(ds: seq<Done1>, n: string, m: map<int, int>) {
    exists k :: 0 <= k < |ds| && ds[k].name == n && ds[k].outcome == Ok(Some(m))
  }

  /** Every stored dictionary is the dictionary of a processed target of that name. */
  lemma {:induction false} StoreAllKeys(ds: seq<Done1>)
    ensures forall n :: n in StoreAll(ds).groups ==> ProcessedAs(ds, n, StoreAll(ds).groups[n])
  {
    if |ds| > 0 {
      var init := ds[..|ds| - 1];
      StoreAllKeys(init);
      var g := StoreAll(ds).groups;
      var r := StoreAll(init);
      var d := ds[|ds| - 1];
      forall n | n in g
        ensures ProcessedAs(ds, n, g[n])
      {
        if r.halt.None? && d.outcome.Ok? && d.outcome.value.Some? && n == d.name {
          assert ds[|ds| - 1].outcome == Ok(Some(g[n]));
        } else {
          assert n in r.groups && g[n] == r.groups[n];
          assert ProcessedAs(init, n, r.groups[n]);
          var k :| 0 <= k < |init| && init[k].name == n && init[k].outcome == Ok(Some(r.groups[n]));
          assert ds[k] == init[k];
        }
      }
    }
  }

  /** When every processed target's dictionary holds bin 0, so does every stored one. */
  lemma StoreAllKeepsZero(ds: seq<Done1>)
    requires forall k :: 0 <= k < |ds| && ds[k].outcome.Ok? && ds[k].outcome.value.Some? ==> 0 in ds[k].outcome.value.value
    ensures forall n :: n in StoreAll(ds).groups ==> 0 in StoreAll(ds).groups[n]
  {
    StoreAllKeys(ds);
    forall n | n in StoreAll(ds).groups ensures 0 in StoreAll(ds).groups[n] {
      var k :| 0 <= k < |ds| && ds[k].name == n && ds[k].outcome == Ok(Some(StoreAll(ds).groups[n]));
    }
  }
}
