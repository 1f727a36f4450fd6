/**
 * The driver of edge_coverage/single.py: one `Worker` per target, the merge of the workers'
 * dictionaries, the optional count of edges covered by the initial seeds, the unit swap, and
 * the plot and collect passes over the merged dictionaries.
 */
module EdgeSingleRun {
  import opened Wrappers
  import opened PyText
  import opened TimeBin
  import opened Corpus
  import opened Novelty
  import opened GapFill
  import opened Sorting
  import opened EdgeSingle

  /** `edge_group_dict`, `entry_group_dict` and `entry_group_dict_alt`. */
  datatype Groups = Groups(edges: map<string, map<int, int>>, entries: map<string, map<int, int>>,
                           entriesAlt: map<string, map<int, int>>)

  const NoGroups := Groups(map[], map[], map[])

  /** `self.edge_group_dict[group_name] = edge_no_dict` and the two like it. */
  function Store(g: Groups, name: string, s: Series3): (r: Groups)
    ensures r.edges.Keys == g.edges.Keys + {name} && r.entries.Keys == g.entries.Keys + {name}
    ensures r.entriesAlt.Keys == g.entriesAlt.Keys + {name}
  {
    Groups(g.edges[name := s.edges], g.entries[name := s.entries], g.entriesAlt[name := s.entriesAlt])
  }

  /** A target's name with the outcome of processing it. */
  datatype Done = Done(name: string, outcome: Result<Option<Series3>>)

  /** The outcome of every target. */
  function Outcomes(jobs: seq<Job>, env: Env): (ds: seq<Done>)
    ensures |ds| == |jobs| && forall k :: 0 <= k < |jobs| ==> ds[k] == Done(jobs[k].name, TargetOutcome(jobs[k], env))
  {
    seq(|jobs|, k requires 0 <= k < |jobs| => Done(jobs[k].name, TargetOutcome(jobs[k], env)))
  }

  /** A worker's dictionaries after its targets, and the error that ended its thread. */
  datatype RunState = RunState(groups: Groups, halt: Option<PyError>)

  /** `Worker.run` over the first `|ds|` targets: rejected targets are skipped, and an error
      ends the thread, leaving what the earlier targets stored. */
  function RunJobs(g: Groups, ds: seq<Done>): RunState {
    if |ds| == 0 then RunState(g, None)
    else
      var r := RunJobs(g, ds[..|ds| - 1]);
      var d := ds[|ds| - 1];
      if r.halt.Some? then r
      else match d.outcome
        case Err(e) => RunState(r.groups, Some(e))
        case Ok(None) => r
        case Ok(Some(s)) => RunState(Store(r.groups, d.name, s), None)
  }

  /** Once the thread has died, later targets change nothing. */
  lemma {:induction false} RunJobsHalted(g: Groups, ds: seq<Done>, i: int)
    requires 0 <= i <= |ds| && RunJobs(g, ds[..i]).halt.Some?
    ensures RunJobs(g, ds) == RunJobs(g, ds[..i])
    decreases |ds| - i
  {
    if i < |ds| {
      assert ds[..i + 1][..i] == ds[..i];
      RunJobsHalted(g, ds, i + 1);
    } else {
      assert ds[..i] == ds;
    }
  }

  /** A worker's three dictionaries always hold the same names, and names are never removed. */
  lemma {:induction false} RunJobsKeys(g: Groups, ds: seq<Done>)
    requires g.edges.Keys == g.entries.Keys == g.entriesAlt.Keys
    ensures var r := RunJobs(g, ds).groups;
      r.edges.Keys == r.entries.Keys == r.entriesAlt.Keys && g.edges.Keys <= r.edges.Keys
  {
    if |ds| > 0 {
      RunJobsKeys(g, ds[..|ds| - 1]);
    }
  }

  /** Every name a worker holds was stored for one of its targets, with that target's three
      dictionaries, unless it was there before. */
  lemma {:induction false} RunJobsStored(g: Groups, ds: seq<Done>, n: string)
    requires g.edges.Keys == g.entries.Keys == g.entriesAlt.Keys
    requires n in RunJobs(g, ds).groups.edges && n !in g.edges
    ensures var r := RunJobs(g, ds).groups;
      n in r.entries && n in r.entriesAlt &&
      exists k :: 0 <= k < |ds| && ds[k].name == n &&
        ds[k].outcome == Ok(Some(Series3(r.edges[n], r.entries[n], r.entriesAlt[n])))
  {
    RunJobsKeys(g, ds);
    var init := ds[..|ds| - 1];
    var last := ds[|ds| - 1];
    var m := RunJobs(g, init);
    var r := RunJobs(g, ds).groups;
    if m.halt.None? && last.outcome.Ok? && last.outcome.value.Some? && n == last.name {
      assert ds[|ds| - 1].outcome == Ok(Some(Series3(r.edges[n], r.entries[n], r.entriesAlt[n])));
    } else {
      var mg := m.groups;
      assert n in mg.edges && r.edges[n] == mg.edges[n] && r.entries[n] == mg.entries[n] &&
        r.entriesAlt[n] == mg.entriesAlt[n];
      RunJobsStored(g, init, n);
      var k :| 0 <= k < |init| && init[k].name == n &&
        init[k].outcome == Ok(Some(Series3(mg.edges[n], mg.entries[n], mg.entriesAlt[n])));
      assert ds[k] == init[k];
    }
  }

  /** A worker thread: the three dictionaries it fills for its targets. */
  class Worker {
    var edgeGroups: map<string, map<int, int>>
    var entryGroups: map<string, map<int, int>>
    var entryGroupsAlt: map<string, map<int, int>>

    function State(): Groups
      reads this
    {
      Groups(edgeGroups, entryGroups, entryGroupsAlt)
    }

    constructor ()
      ensures State() == NoGroups
    {
      edgeGroups, entryGroups, entryGroupsAlt := map[], map[], map[];
    }

    /** `run`: each target in turn; an exception ends the thread. */
    method Run(jobs: seq<Job>, env: Env) returns (halt: Option<PyError>)
      modifies this
      ensures RunState(State(), halt) == RunJobs(old(State()), Outcomes(jobs, env))
    {
      ghost var g0 := State();
      ghost var ds := Outcomes(jobs, env);
      for i := 0 to |jobs|
        invariant RunJobs(g0, ds[..i]) == RunState(State(), None)
      {
        assert ds[..i + 1][..i] == ds[..i];
        var r := ProcessTarget(jobs[i], env);
        if r.Err? {
          RunJobsHalted(g0, ds, i + 1);
          return Some(r.error);
        }
        if r.value.Some? {
          var s := r.value.value;
          edgeGroups := edgeGroups[jobs[i].name := s.edges];
          entryGroups := entryGroups[jobs[i].name := s.entries];
          entryGroupsAlt := entryGroupsAlt[jobs[i].name := s.entriesAlt];
        }
      }
      assert ds[..|jobs|] == ds;
      halt := None;
    }
  }

  /** Target names are the keys of the `targets` dictionary, so no two jobs share one. */
  predicate DistinctNames(ds: seq<Done>) {
    forall i, j :: 0 <= i < j < |ds| ==> ds[i].name != ds[j].name
  }

  /** The merged dictionaries: one worker per target, whose thread either stored the target's
      dictionaries or died and stored nothing. */
  function MergeAll(ds: seq<Done>): Groups {
    if |ds| == 0 then NoGroups
    else
      Added(MergeAll(ds[..|ds| - 1]), ds[|ds| - 1])
  }

  /** The merged dictionaries hold the same names, each the name of a target whose worker
      stored it. */
  lemma {:induction false} MergeAllKeys(ds: seq<Done>)
    ensures var g := MergeAll(ds);
      g.edges.Keys == g.entries.Keys == g.entriesAlt.Keys &&
      forall n :: n in g.edges ==> exists k :: 0 <= k < |ds| && ds[k].name == n && ds[k].outcome.Ok? && ds[k].outcome.value.Some?
  {
    if |ds| > 0 {
      var init := ds[..|ds| - 1];
      MergeAllKeys(init);
      var g := MergeAll(ds);
      forall n | n in g.edges
        ensures exists k :: 0 <= k < |ds| && ds[k].name == n && ds[k].outcome.Ok? && ds[k].outcome.value.Some?
      {
        if n != ds[|ds| - 1].name || !(ds[|ds| - 1].outcome.Ok? && ds[|ds| - 1].outcome.value.Some?) {
          var k :| 0 <= k < |init| && init[k].name == n && init[k].outcome.Ok? && init[k].outcome.value.Some?;
          assert ds[k] == init[k];
        }
      }
    }
  }

  /** What the merge leaves for the last target. */
  function Added(g: Groups, d: Done): Groups {
    match d.outcome
    case Ok(Some(s)) => Store(g, d.name, s)
    case _ => g
  }

  /** Storing one name leaves every other name as it was. */
  lemma StoreOther(g: Groups, name: string, s: Series3, n: string)
    requires n != name
    ensures var r := Store(g, name, s);
      (n in r.edges <==> n in g.edges) && (n in r.entries <==> n in g.entries) &&
      (n in r.entriesAlt <==> n in g.entriesAlt) &&
      (n in g.edges ==> r.edges[n] == g.edges[n]) && (n in g.entries ==> r.entries[n] == g.entries[n]) &&
      (n in g.entriesAlt ==> r.entriesAlt[n] == g.entriesAlt[n])
  {
  }

  /** A target appears in the merged dictionaries exactly when its worker finished it without
      rejecting it, and then with its own three dictionaries: a target whose thread raised is
      missing, and no other target disturbs it. */
  lemma {:induction false} MergeAllStored(ds: seq<Done>, k: int)
    requires DistinctNames(ds) && 0 <= k < |ds|
    ensures var g := MergeAll(ds);
      (ds[k].name in g.edges <==> ds[k].outcome.Ok? && ds[k].outcome.value.Some?) &&
      (ds[k].name in g.edges ==>
        ds[k].name in g.entries && ds[k].name in g.entriesAlt &&
        ds[k].outcome == Ok(Some(Series3(g.edges[ds[k].name], g.entries[ds[k].name], g.entriesAlt[ds[k].name]))))
  {
    var init := ds[..|ds| - 1];
    var last := ds[|ds| - 1];
    var gi := MergeAll(init);
    assert MergeAll(ds) == Added(gi, last);
    if k < |init| {
      assert DistinctNames(init);
      assert init[k] == ds[k] && ds[k].name != last.name;
      MergeAllStored(init, k);
      MergeAllKeys(init);
      if last.outcome.Ok? && last.outcome.value.Some? {
        StoreOther(gi, last.name, last.outcome.value.value, ds[k].name);
      } else {
        assert MergeAll(ds) == gi;
      }
    } else {
      MergeAllKeys(init);
      forall j | 0 <= j < |init| ensures init[j].name != last.name {
        assert init[j] == ds[j];
      }
    }
  }

  /** The merged dictionaries keep bin 0 for the edge and bucketed entry counts of every
      target, so the backfill can only ever be needed, or fail, for the raw entry counts. */
  lemma {:induction false} MergedHaveZero(ds: seq<Done>)
    requires forall k :: 0 <= k < |ds| && ds[k].outcome.Ok? && ds[k].outcome.value.Some? ==>
      0 in ds[k].outcome.value.value.edges && 0 in ds[k].outcome.value.value.entries
    ensures forall n :: n in MergeAll(ds).edges ==> 0 in MergeAll(ds).edges[n]
    ensures forall n :: n in MergeAll(ds).entries ==> 0 in MergeAll(ds).entries[n]
  {
    if |ds| > 0 {
      MergedHaveZero(ds[..|ds| - 1]);
    }
  }

  /** One worker's run over a single target stores exactly what the merge stores for it. */
  lemma SingleRun(d: Done)
    ensures RunJobs(NoGroups, [d]).groups == MergeAll([d]) == Added(NoGroups, d)
  {
    assert [d][..0] == [];
  }

  /** Copying a worker's dictionaries into the merged ones is the merge step for its target. */
  lemma CopyWorker(g: Groups, d: Done)
    ensures var r := Added(NoGroups, d);
      Groups(g.edges + r.edges, g.entries + r.entries, g.entriesAlt + r.entriesAlt) == Added(g, d)
  {
    var r := Added(NoGroups, d);
    if d.outcome.Ok? && d.outcome.value.Some? {
      var s := d.outcome.value.value;
      CopyOne(g.edges, d.name, s.edges);
      CopyOne(g.entries, d.name, s.entries);
      CopyOne(g.entriesAlt, d.name, s.entriesAlt);
    } else {
      CopyNone(g.edges);
      CopyNone(g.entries);
      CopyNone(g.entriesAlt);
    }
  }

  lemma CopyOne(m: map<string, map<int, int>>, k: string, v: map<int, int>)
    ensures m + map[k := v] == m[k := v]
  {
  }

  lemma CopyNone(m: map<string, map<int, int>>)
    ensures m + map[] == m
  {
  }
}
