/**
 * `Worker` of edge_coverage/worker.py: a thread that processes its targets in turn and keeps
 * the two dictionaries of every processed target, keyed by the target's name.
 */
module EdgeWorker {
  import opened Wrappers
  import opened Targets
  import opened GapFill
  import opened EdgeSingle
  import opened EdgeCount

  class Worker {
    var edgeGroups: map<string, map<int, int>>
    var entryGroups: map<string, map<int, int>>

    function State(): Groups2
      reads this
    {
      Groups2(edgeGroups, entryGroups)
    }

    constructor ()
      ensures State() == NoGroups2
    {
      edgeGroups, entryGroups := map[], map[];
    }

    /** `run`: each target in turn, sanitised with the stats-file fallback and with bin 0
        defaulted afterwards; an exception ends the thread. */
    method Run(jobs: seq<Job>, env: Env) returns (halt: Option<PyError>)
      modifies this
      ensures Run2(State(), halt) == RunAll(old(State()), CountOutcomes(jobs, env, StatsOrExplicit, true))
    {
      ghost var g0 := State();
      ghost var ds := CountOutcomes(jobs, env, StatsOrExplicit, true);
      for i := 0 to |jobs|
        invariant RunAll(g0, ds[..i]) == Run2(State(), None)
      {
        RunAllStep(g0, ds, i);
        var r := CountTarget(jobs[i], env, StatsOrExplicit, true);
        assert ds[i] == Done2(jobs[i].name, r);
        if r.Err? {
          RunAllHalted(g0, ds, i + 1);
          return Some(r.error);
        }
        if r.value.Some? {
          edgeGroups := edgeGroups[jobs[i].name := r.value.value.edges];
          entryGroups := entryGroups[jobs[i].name := r.value.value.entries];
        }
      }
      assert ds[..|jobs|] == ds;
      halt := None;
    }
  }

  /** Every stored dictionary holds bin 0. */
  ghost predicate AllHaveZero(g: Groups2) {
    (forall n :: n in g.edges ==> 0 in g.edges[n]) && (forall n :: n in g.entries ==> 0 in g.entries[n])
  }

  /** The target loop keeps that when every processed target's dictionaries hold bin 0. */
  lemma {:induction false} RunAllKeepsZero(g: Groups2, ds: seq<Done2>)
    requires AllHaveZero(g)
    requires forall k :: 0 <= k < |ds| && ds[k].outcome.Ok? && ds[k].outcome.value.Some? ==>
      0 in ds[k].outcome.value.value.edges && 0 in ds[k].outcome.value.value.entries
    ensures AllHaveZero(RunAll(g, ds).groups)
  {
    if |ds| > 0 {
      var init := ds[..|ds| - 1];
      assert forall k :: 0 <= k < |init| ==> init[k] == ds[k];
      RunAllKeepsZero(g, init);
    }
  }

  /** A worker's dictionaries all hold bin 0, so the collectors and the plotter, which exit on
      a dictionary without it, accept every one of them. */
  lemma WorkerGroupsFill(jobs: seq<Job>, env: Env, maxBin: int, offset: int)
    ensures var g := RunAll(NoGroups2, CountOutcomes(jobs, env, StatsOrExplicit, true)).groups;
      (forall n :: n in g.edges ==> GroupRows(g.edges[n], FailFast, maxBin, offset).Ok?) &&
      (forall n :: n in g.entries ==> GroupRows(g.entries[n], FailFast, maxBin, offset).Ok?)
  {
    RunAllKeepsZero(NoGroups2, CountOutcomes(jobs, env, StatsOrExplicit, true));
  }
}
