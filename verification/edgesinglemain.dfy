/**
 * `main` of edge_coverage/single.py: the configuration check, one worker per target, the
 * optional initial-seed count, the merge, the unit swap, and the plot and collect passes.
 */
module EdgeSingleMain {
  import opened Wrappers
  import opened PyText
  import opened TimeBin
  import opened GapFill
  import opened Passes
  import opened EdgeSingle
  import opened EdgeSingleRun
  import opened EdgeInit

  /** The configuration `main` acts on: the targets in the order of the `targets` keys, the
      bin unit, `init_seeds_dir`, `plot_figure` and `output_dir`. */
  datatype Config = Config(targets: seq<Job>, bucket: string, initSeedsDir: Option<string>,
                           plotFigure: Option<bool>, outputDir: string)

  /** The unit names `sanitize_config` accepts. */
  predicate ValidBucket(bucket: string) {
    Lower(bucket) in ["second", "minute", "hour", "sec", "min", "hour", "s", "m", "h"]
  }

  /** `sanitize_config`: at least one target and a known unit, or `sys.exit(1)`; then a
      trailing '/' on the output directory and `plot_figure` defaulting to true. */
  function SanitizeConfig(c: Config): (r: Result<Config>)
    ensures r.Err? <==> |c.targets| == 0 || !ValidBucket(c.bucket)
    ensures r.Err? ==> r.error == Exit
    ensures r.Ok? ==> r.value.targets == c.targets && r.value.bucket == c.bucket && r.value.initSeedsDir == c.initSeedsDir
    ensures r.Ok? ==> r.value.plotFigure.Some? && (c.plotFigure.Some? ==> r.value.plotFigure == c.plotFigure)
    ensures r.Ok? ==> |r.value.outputDir| > 0 && r.value.outputDir[|r.value.outputDir| - 1] == '/'
    ensures r.Ok? ==> |c.outputDir| <= |r.value.outputDir| <= |c.outputDir| + 1 && r.value.outputDir[..|c.outputDir|] == c.outputDir
  {
    if |c.targets| == 0 || !ValidBucket(c.bucket) then Err(Exit)
    else
      var dir := if |c.outputDir| > 0 && c.outputDir[|c.outputDir| - 1] == '/' then c.outputDir else c.outputDir + "/";
      Ok(c.(outputDir := dir, plotFigure := Some(c.plotFigure.Some? ==> c.plotFigure.value)))
  }

  /** The unit and target checks of the reporters' and data_avg_plotter.py's
      `sanitize_config`: a failure makes `main` call `sys.exit(1)`; otherwise the
      configuration `c`, with unit `bucket` and `targets` targets, is kept as it is. */
  function SanitizeUnitTargets<C>(c: C, bucket: string, targets: nat): (r: Result<C>)
    ensures r.Ok? <==> ValidBucket(bucket) && targets > 0
    ensures r.Ok? ==> r.value == c
    ensures r.Err? ==> r.error == Exit
  {
    if !ValidBucket(bucket) || targets == 0 then Err(Exit) else Ok(c)
  }

  /** The environment the workers see: the bin width the unit names. */
  function WorkerEnv(c: Config, env: Env): Env {
    env.(margin := SecondsPerBin(c.bucket))
  }

  /** `init_edges` when `init_seeds_dir` is configured. */
  function InitOutcome(c: Config, env: Env): Result<Option<nat>> {
    match c.initSeedsDir
    case None => Ok(None)
    case Some(dir) =>
      match InitEdges(dir, env.listing, env.showmap)
      case Err(e) => Err(e)
      case Ok(n) => Ok(Some(n))
  }

  /** `int(max_span) * bucket_margin` after the swap: the last bin the passes fill. */
  function MaxBin(c: Config, env: Env): int {
    env.maxSpan * SwapMargin(SecondsPerBin(c.bucket))
  }

  /** The figures: edges, bucketed entries and raw entries, and the found edges with the
      initial seeds' edges subtracted when those were counted. */
  function PlotPasses(g: Groups, init: Option<nat>, plot: bool): (ps: seq<Pass>)
    ensures forall p :: p in ps ==> p.groups in {g.edges, g.entries, g.entriesAlt}
  {
    if !plot then []
    else
      var found := if init.Some? then [Pass(g.edges, init.value, "")] else [];
      [Pass(g.edges, 0, ""), Pass(g.entries, 0, ""), Pass(g.entriesAlt, 0, "")] + found
  }

  /** The data files: bucketed entries, raw entries and edges, and the found edges. */
  function CollectPasses(g: Groups, init: Option<nat>): (ps: seq<Pass>)
    ensures forall p :: p in ps ==> p.groups in {g.edges, g.entries, g.entriesAlt}
  {
    [Pass(g.entries, 0, "_entry_time_bucket.txt"), Pass(g.entriesAlt, 0, "_entry_time.txt"),
     Pass(g.edges, 0, "_edge_time.txt")] +
    (if init.Some? then [Pass(g.edges, init.value, "_edge_time_found.txt")] else [])
  }

  /** One worker per target, each started on its one target and joined: the dictionaries
      each worker holds afterwards. */
  method RunWorkers(jobs: seq<Job>, env: Env) returns (states: seq<Groups>)
    ensures var ds := Outcomes(jobs, env);
      |states| == |jobs| && forall k :: 0 <= k < |jobs| ==> states[k] == Added(NoGroups, ds[k])
  {
    ghost var ds := Outcomes(jobs, env);
    states := [];
    for i := 0 to |jobs|
      invariant |states| == i && forall k :: 0 <= k < i ==> states[k] == Added(NoGroups, ds[k])
    {
      var w := new Worker();
      var _ := w.Run([jobs[i]], env);
      assert Outcomes([jobs[i]], env) == [ds[i]];
      SingleRun(ds[i]);
      states := states + [w.State()];
    }
  }

  /** The copy loops after the join: each worker's names written into the merged
      dictionaries, later workers last. */
  method MergeWorkers(states: seq<Groups>, ghost ds: seq<Done>) returns (merged: Groups)
    requires |states| == |ds| && forall k :: 0 <= k < |ds| ==> states[k] == Added(NoGroups, ds[k])
    ensures merged == MergeAll(ds)
  {
    merged := NoGroups;
    for i := 0 to |states|
      invariant merged == MergeAll(ds[..i])
    {
      CopyWorker(merged, ds[i]);
      assert ds[..i + 1][..i] == ds[..i];
      merged := Groups(merged.edges + states[i].edges, merged.entries + states[i].entries,
                       merged.entriesAlt + states[i].entriesAlt);
    }
    assert ds[..|ds|] == ds;
  }

  /** The whole script. A bad configuration exits at once; a bad initial-seed line raises
      before the merge; otherwise the merged dictionaries are those of the targets whose
      workers finished, and the passes run over them. */
  method Analyze(c: Config, env: Env) returns (merged: Groups, files: seq<DataFile>, halt: Option<PyError>)
    ensures SanitizeConfig(c).Err? ==> merged == NoGroups && files == [] && halt == Some(Exit)
    ensures SanitizeConfig(c).Ok? && InitOutcome(SanitizeConfig(c).value, env).Err? ==>
      merged == NoGroups && files == [] && halt == Some(ValueError)
    ensures SanitizeConfig(c).Ok? && InitOutcome(SanitizeConfig(c).value, env).Ok? ==>
      var cfg := SanitizeConfig(c).value;
      var init := InitOutcome(cfg, env).value;
      merged == MergeAll(Outcomes(cfg.targets, WorkerEnv(cfg, env))) &&
      Reported(PlotPasses(merged, init, cfg.plotFigure == Some(true)), CollectPasses(merged, init), Backfill,
               MaxBin(cfg, env), cfg.outputDir, files, halt)
  {
    var checked := SanitizeConfig(c);
    if checked.Err? {
      return NoGroups, [], Some(Exit);
    }
    var cfg := checked.value;
    var wenv := WorkerEnv(cfg, env);
    var jobs := cfg.targets;
    ghost var ds := Outcomes(jobs, wenv);
    var states := RunWorkers(jobs, wenv);
    var initEdges: Option<nat> := None;
    if cfg.initSeedsDir.Some? {
      var n := CountInitEdges(cfg.initSeedsDir.value, env.listing, env.showmap);
      if n.Err? {
        return NoGroups, [], Some(ValueError);
      }
      initEdges := Some(n.value);
    }
    merged := MergeWorkers(states, ds);
    var maxBin := env.maxSpan * SwapMargin(SecondsPerBin(cfg.bucket));
    files, halt := Report(PlotPasses(merged, initEdges, cfg.plotFigure == Some(true)),
                          CollectPasses(merged, initEdges), Backfill, maxBin, cfg.outputDir);
  }

  /** A pass over the edge or bucketed entry dictionaries always succeeds: every target's
      series there has bin 0. */
  lemma {:induction false} ZeroKept(ds: seq<Done>, jobs: seq<Job>, env: Env)
    requires ds == Outcomes(jobs, env)
    ensures forall n :: n in MergeAll(ds).edges ==> 0 in MergeAll(ds).edges[n]
    ensures forall n :: n in MergeAll(ds).entries ==> 0 in MergeAll(ds).entries[n]
  {
    forall k | 0 <= k < |ds| && ds[k].outcome.Ok? && ds[k].outcome.value.Some?
      ensures 0 in ds[k].outcome.value.value.edges && 0 in ds[k].outcome.value.value.entries
    {
      assert ds[k].outcome == TargetOutcome(jobs[k], env);
    }
    MergedHaveZero(ds);
  }

  /** A pass over these dictionaries that fails is one over the raw entry dictionary, at a
      group with neither bin 0 nor a positive bin. */
  lemma FailingPassIsRaw(g: Groups, p: Pass, maxBin: int)
    requires forall n :: n in g.edges ==> 0 in g.edges[n]
    requires forall n :: n in g.entries ==> 0 in g.entries[n]
    requires p.groups in {g.edges, g.entries, g.entriesAlt} && !PassSucceeds(p, Backfill, maxBin)
    ensures exists n :: n in g.entriesAlt && 0 !in g.entriesAlt[n] && PositiveBins(g.entriesAlt[n]) == {}
  {
    var n :| n in p.groups && GroupRows(p.groups[n], Backfill, maxBin, p.offset).Err?;
    assert 0 !in p.groups[n];
    assert p.groups == g.entriesAlt;
  }

  /** The only way the passes can stop the script is a target whose raw entry dictionary has
      neither bin 0 nor a positive bin (for instance a target with an empty queue): the
      backfill's `min` of an empty list raises `ValueError`. */
  lemma RawEntriesOnlyFailure(jobs: seq<Job>, env: Env, init: Option<nat>, plot: bool, maxBin: int,
                              outputDir: string, files: seq<DataFile>, halt: Option<PyError>)
    requires var g := MergeAll(Outcomes(jobs, env));
      Reported(PlotPasses(g, init, plot), CollectPasses(g, init), Backfill, maxBin, outputDir, files, halt)
    requires halt.Some?
    ensures halt == Some(ValueError)
    ensures var g := MergeAll(Outcomes(jobs, env));
      exists n :: n in g.entriesAlt && 0 !in g.entriesAlt[n] && PositiveBins(g.entriesAlt[n]) == {}
  {
    var g := MergeAll(Outcomes(jobs, env));
    ZeroKept(Outcomes(jobs, env), jobs, env);
    var plots := PlotPasses(g, init, plot);
    var collects := CollectPasses(g, init);
    if !AllSucceed(plots, |plots|, Backfill, maxBin) {
      var j :| 0 <= j < |plots| && !PassSucceeds(plots[j], Backfill, maxBin);
      assert plots[j] in plots;
      FailingPassIsRaw(g, plots[j], maxBin);
    } else {
      var j :| 0 <= j < |collects| && !PassSucceeds(collects[j], Backfill, maxBin);
      assert collects[j] in collects;
      FailingPassIsRaw(g, collects[j], maxBin);
    }
  }
}
