/**
 * `main` of edge_coverage/main.py: the configuration check, the targets processed one after
 * another in the script itself (no threads, no bin-0 default), then the figures.
 *
 * As written, the figure call passes five arguments to `plot_edge_over_time`, which takes at
 * least seven, so the script always ends in `TypeError` once the loop is done (`MainOutcome`).
 * `MainPlotted` is the script with the call completed: the edge figure is computed over every
 * stored group, which exits on the first group without bin 0.
 */
module EdgeMain {
  import opened Wrappers
  import opened TimeBin
  import opened Targets
  import opened GapFill
  import opened Passes
  import opened EdgeSingle
  import opened EdgeCount
  import EdgeSingleMain

  /** The configuration `main` acts on: the targets in the order of the `targets` keys, the bin
      unit and `output_dir`. */
  datatype Config = Config(targets: seq<Job>, bucket: string, outputDir: string)

  /** `sanitize_config`: at least one target and a known unit, or `sys.exit(1)`; then a
      trailing '/' on the output directory. */
  function SanitizeConfig(c: Config): (r: Result<Config>)
    ensures r.Err? <==> |c.targets| == 0 || !EdgeSingleMain.ValidBucket(c.bucket)
    ensures r.Err? ==> r.error == Exit
    ensures r.Ok? ==> r.value.targets == c.targets && r.value.bucket == c.bucket
    ensures r.Ok? ==> |r.value.outputDir| > 0 && r.value.outputDir[|r.value.outputDir| - 1] == '/'
    ensures r.Ok? ==> |c.outputDir| <= |r.value.outputDir| <= |c.outputDir| + 1 && r.value.outputDir[..|c.outputDir|] == c.outputDir
  {
    if |c.targets| == 0 || !EdgeSingleMain.ValidBucket(c.bucket) then Err(Exit)
    else
      var dir := if |c.outputDir| > 0 && c.outputDir[|c.outputDir| - 1] == '/' then c.outputDir else c.outputDir + "/";
      Ok(c.(outputDir := dir))
  }

  /** The environment of the loop: the bin width the unit names. */
  function MainEnv(c: Config, env: Env): Env {
    env.(margin := SecondsPerBin(c.bucket))
  }

  /** The loop's outcomes: targets sanitised without the stats file, and no bin-0 default. */
  function MainOutcomes(c: Config, env: Env): seq<Done2> {
    CountOutcomes(c.targets, MainEnv(c, env), ExplicitOnly, false)
  }

  /** The target loop of `main`, keeping both dictionaries as locals; an exception ends the
      script. */
  method CountAll(jobs: seq<Job>, env: Env) returns (r: Run2)
    ensures r == RunAll(NoGroups2, CountOutcomes(jobs, env, ExplicitOnly, false))
  {
    var edgeGroups: map<string, map<int, int>> := map[];
    var entryGroups: map<string, map<int, int>> := map[];
    ghost var ds := CountOutcomes(jobs, env, ExplicitOnly, false);
    for i := 0 to |jobs|
      invariant RunAll(NoGroups2, ds[..i]) == Run2(Groups2(edgeGroups, entryGroups), None)
    {
      RunAllStep(NoGroups2, ds, i);
      var t := CountTarget(jobs[i], env, ExplicitOnly, false);
      assert ds[i] == Done2(jobs[i].name, t);
      if t.Err? {
        RunAllHalted(NoGroups2, ds, i + 1);
        return Run2(Groups2(edgeGroups, entryGroups), Some(t.error));
      }
      if t.value.Some? {
        edgeGroups := edgeGroups[jobs[i].name := t.value.value.edges];
        entryGroups := entryGroups[jobs[i].name := t.value.value.entries];
      }
    }
    assert ds[..|jobs|] == ds;
    r := Run2(Groups2(edgeGroups, entryGroups), None);
  }

  /** The script as written: a bad configuration exits; otherwise the loop, and then the
      figure call raises `TypeError` unless the loop already raised. */
  function MainOutcome(c: Config, env: Env): Run2 {
    match SanitizeConfig(c)
    case Err(e) => Run2(NoGroups2, Some(e))
    case Ok(c') =>
      var r := RunAll(NoGroups2, MainOutcomes(c', env));
      if r.halt.Some? then r else Run2(r.groups, Some(TypeError))
  }

  /** `main` as written. */
  method RunScript(c: Config, env: Env) returns (r: Run2)
    ensures r == MainOutcome(c, env)
  {
    var sane := SanitizeConfig(c);
    if sane.Err? {
      return Run2(NoGroups2, Some(sane.error));
    }
    r := CountAll(sane.value.targets, MainEnv(sane.value, env));
    if r.halt.None? {
      r := r.(halt := Some(TypeError));
    }
  }

  /** Every run of the script as written ends in an exception: the figure is never drawn,
      whatever the configuration and the corpora. */
  lemma MainNeverFinishes(c: Config, env: Env)
    ensures MainOutcome(c, env).halt.Some?
    ensures SanitizeConfig(c).Ok? && RunAll(NoGroups2, MainOutcomes(SanitizeConfig(c).value, env)).halt.None? ==>
      MainOutcome(c, env).halt == Some(TypeError)
  {
  }

  /** `max_bin = int(max_span) * bucket_margin` in `plot_edge_over_time`, with the width in
      seconds that `main` passes. */
  function PlotMaxBin(c: Config, env: Env): int {
    env.maxSpan * SecondsPerBin(c.bucket)
  }

  /** Under fail-fast, a group can be filled exactly when it has bin 0. */
  lemma FailFastFills(m: map<int, int>, maxBin: int, offset: int)
    ensures GroupRows(m, FailFast, maxBin, offset).Ok? <==> 0 in m
    ensures GroupRows(m, FailFast, maxBin, offset).Err? ==> GroupRows(m, FailFast, maxBin, offset).error == Exit
  {
  }

  /** The script with the figure call completed: the loop, then the edge figure over the
      stored groups. The script finishes exactly when the loop does and every stored edge
      dictionary has bin 0, which, without a default, needs an entry in bin 0 for every target. */
  method MainPlotted(c: Config, env: Env) returns (r: Run2)
    ensures SanitizeConfig(c).Err? ==> r == Run2(NoGroups2, Some(Exit))
    ensures SanitizeConfig(c).Ok? ==>
      var loop := RunAll(NoGroups2, MainOutcomes(SanitizeConfig(c).value, env));
      r.groups == loop.groups &&
      (loop.halt.Some? ==> r.halt == loop.halt) &&
      (loop.halt.None? ==> (r.halt.None? <==> forall n :: n in loop.groups.edges ==> 0 in loop.groups.edges[n])) &&
      (loop.halt.None? && r.halt.Some? ==> r.halt == Some(Exit))
  {
    var sane := SanitizeConfig(c);
    if sane.Err? {
      return Run2(NoGroups2, Some(sane.error));
    }
    r := CountAll(sane.value.targets, MainEnv(sane.value, env));
    if r.halt.None? {
      var plots := [Pass(r.groups.edges, 0, "")];
      var h := RunPlots(plots, FailFast, PlotMaxBin(sane.value, env));
      forall n | n in r.groups.edges
        ensures GroupRows(r.groups.edges[n], FailFast, PlotMaxBin(sane.value, env), 0).Ok? <==> 0 in r.groups.edges[n]
      {
        FailFastFills(r.groups.edges[n], PlotMaxBin(sane.value, env), 0);
      }
      assert AllSucceed(plots, 1, FailFast, PlotMaxBin(sane.value, env)) <==> PassSucceeds(plots[0], FailFast, PlotMaxBin(sane.value, env));
      r := r.(halt := h);
    }
  }

  /** Without the default, a processed target's edge dictionary has bin 0 exactly when one of
      its entries falls into bin 0. */
  lemma MainBinZero(c: Config, env: Env, k: int)
    requires 0 <= k < |c.targets|
    requires CountOutcome(c.targets[k], MainEnv(c, env), ExplicitOnly, false).Ok?
    requires CountOutcome(c.targets[k], MainEnv(c, env), ExplicitOnly, false).value.Some?
    ensures var s := CountOutcome(c.targets[k], MainEnv(c, env), ExplicitOnly, false).value.value;
      var start := Sanitize(c.targets[k].target, env.fs, ExplicitOnly).value.value.value;
      var entries := CountedEntries(c.targets[k], MainEnv(c, env), start);
      (0 in s.edges <==> exists i :: 0 <= i < |entries| && entries[i].bin == 0) && s.edges.Keys == s.entries.Keys
  {
    var e := MainEnv(c, env);
    var job := c.targets[k];
    var start := Sanitize(job.target, env.fs, ExplicitOnly).value.value.value;
    var entries := CountedEntries(job, e, start);
    assert CountOutcome(job, e, ExplicitOnly, false) == Ok(Some(CountSeries(entries, e.showmap, false).value));
    SeriesBins(entries, e.showmap, false);
  }
}
