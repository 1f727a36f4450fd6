/**
 * A script's output stage: a run of plot passes, each of which fills every group of one
 * dictionary but writes no data file, then a run of collect passes, each of which fills every
 * group of one dictionary and writes one data file per group. The first group that cannot be
 * filled raises, which ends the script.
 */
module Passes {
  import opened Wrappers
  import opened GapFill

  /** One pass over a dictionary of groups: the amount subtracted from every count and the
      suffix of the pass's data files. */
  datatype Pass = Pass(groups: map<string, map<int, int>>, offset: int, suffix: string)

  /** Every group of the pass can be filled. */
  ghost predicate PassSucceeds(p: Pass, policy: ZeroPolicy, maxBin: int) {
    forall n :: n in p.groups ==> GroupRows(p.groups[n], policy, maxBin, p.offset).Ok?
  }

  /** The data file the pass writes for group `n`, if the group can be filled. */
  function GroupFile(p: Pass, n: string, policy: ZeroPolicy, maxBin: int, outputDir: string): (r: Option<DataFile>)
    ensures r.Some? <==> n in p.groups && GroupRows(p.groups[n], policy, maxBin, p.offset).Ok?
    ensures r.Some? ==> r.value.path == DataFilePath(outputDir, n, p.suffix) && |r.value.lines| == RowCount(maxBin)
  {
    if n !in p.groups then None
    else match GroupRows(p.groups[n], policy, maxBin, p.offset)
      case Err(_) => None
      case Ok(rows) => Some(DataFile(DataFilePath(outputDir, n, p.suffix), RowLines(rows.0, rows.1)))
  }

  /** The error a group that cannot be filled raises: `sys.exit(1)`, or the `ValueError` of
      `min` over no positive bin. */
  function PolicyError(policy: ZeroPolicy): PyError {
    if policy == FailFast then Exit else ValueError
  }

  /** The first `k` passes succeed. */
  ghost predicate AllSucceed(ps: seq<Pass>, k: int, policy: ZeroPolicy, maxBin: int)
    requires 0 <= k <= |ps|
  {
    forall j :: 0 <= j < k ==> PassSucceeds(ps[j], policy, maxBin)
  }

  /** Every file is one group's file of one of the first `k` passes. */
  ghost predicate FilesFrom(files: seq<DataFile>, ps: seq<Pass>, k: int, policy: ZeroPolicy, maxBin: int, outputDir: string)
    requires 0 <= k <= |ps|
  {
    forall f :: f in files ==> exists j, n :: 0 <= j < k && GroupFile(ps[j], n, policy, maxBin, outputDir) == Some(f)
  }

  /** Every group of the first `k` passes has its file. */
  ghost predicate FilesCover(files: seq<DataFile>, ps: seq<Pass>, k: int, policy: ZeroPolicy, maxBin: int, outputDir: string)
    requires 0 <= k <= |ps|
  {
    forall j, n :: 0 <= j < k && n in ps[j].groups ==>
      GroupFile(ps[j], n, policy, maxBin, outputDir).Some? &&
      GroupFile(ps[j], n, policy, maxBin, outputDir).value in files
  }

  /** What the output stage leaves: every written file is one group's file of one collect pass;
      the stage stops exactly when some pass has a group that cannot be filled; and when it
      does not stop, every group of every collect pass has its file. */
  ghost predicate Reported(plots: seq<Pass>, collects: seq<Pass>, policy: ZeroPolicy, maxBin: int, outputDir: string,
                           files: seq<DataFile>, halt: Option<PyError>)
  {
    FilesFrom(files, collects, |collects|, policy, maxBin, outputDir) &&
    (halt.None? <==> AllSucceed(plots, |plots|, policy, maxBin) && AllSucceed(collects, |collects|, policy, maxBin)) &&
    (halt.None? ==> FilesCover(files, collects, |collects|, policy, maxBin, outputDir)) &&
    (halt.Some? ==> halt.value == PolicyError(policy))
  }

  /** The groups filled by a pass that stopped early include one that cannot be filled. */
  lemma FailedPass(names: seq<string>, i: int, p: Pass, policy: ZeroPolicy, maxBin: int, e: PyError)
    requires SortedGroupNames(names, p.groups) && 0 <= i < |names|
    requires GroupRows(p.groups[names[i]], policy, maxBin, p.offset) == Err(e)
    ensures !PassSucceeds(p, policy, maxBin)
  {
    assert names[i] in names;
  }

  /** A pass that filled every group succeeds. */
  lemma FullPass(names: seq<string>, p: Pass, policy: ZeroPolicy, maxBin: int)
    requires SortedGroupNames(names, p.groups)
    requires forall i :: 0 <= i < |names| ==> GroupRows(p.groups[names[i]], policy, maxBin, p.offset).Ok?
    ensures PassSucceeds(p, policy, maxBin)
  {
    forall n | n in p.groups ensures GroupRows(p.groups[n], policy, maxBin, p.offset).Ok? {
      var i :| 0 <= i < |names| && names[i] == n;
    }
  }

  /** The files a collect pass wrote are its groups' files, and all of them when it did not stop. */
  lemma CollectedFiles(names: seq<string>, fs: seq<DataFile>, p: Pass, policy: ZeroPolicy, maxBin: int, outputDir: string)
    requires SortedGroupNames(names, p.groups)
    requires FilesOfPrefix(fs, outputDir, p.suffix, names, p.groups, policy, maxBin, p.offset)
    ensures forall i :: 0 <= i < |fs| ==> GroupFile(p, names[i], policy, maxBin, outputDir) == Some(fs[i])
    ensures |fs| == |names| ==> forall n :: n in p.groups ==>
      GroupFile(p, n, policy, maxBin, outputDir).Some? && GroupFile(p, n, policy, maxBin, outputDir).value in fs
  {
    if |fs| == |names| {
      forall n | n in p.groups
        ensures GroupFile(p, n, policy, maxBin, outputDir).Some? && GroupFile(p, n, policy, maxBin, outputDir).value in fs
      {
        var i :| 0 <= i < |names| && names[i] == n;
        assert GroupFile(p, names[i], policy, maxBin, outputDir) == Some(fs[i]);
      }
    }
  }

  /** The plot passes: each fills every group of its dictionary in sorted order; the first
      group that cannot be filled raises. */
  method RunPlots(plots: seq<Pass>, policy: ZeroPolicy, maxBin: int) returns (halt: Option<PyError>)
    ensures halt.None? <==> AllSucceed(plots, |plots|, policy, maxBin)
    ensures halt.Some? ==> halt.value == PolicyError(policy)
  {
    for k := 0 to |plots|
      invariant AllSucceed(plots, k, policy, maxBin)
    {
      var names, done, h := FillGroups(plots[k].groups, policy, maxBin, plots[k].offset);
      if h.Some? {
        FailedPass(names, |done|, plots[k], policy, maxBin, h.value);
        assert !AllSucceed(plots, |plots|, policy, maxBin);
        return h;
      }
      FullPass(names, plots[k], policy, maxBin);
      SucceedStep(plots, k, policy, maxBin);
    }
    halt := None;
  }

  /** The collect passes: each writes its groups' files in sorted order; the first group that
      cannot be filled raises. */
  method RunCollects(collects: seq<Pass>, policy: ZeroPolicy, maxBin: int, outputDir: string)
    returns (files: seq<DataFile>, halt: Option<PyError>)
    ensures FilesFrom(files, collects, |collects|, policy, maxBin, outputDir)
    ensures halt.None? <==> AllSucceed(collects, |collects|, policy, maxBin)
    ensures halt.None? ==> FilesCover(files, collects, |collects|, policy, maxBin, outputDir)
    ensures halt.Some? ==> halt.value == PolicyError(policy)
  {
    files := [];
    for k := 0 to |collects|
      invariant AllSucceed(collects, k, policy, maxBin)
      invariant FilesFrom(files, collects, k, policy, maxBin, outputDir)
      invariant FilesCover(files, collects, k, policy, maxBin, outputDir)
    {
      var p := collects[k];
      var names, fs, h := CollectOverTime(outputDir, p.suffix, p.groups, policy, maxBin, p.offset);
      CollectedFiles(names, fs, p, policy, maxBin, outputDir);
      CollectStep(files, fs, names, collects, k, policy, maxBin, outputDir);
      files := files + fs;
      if h.Some? {
        FailedPass(names, |fs|, p, policy, maxBin, h.value);
        StoppedAt(files, collects, k, policy, maxBin, outputDir);
        return files, h;
      }
      FullPass(names, p, policy, maxBin);
      SucceedStep(collects, k, policy, maxBin);
    }
    halt := None;
  }

  /** One more pass that succeeds. */
  lemma SucceedStep(ps: seq<Pass>, k: int, policy: ZeroPolicy, maxBin: int)
    requires 0 <= k < |ps| && AllSucceed(ps, k, policy, maxBin) && PassSucceeds(ps[k], policy, maxBin)
    ensures AllSucceed(ps, k + 1, policy, maxBin)
  {
  }

  /** A pass that fails ends the stage: the files written so far come from the passes up to it,
      and not every pass succeeds. */
  lemma StoppedAt(files: seq<DataFile>, ps: seq<Pass>, k: int, policy: ZeroPolicy, maxBin: int, outputDir: string)
    requires 0 <= k < |ps| && FilesFrom(files, ps, k + 1, policy, maxBin, outputDir)
    requires !PassSucceeds(ps[k], policy, maxBin)
    ensures FilesFrom(files, ps, |ps|, policy, maxBin, outputDir)
    ensures !AllSucceed(ps, |ps|, policy, maxBin)
  {
    forall f | f in files
      ensures exists j, n :: 0 <= j < |ps| && GroupFile(ps[j], n, policy, maxBin, outputDir) == Some(f)
    {
      var j, n :| 0 <= j < k + 1 && GroupFile(ps[j], n, policy, maxBin, outputDir) == Some(f);
    }
  }

  /** Appending one collect pass's files keeps the earlier files and adds only that pass's. */
  lemma CollectStep(files: seq<DataFile>, fs: seq<DataFile>, names: seq<string>, ps: seq<Pass>, k: int,
                    policy: ZeroPolicy, maxBin: int, outputDir: string)
    requires 0 <= k < |ps| && |fs| <= |names|
    requires FilesFrom(files, ps, k, policy, maxBin, outputDir)
    requires FilesCover(files, ps, k, policy, maxBin, outputDir)
    requires forall i :: 0 <= i < |fs| ==> GroupFile(ps[k], names[i], policy, maxBin, outputDir) == Some(fs[i])
    requires |fs| == |names| ==> forall n :: n in ps[k].groups ==>
      GroupFile(ps[k], n, policy, maxBin, outputDir).Some? && GroupFile(ps[k], n, policy, maxBin, outputDir).value in fs
    ensures FilesFrom(files + fs, ps, k + 1, policy, maxBin, outputDir)
    ensures FilesCover(files + fs, ps, k, policy, maxBin, outputDir)
    ensures |fs| == |names| ==> FilesCover(files + fs, ps, k + 1, policy, maxBin, outputDir)
  {
    forall f | f in files + fs
      ensures exists j, n :: 0 <= j < k + 1 && GroupFile(ps[j], n, policy, maxBin, outputDir) == Some(f)
    {
      if f !in files {
        var i :| 0 <= i < |fs| && fs[i] == f;
        assert GroupFile(ps[k], names[i], policy, maxBin, outputDir) == Some(f);
      }
    }
  }

  /** The plot passes, then the collect passes. */
  method Report(plots: seq<Pass>, collects: seq<Pass>, policy: ZeroPolicy, maxBin: int, outputDir: string)
    returns (files: seq<DataFile>, halt: Option<PyError>)
    ensures Reported(plots, collects, policy, maxBin, outputDir, files, halt)
  {
    halt := RunPlots(plots, policy, maxBin);
    if halt.Some? {
      return [], halt;
    }
    files, halt := RunCollects(collects, policy, maxBin, outputDir);
  }
}
