/**
 * The lead counting of leader_plotter.py: the values each tool logged for each target are read,
 * one list per (tool, target); then at every index and for every target, each tool whose value
 * is the largest of the tools' values and 0 is credited with one lead at that index.
 */
module Leader {
  import opened Wrappers

  /** A configured tool: its key in `tools` and its file per target. */
  datatype Tool = Tool(name: string, files: map<string, string>)

  /** The values of a file, one per line. */
  type Reader = string -> seq<int>

  /** The keys of `tools` are distinct. */
  predicate DistinctTools(tools: seq<Tool>) {
    forall j, l :: 0 <= j < l < |tools| ==> tools[j].name != tools[l].name
  }

  /** Every tool names a file for the target; otherwise `tool[target]` raises `KeyError`. */
  predicate HasTarget(tools: seq<Tool>, target: string) {
    forall j :: 0 <= j < |tools| ==> target in tools[j].files
  }

  /** Every tool names a file for every target. */
  predicate HasFiles(tools: seq<Tool>, targets: seq<string>) {
    forall k :: 0 <= k < |targets| ==> HasTarget(tools, targets[k])
  }

  /** The values a tool logged for a target. */
  function Series(t: Tool, target: string, read: Reader): seq<int>
    requires target in t.files
  {
    read(t.files[target])
  }

  /** `lines_no`: the length of the last file read, or 0 when nothing was read. */
  function LinesNo(tools: seq<Tool>, targets: seq<string>, read: Reader): nat
    requires HasFiles(tools, targets)
  {
    if |tools| == 0 || |targets| == 0 then 0 else |Series(tools[|tools| - 1], targets[|targets| - 1], read)|
  }

  /** The values read, by tool and then by target: `g[j][k]` is what tool `j` logged for
      target `k`. */
  type Grid = seq<seq<seq<int>>>

  function GridOf(tools: seq<Tool>, targets: seq<string>, read: Reader): (g: Grid)
    requires HasFiles(tools, targets)
    ensures |g| == |tools|
    ensures forall j :: 0 <= j < |tools| ==> |g[j]| == |targets|
    ensures forall j, k :: 0 <= j < |tools| && 0 <= k < |targets| ==> g[j][k] == Series(tools[j], targets[k], read)
  {
    seq(|tools|, j requires 0 <= j < |tools| => seq(|targets|, k requires 0 <= k < |targets| => Series(tools[j], targets[k], read)))
  }

  /** Every tool has a value at index `i` for target `k`. */
  predicate Reaches(g: Grid, k: nat, i: int) {
    forall j :: 0 <= j < |g| ==> k < |g[j]| && i < |g[j][k]|
  }

  /** Every tool has a value at index `i` for each of the first `t` targets. */
  predicate ReachAll(g: Grid, t: nat, i: int) {
    forall j :: 0 <= j < |g| ==> t <= |g[j]| && forall k :: 0 <= k < t ==> i < |g[j][k]|
  }

  /** `max_val` for target `k` at index `i` over the first `m` tools: the largest of 0 and
      their values. */
  function MaxVal(g: Grid, k: nat, i: nat, m: nat): (v: int)
    requires Reaches(g, k, i) && m <= |g|
    ensures v >= 0
  {
    if m == 0 then 0
    else
      var prev := MaxVal(g, k, i, m - 1);
      if g[m - 1][k][i] > prev then g[m - 1][k][i] else prev
  }

  /** `max_val` is at least the value of every one of the `m` tools, and it is 0 or the value
      of one of them. */
  lemma {:induction false} MaxValBounds(g: Grid, k: nat, i: nat, m: nat)
    requires Reaches(g, k, i) && m <= |g|
    ensures forall j :: 0 <= j < m ==> g[j][k][i] <= MaxVal(g, k, i, m)
    ensures MaxVal(g, k, i, m) == 0 || exists j :: 0 <= j < m && g[j][k][i] == MaxVal(g, k, i, m)
  {
    if m > 0 {
      MaxValBounds(g, k, i, m - 1);
    }
  }

  /** 1 when tool `j` holds `max_val` for target `k` at index `i`, else 0. */
  function Credit(g: Grid, k: nat, i: nat, j: nat): (c: nat)
    requires Reaches(g, k, i) && j < |g|
    ensures c <= 1
    ensures c == 1 <==> g[j][k][i] == MaxVal(g, k, i, |g|)
  {
    if g[j][k][i] == MaxVal(g, k, i, |g|) then 1 else 0
  }

  /** `tool_lead_dict[tool][i]` after the first `t` targets: for how many of them tool `j`
      holds `max_val` at index `i`. */
  function Lead(g: Grid, i: nat, j: nat, t: nat): (v: nat)
    requires ReachAll(g, t, i) && j < |g|
    ensures v <= t
  {
    if t == 0 then 0 else Lead(g, i, j, t - 1) + Credit(g, t - 1, i, j)
  }

  /** The lead lists, one per tool in key order, each with `lines_no` entries; a missing file
      raises `KeyError` and a file shorter than `lines_no` raises `IndexError`. */
  function Leads(tools: seq<Tool>, targets: seq<string>, read: Reader): (r: Result<seq<seq<int>>>)
    ensures r.Err? <==>
      !HasFiles(tools, targets) || !ReachAll(GridOf(tools, targets, read), |targets|, LinesNo(tools, targets, read) - 1)
    ensures r.Err? ==> r.error == (if HasFiles(tools, targets) then IndexError else KeyError)
    ensures r.Ok? ==> |r.value| == |tools| && forall j :: 0 <= j < |tools| ==> |r.value[j]| == LinesNo(tools, targets, read)
  {
    if !HasFiles(tools, targets) then Err(KeyError)
    else
      var g := GridOf(tools, targets, read);
      var n := LinesNo(tools, targets, read);
      if !ReachAll(g, |targets|, n - 1) then Err(IndexError)
      else Ok(seq(|tools|, j requires 0 <= j < |tools| =>
                seq(n, i requires 0 <= i < n => LeadAt(g, |targets|, n, i, j))))
  }

  /** The lead of tool `j` at an index below `lines_no`, after every target. */
  function LeadAt(g: Grid, t: nat, lines: nat, i: nat, j: nat): (v: nat)
    requires ReachAll(g, t, lines - 1) && i < lines && j < |g|
    ensures ReachAll(g, t, i) && v == Lead(g, i, j, t)
  {
    Lead(g, i, j, t)
  }

  /** A tool leads for every one of the `t` targets exactly when it holds `max_val` for each,
      and for none of them exactly when it holds `max_val` for none. */
  lemma {:induction false} LeadCounts(g: Grid, i: nat, j: nat, t: nat)
    requires ReachAll(g, t, i) && j < |g|
    ensures Lead(g, i, j, t) == t <==> forall k :: 0 <= k < t ==> g[j][k][i] == MaxVal(g, k, i, |g|)
    ensures Lead(g, i, j, t) == 0 <==> forall k :: 0 <= k < t ==> g[j][k][i] != MaxVal(g, k, i, |g|)
  {
    if t > 0 {
      LeadCounts(g, i, j, t - 1);
    }
  }

  /** The leads of the first `m` tools after `t` targets, added up. */
  function TotalLead(g: Grid, i: nat, m: nat, t: nat): nat
    requires ReachAll(g, t, i) && m <= |g|
  {
    if m == 0 then 0 else TotalLead(g, i, m - 1, t) + Lead(g, i, m - 1, t)
  }

  /** How many of the first `m` tools hold `max_val` for target `k`. */
  function Winners(g: Grid, k: nat, i: nat, m: nat): nat
    requires Reaches(g, k, i) && m <= |g|
  {
    if m == 0 then 0 else Winners(g, k, i, m - 1) + Credit(g, k, i, m - 1)
  }

  /** The winners of the first `t` targets, added up. */
  function WinnersOver(g: Grid, i: nat, t: nat): nat
    requires ReachAll(g, t, i)
  {
    if t == 0 then 0 else WinnersOver(g, i, t - 1) + Winners(g, t - 1, i, |g|)
  }

  /** One more target adds its winners to the total. */
  lemma {:induction false} TotalLeadByTarget(g: Grid, i: nat, m: nat, t: nat)
    requires ReachAll(g, t, i) && m <= |g| && 0 < t
    ensures TotalLead(g, i, m, t) == TotalLead(g, i, m, t - 1) + Winners(g, t - 1, i, m)
  {
    if m > 0 {
      TotalLeadByTarget(g, i, m - 1, t);
    }
  }

  /** No target, no lead. */
  lemma {:induction false} TotalLeadEmpty(g: Grid, i: nat, m: nat)
    requires m <= |g|
    ensures TotalLead(g, i, m, 0) == 0
  {
    if m > 0 {
      TotalLeadEmpty(g, i, m - 1);
    }
  }

  /** The total lead at an index is the number of (target, leading tool) pairs. */
  lemma {:induction false} TotalLeadIsWinners(g: Grid, i: nat, t: nat)
    requires ReachAll(g, t, i)
    ensures TotalLead(g, i, |g|, t) == WinnersOver(g, i, t)
  {
    if t > 0 {
      TotalLeadByTarget(g, i, |g|, t);
      TotalLeadIsWinners(g, i, t - 1);
    } else {
      TotalLeadEmpty(g, i, |g|);
    }
  }

  /** A target has a winner among the first `m` tools once one of them holds `max_val`. */
  lemma {:induction false} WinnerExists(g: Grid, k: nat, i: nat, m: nat, w: nat)
    requires Reaches(g, k, i) && w < m <= |g|
    requires g[w][k][i] == MaxVal(g, k, i, |g|)
    ensures Winners(g, k, i, m) >= 1
  {
    if w < m - 1 {
      WinnerExists(g, k, i, m - 1, w);
    }
  }

  /** Every target has a winner when no value at the index is negative. */
  lemma {:induction false} WinnersAtLeast(g: Grid, i: nat, t: nat)
    requires ReachAll(g, t, i) && |g| > 0
    requires forall j, k :: 0 <= j < |g| && 0 <= k < t ==> g[j][k][i] >= 0
    ensures WinnersOver(g, i, t) >= t
  {
    if t > 0 {
      var k := t - 1;
      WinnersAtLeast(g, i, k);
      MaxValBounds(g, k, i, |g|);
      var m := MaxVal(g, k, i, |g|);
      if m == 0 {
        assert g[0][k][i] <= m;
        WinnerExists(g, k, i, |g|, 0);
      } else {
        var w :| 0 <= w < |g| && g[w][k][i] == m;
        WinnerExists(g, k, i, |g|, w);
      }
    }
  }

  /** When no tool logged a negative value at an index, every target credits at least one tool
      there, so the leads at that index add up to at least the number of targets. */
  lemma LeadsCoverTargets(g: Grid, i: nat, t: nat)
    requires ReachAll(g, t, i) && |g| > 0
    requires forall j, k :: 0 <= j < |g| && 0 <= k < t ==> g[j][k][i] >= 0
    ensures TotalLead(g, i, |g|, t) >= t
  {
    TotalLeadIsWinners(g, i, t);
    WinnersAtLeast(g, i, t);
  }

  /** When every value at an index is negative, `max_val` stays 0 and no tool leads there. */
  lemma NoLeadBelowZero(g: Grid, i: nat, j: nat, t: nat)
    requires ReachAll(g, t, i) && j < |g|
    requires forall l, k :: 0 <= l < |g| && 0 <= k < t ==> g[l][k][i] < 0
    ensures Lead(g, i, j, t) == 0
  {
    LeadCounts(g, i, j, t);
  }

  /** The leads of the first `m` tools at index `i` of the lead lists, added up. */
  function LeadSum(leads: seq<seq<int>>, i: nat, m: nat): int
    requires m <= |leads| && forall j :: 0 <= j < m ==> i < |leads[j]|
  {
    if m == 0 then 0 else LeadSum(leads, i, m - 1) + leads[m - 1][i]
  }

  /** In the lead lists the script computes, every entry counts the targets for which the
      tool holds `max_val` at that index, so it lies between 0 and the number of targets. */
  lemma LeadsBounded(tools: seq<Tool>, targets: seq<string>, read: Reader)
    requires Leads(tools, targets, read).Ok?
    ensures var v := Leads(tools, targets, read).value; var g := GridOf(tools, targets, read);
      forall j, i :: 0 <= j < |tools| && 0 <= i < |v[j]| ==>
        ReachAll(g, |targets|, i) && v[j][i] == Lead(g, i, j, |targets|) && 0 <= v[j][i] <= |targets|
  {
  }

  /** When no tool logged a negative value, the leads of all tools at an index add up to at
      least the number of targets. */
  lemma LeadsSumAtLeastTargets(tools: seq<Tool>, targets: seq<string>, read: Reader, i: nat)
    requires Leads(tools, targets, read).Ok? && |tools| > 0 && i < LinesNo(tools, targets, read)
    requires forall j, k :: 0 <= j < |tools| && 0 <= k < |targets| ==> Series(tools[j], targets[k], read)[i] >= 0
    ensures LeadSum(Leads(tools, targets, read).value, i, |tools|) >= |targets|
  {
    var v := Leads(tools, targets, read).value;
    var g := GridOf(tools, targets, read);
    LeadSumIsTotal(v, g, i, |targets|, |tools|);
    LeadsCoverTargets(g, i, |targets|);
  }

  /** Adding up the lead lists at an index gives the total lead. */
  lemma {:induction false} LeadSumIsTotal(leads: seq<seq<int>>, g: Grid, i: nat, t: nat, m: nat)
    requires ReachAll(g, t, i) && m <= |g| && m <= |leads|
    requires forall j :: 0 <= j < m ==> i < |leads[j]| && leads[j][i] == Lead(g, i, j, t)
    ensures LeadSum(leads, i, m) == TotalLead(g, i, m, t)
  {
    if m > 0 {
      LeadSumIsTotal(leads, g, i, t, m - 1);
    }
  }

  /** `tool_lines_dict`: tool key, then target, to the values read. */
  type Table = map<string, map<string, seq<int>>>

  /** The table holds the values read from the tool's file for the target. */
  ghost predicate Holds(table: Table, t: Tool, target: string, read: Reader) {
    target in t.files && t.name in table && target in table[t.name] && table[t.name][target] == Series(t, target, read)
  }

  /** The table holds, for every tool and target, the values read from the tool's file. */
  ghost predicate TableOf(table: Table, tools: seq<Tool>, targets: seq<string>, read: Reader) {
    forall j, k :: 0 <= j < |tools| && 0 <= k < |targets| ==> Holds(table, tools[j], targets[k], read)
  }

  /** `tool_lines_dict[tool_key][target] = lines`, the inner dictionary created when absent. */
  function Put(table: Table, t: Tool, target: string, read: Reader): (table': Table)
    requires target in t.files
    ensures Holds(table', t, target, read)
    ensures table'.Keys == table.Keys + {t.name}
  {
    table[t.name := (if t.name in table then table[t.name] else map[])[target := Series(t, target, read)]]
  }

  /** Storing a file's values keeps every other tool's and target's entry. */
  lemma PutKeeps(table: Table, t: Tool, target: string, u: Tool, x: string, read: Reader)
    requires target in t.files && Holds(table, u, x, read)
    requires u.name == t.name ==> u == t
    ensures Holds(Put(table, t, target, read), u, x, read)
  {
  }

  /** The reading loop as written: every target, every tool; a tool without a file for the
      target raises `KeyError`, and `lines_no` is the length of the file read last. */
  method ReadTable(tools: seq<Tool>, targets: seq<string>, read: Reader) returns (r: Result<(Table, nat)>)
    requires DistinctTools(tools)
    ensures r.Err? <==> !HasFiles(tools, targets)
    ensures r.Err? ==> r.error == KeyError
    ensures r.Ok? ==> HasFiles(tools, targets) && TableOf(r.value.0, tools, targets, read) && r.value.1 == LinesNo(tools, targets, read)
  {
    var table: Table := map[];
    var linesNo: nat := 0;
    for k := 0 to |targets|
      invariant HasFiles(tools, targets[..k]) && TableOf(table, tools, targets[..k], read)
      invariant linesNo == LinesNo(tools, targets[..k], read)
    {
      var target := targets[k];
      var prev := linesNo;
      for j := 0 to |tools|
        invariant HasTarget(tools[..j], target) && TableOf(table, tools, targets[..k], read)
        invariant forall l :: 0 <= l < j ==> Holds(table, tools[l], target, read)
        invariant linesNo == if j == 0 then prev else |Series(tools[j - 1], target, read)|
      {
        var tool := tools[j];
        if target !in tool.files {
          assert !HasTarget(tools, targets[k]);
          return Err(KeyError);
        }
        ReadStep(table, tools, targets[..k], target, j, read);
        table := Put(table, tool, target, read);
        linesNo := |Series(tool, target, read)|;
      }
      assert tools[..|tools|] == tools;
      ReadTarget(table, tools, targets, k, read);
    }
    assert targets[..|targets|] == targets;
    r := Ok((table, linesNo));
  }

  /** One file stored keeps what the table held. */
  lemma ReadStep(table: Table, tools: seq<Tool>, done: seq<string>, target: string, j: int, read: Reader)
    requires DistinctTools(tools) && 0 <= j < |tools| && target in tools[j].files
    requires TableOf(table, tools, done, read)
    requires forall l :: 0 <= l < j ==> Holds(table, tools[l], target, read)
    ensures TableOf(Put(table, tools[j], target, read), tools, done, read)
    ensures forall l :: 0 <= l <= j ==> Holds(Put(table, tools[j], target, read), tools[l], target, read)
  {
    forall l, k | 0 <= l < |tools| && 0 <= k < |done| ensures Holds(Put(table, tools[j], target, read), tools[l], done[k], read) {
      PutKeeps(table, tools[j], target, tools[l], done[k], read);
    }
    forall l | 0 <= l < j ensures Holds(Put(table, tools[j], target, read), tools[l], target, read) {
      PutKeeps(table, tools[j], target, tools[l], target, read);
    }
  }

  /** One more target read. */
  lemma ReadTarget(table: Table, tools: seq<Tool>, targets: seq<string>, k: int, read: Reader)
    requires 0 <= k < |targets| && HasFiles(tools, targets[..k]) && TableOf(table, tools, targets[..k], read)
    requires HasTarget(tools, targets[k]) && forall l :: 0 <= l < |tools| ==> Holds(table, tools[l], targets[k], read)
    ensures HasFiles(tools, targets[..k + 1]) && TableOf(table, tools, targets[..k + 1], read)
    ensures |tools| > 0 ==> LinesNo(tools, targets[..k + 1], read) == |Series(tools[|tools| - 1], targets[k], read)|
  {
    assert targets[..k + 1] == targets[..k] + [targets[k]];
  }

  /** The table holds the grid's values. */
  ghost predicate TableGrid(table: Table, tools: seq<Tool>, targets: seq<string>, g: Grid) {
    |g| == |tools| &&
    forall j :: 0 <= j < |tools| ==>
      |g[j]| == |targets| && tools[j].name in table && forall k :: 0 <= k < |targets| ==> targets[k] in table[tools[j].name] && table[tools[j].name][targets[k]] == g[j][k]
  }

  /** The `max_val` loop of one target at index `i`: a file without a value at `i` raises
      `IndexError`. */
  method MaxAt(table: Table, tools: seq<Tool>, targets: seq<string>, k: nat, i: nat, ghost g: Grid)
    returns (r: Result<int>)
    requires TableGrid(table, tools, targets, g) && k < |targets|
    ensures r.Err? <==> !Reaches(g, k, i)
    ensures r.Err? ==> r.error == IndexError
    ensures r.Ok? ==> Reaches(g, k, i) && r.value == MaxVal(g, k, i, |tools|)
  {
    var maxVal := 0;
    for j := 0 to |tools|
      invariant forall l :: 0 <= l < j ==> i < |g[l][k]|
      invariant Reaches(g, k, i) ==> maxVal == MaxVal(g, k, i, j)
    {
      var values := table[tools[j].name][targets[k]];
      if i >= |values| {
        return Err(IndexError);
      }
      if values[i] > maxVal {
        maxVal := values[i];
      }
    }
    r := Ok(maxVal);
  }

  /** The crediting loop of one target at index `i`: every tool holding `max_val` gets a
      lead. */
  method CreditAt(leads: seq<seq<int>>, table: Table, tools: seq<Tool>, targets: seq<string>, k: nat, i: nat, maxVal: int, ghost g: Grid)
    returns (leads': seq<seq<int>>)
    requires |leads| == |tools| && forall j :: 0 <= j < |tools| ==> i < |leads[j]|
    requires TableGrid(table, tools, targets, g) && k < |targets|
    requires Reaches(g, k, i) && maxVal == MaxVal(g, k, i, |g|)
    ensures |leads'| == |tools|
    ensures forall j :: 0 <= j < |tools| ==> leads'[j] == leads[j][i := leads[j][i] + Credit(g, k, i, j)]
  {
    leads' := leads;
    for j := 0 to |tools|
      invariant |leads'| == |tools|
      invariant forall l :: 0 <= l < j ==> leads'[l] == leads[l][i := leads[l][i] + Credit(g, k, i, l)]
      invariant forall l :: j <= l < |tools| ==> leads'[l] == leads[l]
    {
      if table[tools[j].name][targets[k]][i] == maxVal {
        leads' := leads'[j := leads'[j][i := leads'[j][i] + 1]];
      }
    }
  }

  /** One index of the counting loop: every target in turn. */
  method CountIndex(leads: seq<seq<int>>, table: Table, tools: seq<Tool>, targets: seq<string>, n: nat, i: nat, ghost g: Grid)
    returns (r: Result<seq<seq<int>>>)
    requires i < n && |leads| == |tools| && forall j :: 0 <= j < |tools| ==> |leads[j]| == n
    requires TableGrid(table, tools, targets, g)
    requires forall j :: 0 <= j < |tools| ==> leads[j][i] == 0
    ensures r.Err? <==> !ReachAll(g, |targets|, i)
    ensures r.Err? ==> r.error == IndexError
    ensures r.Ok? ==> ReachAll(g, |targets|, i) && |r.value| == |tools|
    ensures r.Ok? ==> forall j :: 0 <= j < |tools| ==> r.value[j] == leads[j][i := Lead(g, i, j, |targets|)]
  {
    var cur := leads;
    for k := 0 to |targets|
      invariant |cur| == |tools| && ReachAll(g, k, i)
      invariant forall j :: 0 <= j < |tools| ==> cur[j] == leads[j][i := Lead(g, i, j, k)]
    {
      var m := MaxAt(table, tools, targets, k, i, g);
      if m.Err? {
        return Err(IndexError);
      }
      cur := CreditAt(cur, table, tools, targets, k, i, m.value, g);
    }
    r := Ok(cur);
  }

  /** The counting loops as written, after the reading loop: every lead list starts as
      `lines_no` zeros, then every index and every target credit the leading tools. */
  method LeaderMain(tools: seq<Tool>, targets: seq<string>, read: Reader) returns (r: Result<seq<seq<int>>>)
    requires DistinctTools(tools)
    ensures r == Leads(tools, targets, read)
  {
    var t := ReadTable(tools, targets, read);
    if t.Err? {
      return Err(KeyError);
    }
    var (table, linesNo) := t.value;
    ghost var g := GridOf(tools, targets, read);
    var leads: seq<seq<int>> := seq(|tools|, j => seq(linesNo, i => 0));
    for i := 0 to linesNo
      invariant Counted(g, |targets|, leads, i, linesNo)
    {
      var row := CountIndex(leads, table, tools, targets, linesNo, i, g);
      if row.Err? {
        assert !ReachAll(g, |targets|, linesNo - 1);
        return Err(IndexError);
      }
      CountedStep(g, |targets|, leads, row.value, i, linesNo);
      leads := row.value;
    }
    LeadsOk(tools, targets, read, leads);
    r := Ok(leads);
  }

  /** The lead lists after the first `i` of `n` indexes: every tool's list has `n` entries,
      those before `i` hold the tool's lead there and the rest are still 0. */
  ghost predicate Counted(g: Grid, t: nat, leads: seq<seq<int>>, i: nat, n: nat) {
    |leads| == |g| &&
    (forall j :: 0 <= j < |g| ==> |leads[j]| == n) &&
    (forall i' :: 0 <= i' < i ==> ReachAll(g, t, i')) &&
    (forall j, i' :: 0 <= j < |g| && 0 <= i' < i && i' < n && ReachAll(g, t, i') ==> leads[j][i'] == Lead(g, i', j, t)) &&
    (forall j, i' :: 0 <= j < |g| && i <= i' < n ==> leads[j][i'] == 0)
  }

  /** Counting index `i` extends the counted prefix by one. */
  lemma CountedStep(g: Grid, t: nat, before: seq<seq<int>>, after: seq<seq<int>>, i: nat, n: nat)
    requires i < n && Counted(g, t, before, i, n) && ReachAll(g, t, i)
    requires |after| == |g| && forall j :: 0 <= j < |g| ==> after[j] == before[j][i := Lead(g, i, j, t)]
    ensures Counted(g, t, after, i + 1, n)
  {
  }

  /** Counting that completes gives the lead lists. */
  lemma LeadsOk(tools: seq<Tool>, targets: seq<string>, read: Reader, leads: seq<seq<int>>)
    requires HasFiles(tools, targets)
    requires var n := LinesNo(tools, targets, read); Counted(GridOf(tools, targets, read), |targets|, leads, n, n)
    ensures Leads(tools, targets, read) == Ok(leads)
  {
    var g := GridOf(tools, targets, read);
    var n := LinesNo(tools, targets, read);
    if n > 0 {
      assert ReachAll(g, |targets|, n - 1);
    }
    var v := Leads(tools, targets, read).value;
    forall j | 0 <= j < |tools| ensures v[j] == leads[j] {
      assert forall i :: 0 <= i < n ==> v[j][i] == leads[j][i];
    }
    assert v == leads;
  }
}
