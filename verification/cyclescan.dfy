/**
 * The grouping both fot statistics scripts (fot_stat/fot_stat.py and fot-stat/fot-stat.py)
 * perform on one log file. A line starting with `cycle` opens the cycle named by the text
 * after its first '-', discarding whatever an earlier header of the same name collected;
 * every other line is a decoded record whose edge set, function set and value are collected,
 * per rank, under the current cycle. Python dictionaries keep insertion order and an
 * assignment to an existing key keeps its place, so dictionaries are association lists here.
 */
module CycleScan {
  import opened Wrappers
  import opened PyText
  import opened Dicts

  // Records grouped by rank

  /** A decoded record line: its rank, the edges and functions it covers, and its value. */
  datatype Record<V> = Record(rank: int, edges: set<int>, funcs: set<string>, value: V)

  /** What one rank of a cycle has collected: the union of the sets, and one value per
      record, in order. */
  datatype RankData<V> = RankData(edges: set<int>, funcs: set<string>, values: seq<V>)

  /** A cycle's dictionary from rank to collected data. */
  type Group<V> = seq<(int, RankData<V>)>

  /** The first record of a rank creates its entry; a later one adds its sets by union and
      appends its value. */
  function Merge<V>(d: Option<RankData<V>>, rec: Record<V>): RankData<V> {
    match d
    case None => RankData(rec.edges, rec.funcs, [rec.value])
    case Some(prev) => RankData(prev.edges + rec.edges, prev.funcs + rec.funcs, prev.values + [rec.value])
  }

  /** One record line entered in the current cycle's dictionaries. */
  function AddRecord<V>(g: Group<V>, rec: Record<V>): (r: Group<V>)
    ensures Lookup(r, rec.rank) == Some(Merge(Lookup(g, rec.rank), rec))
    ensures forall k :: k != rec.rank ==> Lookup(r, k) == Lookup(g, k)
  {
    var r := Assign(g, rec.rank, Merge(Lookup(g, rec.rank), rec));
    AssignLookup(g, rec.rank, Merge(Lookup(g, rec.rank), rec), rec.rank);
    forall k | k != rec.rank
      ensures Lookup(r, k) == Lookup(g, k)
    {
      AssignLookup(g, rec.rank, Merge(Lookup(g, rec.rank), rec), k);
    }
    r
  }

  /** The records of a cycle entered one after another into `start`. */
  function GroupFrom<V>(start: Group<V>, recs: seq<Record<V>>): Group<V>
    decreases |recs|
  {
    if |recs| == 0 then start else AddRecord(GroupFrom(start, recs[..|recs| - 1]), recs[|recs| - 1])
  }

  /** The dictionary a cycle's records build from the empty one its header leaves. */
  function GroupOf<V>(recs: seq<Record<V>>): Group<V> {
    GroupFrom([], recs)
  }

  /** Reference definitions: the values, edges and functions of the records of rank `k`. */
  function ValuesOf<V>(recs: seq<Record<V>>, k: int): seq<V>
    decreases |recs|
  {
    if |recs| == 0 then []
    else
      var last := recs[|recs| - 1];
      ValuesOf(recs[..|recs| - 1], k) + if last.rank == k then [last.value] else []
  }

  function EdgesOf<V>(recs: seq<Record<V>>, k: int): set<int>
    decreases |recs|
  {
    if |recs| == 0 then {}
    else
      var last := recs[|recs| - 1];
      EdgesOf(recs[..|recs| - 1], k) + if last.rank == k then last.edges else {}
  }

  function FuncsOf<V>(recs: seq<Record<V>>, k: int): set<string>
    decreases |recs|
  {
    if |recs| == 0 then {}
    else
      var last := recs[|recs| - 1];
      FuncsOf(recs[..|recs| - 1], k) + if last.rank == k then last.funcs else {}
  }

  /** A rank without records covers nothing. */
  lemma {:induction false} NoRecordsOf<V>(recs: seq<Record<V>>, k: int)
    requires |ValuesOf(recs, k)| == 0
    ensures EdgesOf(recs, k) == {} && FuncsOf(recs, k) == {}
    decreases |recs|
  {
    if |recs| > 0 {
      NoRecordsOf(recs[..|recs| - 1], k);
    }
  }

  /** A rank has an entry exactly when some record has that rank; its sets are then the
      unions over those records and its list holds their values in file order. */
  lemma {:induction false} GroupOfLookup<V>(recs: seq<Record<V>>, k: int)
    ensures Lookup(GroupOf(recs), k) ==
      if |ValuesOf(recs, k)| == 0 then None
      else Some(RankData(EdgesOf(recs, k), FuncsOf(recs, k), ValuesOf(recs, k)))
    decreases |recs|
  {
    if |recs| > 0 {
      var front := recs[..|recs| - 1];
      var x := recs[|recs| - 1];
      GroupOfLookup(front, k);
      assert GroupOf(recs) == AddRecord(GroupOf(front), x);
      if x.rank == k {
        assert Lookup(GroupOf(recs), k) == Some(Merge(Lookup(GroupOf(front), k), x));
        assert ValuesOf(recs, k) == ValuesOf(front, k) + [x.value];
        assert EdgesOf(recs, k) == EdgesOf(front, k) + x.edges;
        assert FuncsOf(recs, k) == FuncsOf(front, k) + x.funcs;
        if |ValuesOf(front, k)| == 0 {
          NoRecordsOf(front, k);
          assert EdgesOf(recs, k) == x.edges && FuncsOf(recs, k) == x.funcs;
          assert ValuesOf(recs, k) == [x.value];
        }
      } else {
        assert Lookup(AddRecord(GroupOf(front), x), k) == Lookup(GroupOf(front), k);
        assert ValuesOf(recs, k) == ValuesOf(front, k) + [] == ValuesOf(front, k);
        assert EdgesOf(recs, k) == EdgesOf(front, k) + {} == EdgesOf(front, k);
        assert FuncsOf(recs, k) == FuncsOf(front, k) + {} == FuncsOf(front, k);
        assert Lookup(GroupOf(recs), k) == Lookup(GroupOf(front), k);
      }
    }
  }

  /** The number of values a cycle holds over all of its ranks. */
  function Total<V>(g: Group<V>): nat {
    if |g| == 0 then 0 else |g[0].1.values| + Total(g[1..])
  }

  lemma {:induction false} TotalAddRecord<V>(g: Group<V>, rec: Record<V>)
    ensures Total(AddRecord(g, rec)) == Total(g) + 1
  {
    if |g| > 0 && g[0].0 != rec.rank {
      TotalAddRecord(g[1..], rec);
      assert AddRecord(g, rec) == [g[0]] + AddRecord(g[1..], rec);
      assert ([g[0]] + AddRecord(g[1..], rec))[1..] == AddRecord(g[1..], rec);
    } else if |g| > 0 {
      assert AddRecord(g, rec)[1..] == g[1..];
    }
  }

  /** Every record is counted once: the values of a cycle number its records. */
  lemma {:induction false} GroupOfTotal<V>(recs: seq<Record<V>>)
    ensures Total(GroupOf(recs)) == |recs|
    decreases |recs|
  {
    if |recs| > 0 {
      GroupOfTotal(recs[..|recs| - 1]);
      TotalAddRecord(GroupOf(recs[..|recs| - 1]), recs[|recs| - 1]);
    }
  }

  /** A cycle's ranks are distinct. */
  lemma {:induction false} GroupFromDistinct<V>(start: Group<V>, recs: seq<Record<V>>)
    requires Distinct(Keys(start))
    ensures Distinct(Keys(GroupFrom(start, recs)))
    decreases |recs|
  {
    if |recs| > 0 {
      GroupFromDistinct(start, recs[..|recs| - 1]);
    }
  }

  /** Every rank of a cycle holds the values of exactly its records, so none is empty. */
  lemma GroupOfEntries<V>(recs: seq<Record<V>>, i: int)
    requires 0 <= i < |GroupOf(recs)|
    ensures var (k, d) := GroupOf(recs)[i];
      d == RankData(EdgesOf(recs, k), FuncsOf(recs, k), ValuesOf(recs, k)) && |d.values| > 0
  {
    var g := GroupOf(recs);
    GroupFromDistinct([], recs);
    LookupAt(g, i);
    GroupOfLookup(recs, g[i].0);
  }

  // Coverage shares

  /** `all_edges`: the union of the edge sets of every rank of a cycle. */
  function AllEdges<V>(g: Group<V>): set<int>
    decreases |g|
  {
    if |g| == 0 then {} else AllEdges(g[..|g| - 1]) + g[|g| - 1].1.edges
  }

  /** `all_funcs`, likewise for the function sets. */
  function AllFuncs<V>(g: Group<V>): set<string>
    decreases |g|
  {
    if |g| == 0 then {} else AllFuncs(g[..|g| - 1]) + g[|g| - 1].1.funcs
  }

  lemma SubsetCard<T>(a: set<T>, b: set<T>)
    requires a <= b
    ensures |a| <= |b|
  {
    assert b == a + (b - a);
  }

  /** Every rank's sets lie within the cycle's unions, so each coverage ratio is at most 1. */
  lemma {:induction false} ShareBound<V>(g: Group<V>, i: int)
    requires 0 <= i < |g|
    ensures g[i].1.edges <= AllEdges(g) && |g[i].1.edges| <= |AllEdges(g)|
    ensures g[i].1.funcs <= AllFuncs(g) && |g[i].1.funcs| <= |AllFuncs(g)|
    decreases |g|
  {
    if i < |g| - 1 {
      ShareBound(g[..|g| - 1], i);
    }
    SubsetCard(g[i].1.edges, AllEdges(g));
    SubsetCard(g[i].1.funcs, AllFuncs(g));
  }

  /** The loop `for e_set in d.values(): all_edges |= e_set`. */
  method UnionEdges<V>(g: Group<V>) returns (all: set<int>)
    ensures all == AllEdges(g)
  {
    all := {};
    for i := 0 to |g|
      invariant all == AllEdges(g[..i])
    {
      assert g[..i + 1][..i] == g[..i];
      all := all + g[i].1.edges;
    }
    assert g[..|g|] == g;
  }

  /** The same loop over the function sets. */
  method UnionFuncs<V>(g: Group<V>) returns (all: set<string>)
    ensures all == AllFuncs(g)
  {
    all := {};
    for i := 0 to |g|
      invariant all == AllFuncs(g[..i])
    {
      assert g[..i + 1][..i] == g[..i];
      all := all + g[i].1.funcs;
    }
    assert g[..|g|] == g;
  }

  // Scanning a file

  /** The scan so far: `cycle_seq` (`None` while it is still the initial 0, which is never a
      key) and the dictionary from cycle name to its rank dictionary. */
  datatype Scanned<V> = Scanned(cycle: Option<string>, tally: seq<(string, Group<V>)>)

  /** `json.loads` and the key lookups on the decoded record; its errors are the parameter's. */
  type Decoder<V> = string -> Result<Record<V>>

  /** `re.search("^cycle", line)`. */
  predicate IsHeader(line: string) {
    StartsWith(line, "cycle")
  }

  /** A separator character present in a text cuts it into at least two pieces. */
  lemma {:induction false} SplitOnCharIn(s: string, c: char)
    requires c in s
    ensures |SplitOn(s, [c])| >= 2
    decreases |s|
  {
    if s[0] == c {
      assert s[..1] == [c];
      SplitOnSepFirst(s, [c]);
    } else {
      assert s[..1] != [c];
      assert c in s[1..] by {
        var i :| 0 <= i < |s| && s[i] == c;
        assert s[1..][i - 1] == c;
      }
      SplitOnCharIn(s[1..], c);
    }
  }

  /** `line.split('-')[1].rstrip()`: `IndexError` exactly when the line holds no '-'. */
  function HeaderKey(line: string): (r: Result<string>)
    ensures r.Ok? <==> '-' in line
    ensures r.Err? ==> r.error == IndexError
  {
    var parts := SplitOn(line, "-");
    assert |parts| < 2 <==> '-' !in line by {
      if '-' in line {
        SplitOnCharIn(line, '-');
      } else {
        SplitOnCharFree(line, '-');
      }
    }
    if |parts| < 2 then Err(IndexError) else Ok(RStrip(parts[1]))
  }

  /** The key is the text between the first and the second '-' (or the end of the line),
      with trailing whitespace, such as the line's newline, removed. */
  lemma HeaderKeyOf(a: string, b: string, rest: string)
    requires '-' !in a && '-' !in b
    requires |rest| == 0 || rest[0] == '-'
    ensures HeaderKey(a + "-" + b + rest) == Ok(RStrip(b))
  {
    HeaderParts(a, b, rest);
    SplitOnCharAfter(a, '-', b + rest);
    if |rest| == 0 {
      SplitOnCharFree(b, '-');
    } else {
      SplitOnCharAfter(b, '-', rest[1..]);
    }
  }

  lemma HeaderParts(a: string, b: string, rest: string)
    requires |rest| == 0 || rest[0] == '-'
    ensures a + "-" + b + rest == a + ['-'] + (b + rest)
    ensures |rest| == 0 ==> b + rest == b
    ensures |rest| > 0 ==> b + rest == b + ['-'] + rest[1..]
  {
    assert a + "-" + b + rest == a + ['-'] + (b + rest);
    if |rest| > 0 {
      assert rest == ['-'] + rest[1..];
    }
  }

  /** One line of the file. A header (re)opens its cycle with an empty dictionary; a record
      is decoded first, and entering it needs a current cycle (`edge_cov_dict[0]` raises
      `KeyError`). */
  function Step<V>(st: Scanned<V>, line: string, decode: Decoder<V>): Result<Scanned<V>> {
    if IsHeader(line) then
      match HeaderKey(line)
      case Err(e) => Err(e)
      case Ok(k) => Ok(Scanned(Some(k), Assign(st.tally, k, [])))
    else
      match decode(line)
      case Err(e) => Err(e)
      case Ok(rec) =>
        if st.cycle.None? then Err(KeyError)
        else
          match Lookup(st.tally, st.cycle.value)
          case None => Err(KeyError)
          case Some(g) => Ok(Scanned(st.cycle, Assign(st.tally, st.cycle.value, AddRecord(g, rec))))
  }

  /** The line loop over the first lines of a file; the first exception ends it. */
  function ScanLines<V>(lines: seq<string>, decode: Decoder<V>): Result<Scanned<V>>
    decreases |lines|
  {
    if |lines| == 0 then Ok(Scanned(None, []))
    else
      match ScanLines(lines[..|lines| - 1], decode)
      case Err(e) => Err(e)
      case Ok(st) => Step(st, lines[|lines| - 1], decode)
  }

  /** The invariant of the scan: cycle names are distinct and the current cycle is one. */
  predicate WellScanned<V>(st: Scanned<V>) {
    Distinct(Keys(st.tally)) && (st.cycle.Some? ==> st.cycle.value in Keys(st.tally))
  }

  lemma StepWell<V>(st: Scanned<V>, line: string, decode: Decoder<V>)
    requires WellScanned(st)
    ensures Step(st, line, decode).Ok? ==> WellScanned(Step(st, line, decode).value)
  {
  }

  /** Every scan that completes keeps the invariant, so a record after the first header
      always finds its cycle: the only `KeyError` of the loop is a record before any header. */
  lemma {:induction false} ScanWell<V>(lines: seq<string>, decode: Decoder<V>)
    ensures ScanLines(lines, decode).Ok? ==> WellScanned(ScanLines(lines, decode).value)
    decreases |lines|
  {
    if |lines| > 0 {
      ScanWell(lines[..|lines| - 1], decode);
      if ScanLines(lines[..|lines| - 1], decode).Ok? {
        StepWell(ScanLines(lines[..|lines| - 1], decode).value, lines[|lines| - 1], decode);
      }
    }
  }

  /** Once a line raises, the loop stays stopped with that error. */
  lemma {:induction false} ScanHalted<V>(lines: seq<string>, n: nat, decode: Decoder<V>)
    requires n <= |lines| && ScanLines(lines[..n], decode).Err?
    ensures ScanLines(lines, decode) == ScanLines(lines[..n], decode)
    decreases |lines|
  {
    if n < |lines| {
      assert lines[..|lines| - 1][..n] == lines[..n];
      ScanHalted(lines[..|lines| - 1], n, decode);
    } else {
      assert lines[..n] == lines;
    }
  }

  /** A record line that decodes but comes before any header raises `KeyError`. */
  lemma RecordBeforeHeader<V>(lines: seq<string>, decode: Decoder<V>)
    requires |lines| > 0 && !IsHeader(lines[0]) && decode(lines[0]).Ok?
    ensures ScanLines(lines, decode) == Err(KeyError)
  {
    assert lines[..1][..0] == [];
    ScanHalted(lines, 1, decode);
  }

  /** The decoded records of lines that all decode. */
  function Decoded<V>(lines: seq<string>, decode: Decoder<V>): (recs: seq<Record<V>>)
    requires forall i :: 0 <= i < |lines| ==> decode(lines[i]).Ok?
    ensures |recs| == |lines|
  {
    seq(|lines|, i requires 0 <= i < |lines| => decode(lines[i]).value)
  }

  /** The loop over one more line is one more step. */
  lemma ScanSnoc<V>(lines: seq<string>, line: string, decode: Decoder<V>)
    ensures ScanLines(lines + [line], decode) ==
      if ScanLines(lines, decode).Err? then ScanLines(lines, decode)
      else Step(ScanLines(lines, decode).value, line, decode)
  {
    assert (lines + [line])[..|lines|] == lines;
  }

  /** A record line that decodes enters the current cycle's dictionary. */
  lemma RecordStep<V>(st: Scanned<V>, line: string, decode: Decoder<V>)
    requires st.cycle.Some? && Lookup(st.tally, st.cycle.value).Some?
    requires !IsHeader(line) && decode(line).Ok?
    ensures var k := st.cycle.value;
      var g := AddRecord(Lookup(st.tally, k).value, decode(line).value);
      Step(st, line, decode) == Ok(Scanned(st.cycle, Assign(st.tally, k, g))) &&
      Keys(Assign(st.tally, k, g)) == Keys(st.tally) &&
      Lookup(Assign(st.tally, k, g), k) == Some(g) &&
      forall j :: j != k ==> Lookup(Assign(st.tally, k, g), j) == Lookup(st.tally, j)
  {
    var k := st.cycle.value;
    var g := AddRecord(Lookup(st.tally, k).value, decode(line).value);
    forall j
      ensures Lookup(Assign(st.tally, k, g), j) == if j == k then Some(g) else Lookup(st.tally, j)
    {
      AssignLookup(st.tally, k, g, j);
    }
  }

  /** Record lines after a scan that has a current cycle enter that cycle, one after another,
      and change nothing else. */
  lemma {:induction false} ScanRecords<V>(pre: seq<string>, more: seq<string>, decode: Decoder<V>)
    requires ScanLines(pre, decode).Ok? && ScanLines(pre, decode).value.cycle.Some?
    requires Lookup(ScanLines(pre, decode).value.tally, ScanLines(pre, decode).value.cycle.value).Some?
    requires forall i :: 0 <= i < |more| ==> !IsHeader(more[i]) && decode(more[i]).Ok?
    ensures ScanLines(pre + more, decode).Ok?
    ensures RecordsEntered(ScanLines(pre, decode).value, ScanLines(pre + more, decode).value, more, decode)
    decreases |more|
  {
    ScanAppend(pre, more, decode);
    RecordsFrom(ScanLines(pre, decode).value, more, decode);
  }

  /** The line loop resumed from the state `st`. */
  function ScanFrom<V>(st: Scanned<V>, lines: seq<string>, decode: Decoder<V>): Result<Scanned<V>>
    decreases |lines|
  {
    if |lines| == 0 then Ok(st)
    else
      match ScanFrom(st, lines[..|lines| - 1], decode)
      case Err(e) => Err(e)
      case Ok(s) => Step(s, lines[|lines| - 1], decode)
  }

  /** Scanning `pre + more` is scanning `more` from where `pre` left off. */
  lemma {:induction false} ScanAppend<V>(pre: seq<string>, more: seq<string>, decode: Decoder<V>)
    requires ScanLines(pre, decode).Ok?
    ensures ScanLines(pre + more, decode) == ScanFrom(ScanLines(pre, decode).value, more, decode)
    decreases |more|
  {
    if |more| == 0 {
      ScanAppendNone(pre, more, decode);
    } else {
      ScanAppend(pre, more[..|more| - 1], decode);
      ScanAppendStep(pre, more, decode);
    }
  }

  lemma ScanAppendNone<V>(pre: seq<string>, more: seq<string>, decode: Decoder<V>)
    requires ScanLines(pre, decode).Ok? && |more| == 0
    ensures ScanLines(pre + more, decode) == ScanFrom(ScanLines(pre, decode).value, more, decode)
  {
    var st := ScanLines(pre, decode).value;
    assert ScanFrom(st, more, decode) == Ok(st);
    assert pre + more == pre;
  }

  lemma ScanAppendStep<V>(pre: seq<string>, more: seq<string>, decode: Decoder<V>)
    requires ScanLines(pre, decode).Ok? && |more| > 0
    requires ScanLines(pre + more[..|more| - 1], decode) == ScanFrom(ScanLines(pre, decode).value, more[..|more| - 1], decode)
    ensures ScanLines(pre + more, decode) == ScanFrom(ScanLines(pre, decode).value, more, decode)
  {
    var all := pre + more;
    AppendLast(pre, more);
    ScanLinesLast(all, decode);
    ScanFromLast(ScanLines(pre, decode).value, more, decode);
  }

  /** The last element of `pre + more` is that of `more`, and the others are `pre` and the
      others of `more`. */
  lemma AppendLast<T>(pre: seq<T>, more: seq<T>)
    requires |more| > 0
    ensures (pre + more)[..|pre + more| - 1] == pre + more[..|more| - 1]
    ensures (pre + more)[|pre + more| - 1] == more[|more| - 1]
  {
    assert (pre + more)[..|pre + more| - 1] == pre + more[..|more| - 1];
  }

  /** The loop's last line is one step after the others. */
  lemma ScanLinesLast<V>(lines: seq<string>, decode: Decoder<V>)
    requires |lines| > 0
    ensures var r := ScanLines(lines[..|lines| - 1], decode);
      ScanLines(lines, decode) == if r.Err? then r else Step(r.value, lines[|lines| - 1], decode)
  {
  }

  /** The resumed loop's last line is one step after the others. */
  lemma ScanFromLast<V>(st: Scanned<V>, lines: seq<string>, decode: Decoder<V>)
    requires |lines| > 0
    ensures var r := ScanFrom(st, lines[..|lines| - 1], decode);
      ScanFrom(st, lines, decode) == if r.Err? then r else Step(r.value, lines[|lines| - 1], decode)
  {
  }

  /** Record lines scanned from a state with a current cycle enter that cycle. */
  lemma {:induction false} RecordsFrom<V>(st: Scanned<V>, more: seq<string>, decode: Decoder<V>)
    requires st.cycle.Some? && Lookup(st.tally, st.cycle.value).Some?
    requires forall i :: 0 <= i < |more| ==> !IsHeader(more[i]) && decode(more[i]).Ok?
    ensures ScanFrom(st, more, decode).Ok?
    ensures RecordsEntered(st, ScanFrom(st, more, decode).value, more, decode)
    decreases |more|
  {
    if |more| == 0 {
      assert ScanFrom(st, more, decode) == Ok(st);
      assert Decoded(more, decode) == [];
    } else {
      var front := more[..|more| - 1];
      var line := more[|more| - 1];
      assert more == front + [line];
      RecordsFrom(st, front, decode);
      RecordsFromStep(st, front, line, decode);
    }
  }

  /** `RecordsStep` for the scan resumed from `st`. */
  lemma RecordsFromStep<V>(st: Scanned<V>, front: seq<string>, line: string, decode: Decoder<V>)
    requires st.cycle.Some? && Lookup(st.tally, st.cycle.value).Some?
    requires forall i :: 0 <= i < |front| ==> decode(front[i]).Ok?
    requires !IsHeader(line) && decode(line).Ok?
    requires ScanFrom(st, front, decode).Ok? && RecordsEntered(st, ScanFrom(st, front, decode).value, front, decode)
    ensures ScanFrom(st, front + [line], decode).Ok?
    ensures RecordsEntered(st, ScanFrom(st, front + [line], decode).value, front + [line], decode)
  {
    var mid := ScanFrom(st, front, decode).value;
    assert (front + [line])[..|front|] == front;
    assert ScanFrom(st, front + [line], decode) == Step(mid, line, decode);
    RecordsStep(st, mid, front, line, decode);
  }

  /** What `ScanRecords` states of the scan `mid` after the record lines `more`. */
  ghost predicate RecordsEntered<V>(st: Scanned<V>, mid: Scanned<V>, more: seq<string>, decode: Decoder<V>)
    requires st.cycle.Some? && Lookup(st.tally, st.cycle.value).Some?
    requires forall i :: 0 <= i < |more| ==> decode(more[i]).Ok?
  {
    var k := st.cycle.value;
    mid.cycle == Some(k) && Keys(mid.tally) == Keys(st.tally) &&
    Lookup(mid.tally, k) == Some(GroupFrom(Lookup(st.tally, k).value, Decoded(more, decode))) &&
    forall j :: j != k ==> Lookup(mid.tally, j) == Lookup(st.tally, j)
  }

  /** One more record line keeps `RecordsEntered`. */
  lemma RecordsStep<V>(st: Scanned<V>, mid: Scanned<V>, front: seq<string>, line: string, decode: Decoder<V>)
    requires st.cycle.Some? && Lookup(st.tally, st.cycle.value).Some?
    requires forall i :: 0 <= i < |front| ==> decode(front[i]).Ok?
    requires !IsHeader(line) && decode(line).Ok?
    requires RecordsEntered(st, mid, front, decode)
    ensures Step(mid, line, decode).Ok?
    ensures RecordsEntered(st, Step(mid, line, decode).value, front + [line], decode)
  {
    var k := st.cycle.value;
    var g0 := Lookup(st.tally, k).value;
    DecodedSnoc(front, line, decode);
    GroupFromSnoc(g0, Decoded(front, decode), decode(line).value);
    RecordStep(mid, line, decode);
  }

  lemma DecodedSnoc<V>(front: seq<string>, line: string, decode: Decoder<V>)
    requires forall i :: 0 <= i < |front| ==> decode(front[i]).Ok?
    requires decode(line).Ok?
    ensures Decoded(front + [line], decode) == Decoded(front, decode) + [decode(line).value]
  {
  }

  /** One more record is one more `AddRecord`. */
  lemma GroupFromSnoc<V>(start: Group<V>, recs: seq<Record<V>>, rec: Record<V>)
    ensures GroupFrom(start, recs + [rec]) == AddRecord(GroupFrom(start, recs), rec)
  {
    assert (recs + [rec])[..|recs|] == recs;
  }

  /** A cycle's data is the grouping of the records between its header and the next one: a
      header followed by record lines leaves that cycle holding `GroupOf` of their records
      and every other cycle as it was. */
  lemma CycleSegment<V>(pre: seq<string>, h: string, k: string, more: seq<string>, decode: Decoder<V>)
    requires ScanLines(pre, decode).Ok?
    requires IsHeader(h) && HeaderKey(h) == Ok(k)
    requires forall i :: 0 <= i < |more| ==> !IsHeader(more[i]) && decode(more[i]).Ok?
    ensures var r := ScanLines(pre + [h] + more, decode);
      r.Ok? && r.value.cycle == Some(k) &&
      Lookup(r.value.tally, k) == Some(GroupOf(Decoded(more, decode))) &&
      forall j :: j != k ==> Lookup(r.value.tally, j) == Lookup(ScanLines(pre, decode).value.tally, j)
  {
    var st := ScanLines(pre, decode).value;
    ScanWell(pre, decode);
    assert (pre + [h])[..|pre|] == pre;
    var st' := ScanLines(pre + [h], decode).value;
    assert st' == Scanned(Some(k), Assign(st.tally, k, []));
    StepWell(st, h, decode);
    forall j
      ensures Lookup(st'.tally, j) == if j == k then Some([]) else Lookup(st.tally, j)
    {
      AssignLookup(st.tally, k, [], j);
    }
    ScanRecords(pre + [h], more, decode);
  }

  /** The line loop of either script as written, updating the dictionaries line by line. */
  method ScanFile<V>(lines: seq<string>, decode: Decoder<V>) returns (r: Result<Scanned<V>>)
    ensures r == ScanLines(lines, decode)
  {
    var cycle: Option<string> := None;
    var tally: seq<(string, Group<V>)> := [];
    for i := 0 to |lines|
      invariant ScanLines(lines[..i], decode) == Ok(Scanned(cycle, tally))
    {
      assert lines[..i + 1][..i] == lines[..i];
      var line := lines[i];
      if IsHeader(line) {
        var key := HeaderKey(line);
        if key.Err? {
          ScanHalted(lines, i + 1, decode);
          return Err(key.error);
        }
        cycle := Some(key.value);
        tally := Assign(tally, key.value, []);
      } else {
        var rec := decode(line);
        if rec.Err? {
          ScanHalted(lines, i + 1, decode);
          return Err(rec.error);
        }
        var g := if cycle.Some? then Lookup(tally, cycle.value) else None;
        if g.None? {
          ScanHalted(lines, i + 1, decode);
          return Err(KeyError);
        }
        tally := Assign(tally, cycle.value, AddRecord(g.value, rec.value));
      }
    }
    assert lines[..|lines|] == lines;
    r := Ok(Scanned(cycle, tally));
  }

  // The input check shared by both scripts

  /** `[os.path.basename(f) for f in paths]`. */
  function Basenames(paths: seq<string>): (names: seq<string>)
    ensures |names| == |paths| && forall i :: 0 <= i < |paths| ==> names[i] == Basename(paths[i])
  {
    seq(|paths|, i requires 0 <= i < |paths| => Basename(paths[i]))
  }

  /** `set(names)`. */
  function ToSet<T>(s: seq<T>): set<T> {
    set x | x in s
  }

  /** `len(set(names)) < len(names)`: the input is rejected. */
  predicate SharesBasename(paths: seq<string>) {
    |ToSet(Basenames(paths))| < |paths|
  }

  /** A list has as many distinct elements as entries exactly when no element repeats, and
      never more. */
  lemma {:induction false} ToSetCard<T>(s: seq<T>)
    ensures |ToSet(s)| <= |s|
    ensures |ToSet(s)| == |s| <==> Distinct(s)
    decreases |s|
  {
    if |s| > 0 {
      var front := s[..|s| - 1];
      var x := s[|s| - 1];
      ToSetCard(front);
      assert ToSet(s) == ToSet(front) + {x};
      if x in front {
        assert ToSet(front) + {x} == ToSet(front);
        var i :| 0 <= i < |front| && front[i] == x;
        assert s[i] == s[|s| - 1];
      } else {
        assert Distinct(s) <==> Distinct(front) by {
          if Distinct(front) {
            forall i, j | 0 <= i < j < |s|
              ensures s[i] != s[j]
            {
              if j == |s| - 1 {
                assert front[i] in front;
              } else {
                assert s[i] == front[i] && s[j] == front[j];
              }
            }
          }
          if Distinct(s) {
            forall i, j | 0 <= i < j < |front|
              ensures front[i] != front[j]
            {
              assert s[i] == front[i] && s[j] == front[j];
            }
          }
        }
      }
    }
  }

  /** The input is rejected exactly when two paths share a basename. */
  lemma SharesBasenameIff(paths: seq<string>)
    ensures SharesBasename(paths) <==>
      exists i, j :: 0 <= i < j < |paths| && Basename(paths[i]) == Basename(paths[j])
  {
    var names := Basenames(paths);
    ToSetCard(names);
    if !Distinct(names) {
      var i, j :| 0 <= i < j < |names| && names[i] == names[j];
      assert Basename(paths[i]) == Basename(paths[j]);
    }
  }
}
