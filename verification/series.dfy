/**
 * The per-bin dictionaries every aggregation loop builds: `d[entry.bin_no] = count` is
 * assigned once per entry in mtime order, so each bin keeps the count written by the last
 * entry that fell into it.
 */
module Series {

  /** One assignment `d[bin] = value`. */
  datatype Write = Write(bin: int, value: int)

  /** The bins a sequence of writes touches. */
  function BinsOf(ws: seq<Write>): set<int> {
    set i | 0 <= i < |ws| :: ws[i].bin
  }

  /** The dictionary left by the writes, each one overwriting its bin. */
  function LastWrite(ws: seq<Write>): (m: map<int, int>)
    ensures m.Keys == BinsOf(ws)
  {
    if |ws| == 0 then map[]
    else
      var init := ws[..|ws| - 1];
      var m := LastWrite(init);
      assert BinsOf(ws) == BinsOf(init) + {ws[|ws| - 1].bin} by {
        forall b | b in BinsOf(ws) ensures b in BinsOf(init) + {ws[|ws| - 1].bin} {
          var i :| 0 <= i < |ws| && ws[i].bin == b;
          if i < |ws| - 1 {
            assert init[i].bin == b;
          }
        }
        forall b | b in BinsOf(init) ensures b in BinsOf(ws) {
          var i :| 0 <= i < |init| && init[i].bin == b;
          assert ws[i].bin == b;
        }
      }
      m[ws[|ws| - 1].bin := ws[|ws| - 1].value]
  }

  /** The value of a bin is the one written by the last write to that bin. */
  lemma {:induction false} LastWriteWins(ws: seq<Write>, i: int)
    requires 0 <= i < |ws|
    requires forall j :: i < j < |ws| ==> ws[j].bin != ws[i].bin
    ensures ws[i].bin in LastWrite(ws) && LastWrite(ws)[ws[i].bin] == ws[i].value
  {
    if i < |ws| - 1 {
      LastWriteWins(ws[..|ws| - 1], i);
    }
  }

  predicate BinsNonDecreasing(ws: seq<Write>) {
    forall i, j :: 0 <= i < j < |ws| ==> ws[i].bin <= ws[j].bin
  }

  predicate ValuesNonDecreasing(ws: seq<Write>) {
    forall i, j :: 0 <= i < j < |ws| ==> ws[i].value <= ws[j].value
  }

  /** A dictionary whose values never decrease in key order. */
  predicate MonotoneMap(m: map<int, int>) {
    forall k1, k2 :: k1 in m && k2 in m && k1 <= k2 ==> m[k1] <= m[k2]
  }

  /** Writing a value no smaller than any held, to a bin no smaller than any known, keeps the
      dictionary monotone. */
  lemma MonotoneUpdate(m: map<int, int>, b: int, v: int)
    requires MonotoneMap(m)
    requires forall k :: k in m ==> k <= b && m[k] <= v
    ensures MonotoneMap(m[b := v])
  {
  }

  /** Writes made in bin order with growing values leave a dictionary that grows with the
      bin, and whose values never exceed the last value written. */
  lemma {:induction false} LastWriteMonotone(ws: seq<Write>)
    requires BinsNonDecreasing(ws) && ValuesNonDecreasing(ws)
    ensures MonotoneMap(LastWrite(ws))
    ensures |ws| > 0 ==> forall k :: k in LastWrite(ws) ==> k <= ws[|ws| - 1].bin && LastWrite(ws)[k] <= ws[|ws| - 1].value
  {
    if |ws| > 0 {
      var init := ws[..|ws| - 1];
      var last := ws[|ws| - 1];
      assert BinsNonDecreasing(init) && ValuesNonDecreasing(init);
      LastWriteMonotone(init);
      var m := LastWrite(init);
      forall k | k in m ensures k <= last.bin && m[k] <= last.value {
        var i :| 0 <= i < |init| && init[i].bin == k;
        if |init| > 0 {
          assert k <= init[|init| - 1].bin && m[k] <= init[|init| - 1].value;
          assert init[|init| - 1] == ws[|ws| - 2];
        }
      }
      MonotoneUpdate(m, last.bin, last.value);
    }
  }

  /** `if 0 not in d: d[0] = 0`: bin 0 is present afterwards, keeps its value if it was there,
      and no other bin changes. */
  function DefaultZero(m: map<int, int>): (r: map<int, int>)
    ensures 0 in r && r[0] == (if 0 in m then m[0] else 0)
    ensures r.Keys == m.Keys + {0}
    ensures forall k :: k in m ==> r[k] == m[k]
  {
    if 0 in m then m else m[0 := 0]
  }

  /** Adding bin 0 with value 0 to a dictionary over non-negative bins and counts keeps it
      monotone. */
  lemma DefaultZeroMonotone(m: map<int, int>)
    requires MonotoneMap(m)
    requires forall k :: k in m ==> k >= 0 && m[k] >= 0
    ensures MonotoneMap(DefaultZero(m))
  {
  }

  /** Two write sequences that touch the same bins in the same order, the first never writing
      more than the second, leave dictionaries with the same bins, the first below the second. */
  lemma {:induction false} LastWriteDominated(ws1: seq<Write>, ws2: seq<Write>)
    requires |ws1| == |ws2|
    requires forall i :: 0 <= i < |ws1| ==> ws1[i].bin == ws2[i].bin && ws1[i].value <= ws2[i].value
    ensures LastWrite(ws1).Keys == LastWrite(ws2).Keys
    ensures forall b :: b in LastWrite(ws1) ==> LastWrite(ws1)[b] <= LastWrite(ws2)[b]
  {
    if |ws1| > 0 {
      LastWriteDominated(ws1[..|ws1| - 1], ws2[..|ws2| - 1]);
    }
  }
  /** Every value of the dictionary left by some writes is one of the values written, at
      one of the bins written. */
  lemma {:induction false} LastWriteValues(ws: seq<Write>)
    ensures forall b :: b in LastWrite(ws) ==> exists i :: 0 <= i < |ws| && ws[i] == Write(b, LastWrite(ws)[b])
  {
    if |ws| > 0 {
      var init := ws[..|ws| - 1];
      LastWriteValues(init);
      forall b | b in LastWrite(ws) ensures exists i :: 0 <= i < |ws| && ws[i] == Write(b, LastWrite(ws)[b]) {
        if b != ws[|ws| - 1].bin {
          var i :| 0 <= i < |init| && init[i] == Write(b, LastWrite(init)[b]);
          assert ws[i] == init[i];
        } else {
          assert ws[|ws| - 1] == Write(b, LastWrite(ws)[b]);
        }
      }
    }
  }

  /** Writes in bin order, over non-negative bins, of non-negative growing values leave a
      monotone dictionary, still monotone once bin 0 is defaulted. */
  lemma WrittenMonotone(ws: seq<Write>)
    requires BinsNonDecreasing(ws) && ValuesNonDecreasing(ws)
    requires forall i :: 0 <= i < |ws| ==> ws[i].bin >= 0 && ws[i].value >= 0
    ensures MonotoneMap(LastWrite(ws)) && MonotoneMap(DefaultZero(LastWrite(ws)))
  {
    LastWriteMonotone(ws);
    LastWriteValues(ws);
    DefaultZeroMonotone(LastWrite(ws));
  }

  /** One more write overwrites its bin. */
  lemma LastWriteSnoc(ws: seq<Write>, w: Write)
    ensures LastWrite(ws + [w]) == LastWrite(ws)[w.bin := w.value]
  {
    assert (ws + [w])[..|ws|] == ws;
  }
}
