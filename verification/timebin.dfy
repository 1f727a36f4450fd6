/**
 * Time binning shared by every script: the bin width chosen from the configured unit,
 * the bin of a file from its modification time, and the width-to-count swap that the
 * gap fillers of edge_coverage/single.py and real_path_counter.py rely on.
 */
module TimeBin {
  import opened PyText

  /** Python's `int(a / b)` for `b > 0`: the true quotient truncated toward zero (not floored). */
  function TruncDiv(a: int, b: int): (q: int)
    requires b > 0
    ensures a >= 0 ==> 0 <= q && q * b <= a < q * b + b
    ensures a < 0 ==> q <= 0 && q * b - b < a <= q * b
  {
    if a >= 0 then
      DivBounds(a, b);
      a / b
    else
      DivBounds(-a, b);
      NegMul((-a) / b, b);
      -((-a) / b)
  }

  /** The Euclidean quotient of a non-negative number brackets it. */
  lemma DivBounds(a: int, b: int)
    requires a >= 0 && b > 0
    ensures 0 <= a / b && (a / b) * b <= a < (a / b) * b + b
  {
    assert a == (a / b) * b + a % b;
  }

  lemma NegMul(x: int, b: int)
    ensures (-x) * b == -(x * b)
  {
  }

  /** For a negative dividend that is not a multiple of the divisor, truncation lies one
      above Dafny's floored division: a file up to one bin before the start lands in bin 0. */
  lemma TruncDivAboveFloor(a: int, b: int)
    requires b > 0 && a < 0 && a % b != 0
    ensures TruncDiv(a, b) == a / b + 1
  {
    var q, r := (-a) / b, (-a) % b;
    assert -a == q * b + r;
    if r == 0 {
      assert a == (-q) * b + 0;
      DivUnique(a, b, -q, 0);
    }
    assert a == (-q - 1) * b + (b - r);
    DivUnique(a, b, -q - 1, b - r);
  }

  /** Dafny's division is the unique Euclidean quotient. */
  lemma DivUnique(a: int, b: int, q: int, r: int)
    requires b > 0 && 0 <= r < b && a == q * b + r
    ensures a / b == q && a % b == r
  {
    var q', r' := a / b, a % b;
    assert a == q' * b + r';
    if q' > q {
      MulMonotone(q + 1, q', b);
    } else if q' < q {
      MulMonotone(q' + 1, q, b);
    }
  }

  lemma MulMonotone(x: int, y: int, b: int)
    requires x <= y && b >= 0
    ensures x * b <= y * b
  {
    assert y * b - x * b == (y - x) * b;
  }

  /** `int((m_time - start_time) / bucket_margin)`. */
  function BinOf(mtime: int, start: int, margin: int): int
    requires margin > 0
  {
    TruncDiv(mtime - start, margin)
  }

  /** A later file never gets an earlier bin. */
  lemma BinMonotone(m1: int, m2: int, start: int, margin: int)
    requires margin > 0 && m1 <= m2
    ensures BinOf(m1, start, margin) <= BinOf(m2, start, margin)
  {
    var a1, a2 := m1 - start, m2 - start;
    if a1 < 0 && a2 >= 0 {
    } else if a1 >= 0 {
      DivMonotone(a1, a2, margin);
    } else {
      DivMonotone(-a2, -a1, margin);
    }
  }

  lemma DivMonotone(a1: int, a2: int, b: int)
    requires 0 <= a1 <= a2 && b > 0
    ensures a1 / b <= a2 / b
  {
    var q1, q2 := a1 / b, a2 / b;
    assert a1 == q1 * b + a1 % b && a2 == q2 * b + a2 % b;
    if q1 > q2 {
      MulMonotone(q2 + 1, q1, b);
    }
  }

  /** A file at or after the start time gets a non-negative bin, and the start itself bin 0. */
  lemma BinNonNegative(mtime: int, start: int, margin: int)
    requires margin > 0 && mtime >= start
    ensures BinOf(mtime, start, margin) >= 0
    ensures BinOf(start, start, margin) == 0
  {
  }

  /** The bin width in seconds for the configured unit (edge_coverage/single.py:600-606 and
      the same lines in every script): minutes give 60, seconds give 1, anything else an hour. */
  function SecondsPerBin(bucket: string): (margin: int)
    ensures margin in {1, 60, 3600}
    ensures Lower(bucket) in ["minute", "min", "m"] ==> margin == 60
    ensures Lower(bucket) in ["second", "sec", "s"] ==> margin == 1
    ensures Lower(bucket) !in ["minute", "min", "m", "second", "sec", "s"] ==> margin == 3600
  {
    var b := Lower(bucket);
    if b in ["minute", "min", "m"] then 60
    else if b in ["second", "sec", "s"] then 1
    else 3600
  }

  /** The swap applied before gap filling (edge_coverage/single.py:687-690): it turns the
      seconds per bin into the number of bins per hour. */
  function SwapMargin(margin: int): (r: int)
    ensures margin in {1, 60, 3600} ==> r * margin == 3600
    ensures margin !in {1, 3600} ==> r == margin
  {
    if margin == 3600 then 1 else if margin == 1 then 3600 else margin
  }

  /** Swapping twice gives the width back. */
  lemma SwapInvolution(margin: int)
    ensures SwapMargin(SwapMargin(margin)) == margin
  {
  }

  /** With the swapped margin, `max_span * margin` bins of the unit's width cover exactly
      `max_span` hours. */
  lemma SwappedSpanCoversHours(bucket: string, maxSpan: int)
    ensures (maxSpan * SwapMargin(SecondsPerBin(bucket))) * SecondsPerBin(bucket) == maxSpan * 3600
  {
    var m := SecondsPerBin(bucket);
    calc {
      (maxSpan * SwapMargin(m)) * m;
      maxSpan * (SwapMargin(m) * m);
      maxSpan * 3600;
    }
  }
}
