/**
 * The hit-count classes of edge_coverage/single.py: a raw hit count is collapsed into a
 * coarse class, in the manner of AFL's count classes, before novelty is decided.
 */
module Bucket {

  /** `get_bucket`: counts up to 4 are kept, 5..7 become 4, 8..15 become 8, 16..31 become 16,
      32..127 become 32, and 128 or more become 128. */
  function GetBucket(hitcount: int): (b: int)
    ensures hitcount <= 4 ==> b == hitcount
    ensures 5 <= hitcount < 8 ==> b == 4
    ensures 8 <= hitcount < 16 ==> b == 8
    ensures 16 <= hitcount < 32 ==> b == 16
    ensures 32 <= hitcount < 128 ==> b == 32
    ensures 128 <= hitcount ==> b == 128
  {
    if hitcount <= 4 then hitcount
    else if hitcount < 8 then 4
    else if hitcount < 16 then 8
    else if hitcount < 32 then 16
    else if hitcount < 128 then 32
    else 128
  }

  /** The classes a non-negative count can fall into. */
  predicate IsBucketValue(b: int) {
    b in {0, 1, 2, 3, 4, 8, 16, 32, 128}
  }

  /** For a non-negative count the class is one of nine values and never exceeds the count. */
  lemma BucketRange(h: int)
    requires h >= 0
    ensures IsBucketValue(GetBucket(h))
    ensures 0 <= GetBucket(h) <= h
  {
  }

  /** The class values are fixed points: re-bucketing a class changes nothing. */
  lemma BucketIdempotent(h: int)
    ensures GetBucket(GetBucket(h)) == GetBucket(h)
  {
  }

  /** A larger count never falls into a smaller class. */
  lemma BucketMonotone(h1: int, h2: int)
    requires h1 <= h2
    ensures GetBucket(h1) <= GetBucket(h2)
  {
  }

  /** Two counts share a class exactly when they lie in the same band. */
  lemma BucketSameClass(h1: int, h2: int)
    requires 0 <= h1 && 0 <= h2
    ensures GetBucket(h1) == GetBucket(h2) <==> h1 == h2 || Band(h1) == Band(h2) > 0
  {
  }

  /** The band index of a count: 0 for the identity range 0..3, then one band per class
      (4..7, 8..15, 16..31, 32..127, 128 and above). */
  function Band(h: int): int {
    if h <= 3 then 0
    else if h < 8 then 1
    else if h < 16 then 2
    else if h < 32 then 3
    else if h < 128 then 4
    else 5
  }
}
