/** What the ring of cumulative sums says about the values that were added. */
module RingHistory {
  import opened RingBuffer

  /** Sum of the newest `j` values; fewer if there are not that many. */
  function SumLast(h: seq<U32>, j: nat): nat {
    if j == 0 || h == [] then 0 else h[|h| - 1] + SumLast(h[..|h| - 1], j - 1)
  }

  function LastN(h: seq<U32>, n: nat): seq<U32> {
    if |h| <= n then h else h[|h| - n..]
  }

  function Min(x: nat, y: nat): nat {
    if x < y then x else y
  }

  lemma SumLastPush(h: seq<U32>, v: U32, j: nat)
    ensures SumLast(h + [v], j + 1) == v + SumLast(h, j)
  {
    assert (h + [v])[..|h|] == h;
  }

  lemma {:induction false} SumLastMonotone(h: seq<U32>, j: nat, k: nat)
    requires j <= k
    ensures SumLast(h, j) <= SumLast(h, k)
    ensures |h| <= j ==> SumLast(h, j) == SumLast(h, k)
    decreases |h|
  {
    if j > 0 && h != [] {
      SumLastMonotone(h[..|h| - 1], j - 1, k - 1);
    }
  }

  /** The value added `i` additions before the last one. */
  function Newest(h: seq<U32>, i: nat): U32
    requires i < |h|
  {
    h[|h| - 1 - i]
  }

  lemma {:induction false} SumOfSameEnd(h: seq<U32>, g: seq<U32>, j: nat)
    requires j <= |h| && j <= |g| && forall i: nat :: i < j ==> Newest(h, i) == Newest(g, i)
    ensures SumLast(h, j) == SumLast(g, j)
  {
    if j > 0 {
      var h', g' := h[..|h| - 1], g[..|g| - 1];
      forall i: nat | i < j - 1 ensures Newest(h', i) == Newest(g', i) {
        assert Newest(h, i + 1) == Newest(g, i + 1);
      }
      SumOfSameEnd(h', g', j - 1);
      assert Newest(h, 0) == Newest(g, 0);
    }
  }

  lemma SumOfLastN(h: seq<U32>, n: nat, j: nat)
    ensures SumLast(LastN(h, n), j) == SumLast(h, Min(j, n))
  {
    var recent, m := LastN(h, n), Min(j, n);
    SumLastMonotone(recent, m, j);
    if |h| > n {
      forall i: nat | i < m ensures Newest(recent, i) == Newest(h, i) {
      }
      SumOfSameEnd(recent, h, m);
    }
  }

  lemma {:induction false} SumLastBound(h: seq<U32>, j: nat, max: nat)
    requires forall i :: 0 <= i < |h| ==> h[i] <= max
    ensures SumLast(h, j) <= j * max
    decreases |h|
  {
    if j > 0 && h != [] {
      SumLastBound(h[..|h| - 1], j - 1, max);
      assert j * max == max + (j - 1) * max;
    }
  }

  // ------------------------------------------------------- the invariant

  /** The entry written `j` additions ago. */
  function Back(b: Buffer, j: nat): U64
    requires WellFormed(b) && j < |b.cv|
  {
    b.cv[Around(b.index - j, |b.cv|)]
  }

  ghost predicate RingAt(b: Buffer, h: seq<U32>, j: nat)
    requires WellFormed(b) && j < |b.cv|
  {
    Wrap64(b.cv[b.index] - Back(b, j) - SumLast(h, j)) == 0
  }

  /** Differences of entries are sums of the newest values, zero-padded, modulo 2^64. */
  ghost predicate Ring(b: Buffer, h: seq<U32>)
    requires WellFormed(b)
  {
    forall j :: 0 <= j < |b.cv| ==> RingAt(b, h, j)
  }

  lemma Shifted(x: int, y: int, v: int, sum: int)
    requires Wrap64(x - y - sum) == 0
    ensures Wrap64(Wrap64(x + v) - y - (v + sum)) == 0
  {
  }

  lemma Rebased(x: int, y: int, z: int, sum: int)
    requires Wrap64(x - y - sum) == 0
    ensures Wrap64(Wrap64(x - z) - Wrap64(y - z) - sum) == 0
  {
  }

  lemma PushKeepsRing(b: Buffer, h: seq<U32>, v: U32)
    requires WellFormed(b) && Ring(b, h)
    ensures Ring(Push(b, v), h + [v])
  {
    var r := Push(b, v);
    forall j | 0 <= j < |r.cv| ensures RingAt(r, h + [v], j) {
      if j > 0 {
        SumLastPush(h, v, j - 1);
        assert RingAt(b, h, j - 1);
        Shifted(b.cv[b.index], Back(b, j - 1), v, SumLast(h, j - 1));
      }
    }
  }

  lemma ShrinkKeepsRing(b: Buffer, h: seq<U32>)
    requires WellFormed(b) && Ring(b, h) && |b.cv| > b.maxSize
    ensures Ring(Shrink(b), h)
  {
    var r := Shrink(b);
    forall j | 0 <= j < |r.cv| ensures RingAt(r, h, j) {
      assert RingAt(b, h, j);
      assert Back(r, j) == ShrunkEntry(b, r.maxSize - 1 - j) && r.cv[r.index] == ShrunkEntry(b, r.maxSize - 1);
    }
  }

  lemma RingAtRebased(r: Buffer, h: seq<U32>, j: nat, x: int, y: int, z: int, sum: int)
    requires WellFormed(r) && j < |r.cv|
    requires r.cv[r.index] == Wrap64(x - z) && Back(r, j) == Wrap64(y - z)
    requires Wrap64(x - y - sum) == 0 && SumLast(h, j) == sum
    ensures RingAt(r, h, j)
  {
    Rebased(x, y, z, sum);
  }

  lemma GrownEntries(b: Buffer, j: nat)
    requires WellFormed(b) && |b.cv| < b.maxSize && SizeOk(GrownLength(b)) && j < GrownLength(b)
    ensures var r := Grow(b);
      && r.cv[r.index] == Wrap64(b.cv[b.index] - At(b, 1))
      && Back(r, j) == if j < |b.cv| then Wrap64(Back(b, j) - At(b, 1)) else 0
  {
    assert Grow(b).cv[|b.cv| - 1] == GrownEntry(b, |b.cv| - 1);
    if j < |b.cv| {
      assert Back(Grow(b), j) == GrownEntry(b, |b.cv| - 1 - j);
    }
  }

  lemma OldestEntry(b: Buffer)
    requires WellFormed(b)
    ensures Back(b, |b.cv| - 1) == At(b, 1)
  {
  }

  /** A window inside the old buffer. */
  lemma GrownRecent(b: Buffer, h: seq<U32>, kept: seq<U32>, j: nat)
    requires WellFormed(b) && j < |b.cv| < b.maxSize && SizeOk(GrownLength(b)) && RingAt(b, h, j)
    requires SumLast(kept, j) == SumLast(h, j)
    ensures RingAt(Grow(b), kept, j)
  {
    GrownEntries(b, j);
    RingAtRebased(Grow(b), kept, j, b.cv[b.index], Back(b, j), At(b, 1), SumLast(h, j));
  }

  /** A larger window counts from the oldest entry, which was reset to zero. */
  lemma GrownOld(b: Buffer, h: seq<U32>, kept: seq<U32>, j: nat)
    requires WellFormed(b) && |b.cv| <= j < GrownLength(b) && SizeOk(GrownLength(b)) && RingAt(b, h, |b.cv| - 1)
    requires SumLast(kept, j) == SumLast(h, |b.cv| - 1)
    ensures RingAt(Grow(b), kept, j)
  {
    GrownEntries(b, j);
    OldestEntry(b);
    RingAtRebased(Grow(b), kept, j, b.cv[b.index], Back(b, |b.cv| - 1), At(b, 1), SumLast(h, |b.cv| - 1));
  }

  /** Growing forgets everything but the newest `length - 1` values. */
  lemma GrowKeepsRing(b: Buffer, h: seq<U32>)
    requires WellFormed(b) && Ring(b, h) && |b.cv| < b.maxSize && SizeOk(GrownLength(b))
    ensures Ring(Grow(b), LastN(h, |b.cv| - 1))
  {
    var kept := LastN(h, |b.cv| - 1);
    forall j | 0 <= j < GrownLength(b) ensures RingAt(Grow(b), kept, j) {
      SumOfLastN(h, |b.cv| - 1, j);
      if j < |b.cv| {
        GrownRecent(b, h, kept, j);
      } else {
        assert RingAt(b, h, |b.cv| - 1);
        GrownOld(b, h, kept, j);
      }
    }
  }
}
