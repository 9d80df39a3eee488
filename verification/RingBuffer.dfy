/**
  The ring of cumulative sums behind `CircularBuffer`, on values. Integer widths
  are explicit: entries wrap at 2^64, index computations at 2^31.
 */
module RingBuffer {
  import opened Wrappers

  const TWO_31: int := 0x8000_0000
  const TWO_32: int := 0x1_0000_0000
  const TWO_64: int := 0x1_0000_0000_0000_0000

  type U32 = x: int | 0 <= x < TWO_32
  type U64 = x: int | 0 <= x < TWO_64

  const INITIAL_LENGTH := 32

  datatype Buffer = Buffer(cv: seq<U64>, index: int, maxSize: int)

  /** Lengths for which no int32 index computation overflows. */
  predicate SizeOk(n: int) {
    1 <= n && 3 * n <= TWO_31
  }

  /** Maximum sizes that an int32 holds and that leave room for an entry. */
  predicate MaxOk(n: int) {
    1 <= n < TWO_31
  }

  predicate WellFormed(b: Buffer) {
    SizeOk(|b.cv|) && MaxOk(b.maxSize) && 0 <= b.index < |b.cv|
  }

  /** Conversion to int32. */
  function Int32(x: int): int {
    (x + 0x8000_0000) % 0x1_0000_0000 - 0x8000_0000
  }

  /** Go's remainder: the sign of the dividend. */
  function Rem(x: int, y: int): int
    requires y != 0
  {
    if x >= 0 then x % y else -((-x) % y)
  }

  /** A position up to one length before the start or past the end, brought back into the ring. */
  function Around(x: int, length: int): int {
    if x < 0 then x + length else if x >= length then x - length else x
  }

  /** The entry `i` positions from the current one. */
  function At(b: Buffer, i: int): U64
    requires WellFormed(b) && -|b.cv| <= i <= |b.cv|
  {
    b.cv[Around(b.index + i, |b.cv|)]
  }

  /** What `addToIndex` computes in int32 is the ring position: nothing overflows. */
  lemma AddToIndexIsAround(x: int, n: int)
    requires SizeOk(n) && -n <= x < 2 * n
    ensures Int32(n) == n && Rem(Int32(Int32(x) + n), n) == Around(x, n)
  {
    Int32Small(x);
    Int32Small(n);
    Int32Small(x + n);
    RemainderUnique(x + n, n, if x < 0 then 0 else if x < n then 1 else 2, Around(x, n));
  }

  lemma Int32Small(x: int)
    requires -TWO_31 <= x < TWO_31
    ensures Int32(x) == x
  {
  }

  lemma RemainderUnique(y: int, n: int, q: int, r: int)
    requires n > 0 && y == q * n + r && 0 <= r < n
    ensures y % n == r
  {
    var k := y / n - q;
    assert k * n == r - y % n by { assert y == (y / n) * n + y % n; }
    AtLeastOnce(k, n);
  }

  lemma AtLeastOnce(k: int, n: int)
    requires n > 0
    ensures k >= 1 ==> k * n >= n
    ensures k <= -1 ==> k * n <= -n
  {
  }

  /** Conversion to uint64. */
  function Wrap64(x: int): U64 {
    x % 0x1_0000_0000_0000_0000
  }

  // ------------------------------------------------------------ operations

  function New(maxSize: int): Buffer {
    Buffer(seq(INITIAL_LENGTH, _ => 0), 0, Int32(maxSize))
  }

  predicate IsFull(b: Buffer)
    requires WellFormed(b)
  {
    b.index + 1 == |b.cv| || At(b, 1) != 0
  }

  function ShrunkEntry(b: Buffer, k: nat): U64
    requires WellFormed(b) && k < b.maxSize < |b.cv|
  {
    At(b, k - (b.maxSize - 1))
  }

  /** Keeps the newest `maxSize` entries, the newest last. */
  function Shrink(b: Buffer): (r: Buffer)
    requires WellFormed(b) && |b.cv| > b.maxSize
    ensures WellFormed(r) && |r.cv| == b.maxSize == r.maxSize
  {
    Buffer(seq(b.maxSize, k requires 0 <= k < b.maxSize => ShrunkEntry(b, k)), b.maxSize - 1, b.maxSize)
  }

  function GrownLength(b: Buffer): int {
    if 2 * |b.cv| < b.maxSize then 2 * |b.cv| else b.maxSize
  }

  function GrownEntry(b: Buffer, k: nat): U64
    requires WellFormed(b)
  {
    if k < |b.cv| then Wrap64(At(b, 1 + k) - At(b, 1)) else 0
  }

  /** Oldest entry first and reset to zero, the rest padded with zeros. */
  function Grow(b: Buffer): (r: Buffer)
    requires WellFormed(b) && |b.cv| < b.maxSize && SizeOk(GrownLength(b))
    ensures WellFormed(r) && |r.cv| == GrownLength(b) > |b.cv| && r.maxSize == b.maxSize
  {
    Buffer(seq(GrownLength(b), k requires 0 <= k < GrownLength(b) => GrownEntry(b, k)), |b.cv| - 1, b.maxSize)
  }

  function Push(b: Buffer, v: U32): (r: Buffer)
    requires WellFormed(b)
    ensures WellFormed(r) && |r.cv| == |b.cv| && r.maxSize == b.maxSize
  {
    var next := Around(b.index + 1, |b.cv|);
    b.(index := next, cv := b.cv[next := Wrap64(b.cv[b.index] + v)])
  }

  function Fit(b: Buffer): (r: Buffer)
    requires WellFormed(b)
    ensures WellFormed(r) && |r.cv| <= r.maxSize == b.maxSize
  {
    if |b.cv| > b.maxSize then Shrink(b) else b
  }

  predicate MustGrow(b: Buffer)
    requires WellFormed(b)
  {
    IsFull(b) && |b.cv| < b.maxSize
  }

  /** If the buffer has to grow, its new length is still one without overflow. */
  predicate AddFits(b: Buffer)
    requires WellFormed(b)
  {
    MustGrow(Fit(b)) ==> SizeOk(GrownLength(Fit(b)))
  }

  function Add(b: Buffer, v: U32): (r: Buffer)
    requires WellFormed(b) && AddFits(b)
    ensures WellFormed(r) && r.maxSize == b.maxSize && |r.cv| <= r.maxSize
  {
    var b1 := Fit(b);
    Push(if MustGrow(b1) then Grow(b1) else b1, v)
  }

  function SetMaxSize(b: Buffer, size: int): (r: Buffer)
    requires WellFormed(b) && MaxOk(size)
    ensures WellFormed(r) && r.maxSize == size && |r.cv| <= size
  {
    Fit(b.(maxSize := Int32(size)))
  }

  function Count(b: Buffer, window: nat): Outcome<U64>
    requires WellFormed(b)
  {
    if window >= b.maxSize then Panic
    else if window >= |b.cv| then Done(Wrap64(b.cv[b.index] - At(b, 1)))
    else Done(Wrap64(b.cv[b.index] - At(b, 0 - window)))
  }

  /** What `addToIndex` computes for any int32: negative if a sum leaves the int32 range. */
  function Position(b: Buffer, i: int): int
    requires |b.cv| > 0
  {
    Rem(Int32(Int32(b.index + Int32(i)) + Int32(|b.cv|)), |b.cv|)
  }

  lemma PositionIsAround(b: Buffer, i: int)
    requires SizeOk(|b.cv|) && 0 <= b.index < |b.cv| && -|b.cv| <= i <= |b.cv|
    ensures Position(b, i) == Around(b.index + i, |b.cv|) && 0 <= Position(b, i) < |b.cv|
  {
    Int32Small(i);
    AddToIndexIsAround(b.index + i, |b.cv|);
  }

  lemma PositionBound(b: Buffer, i: int)
    requires |b.cv| > 0
    ensures Position(b, i) < |b.cv|
  {
  }

  lemma SumOfInt32(x: int, y: int, z: int)
    ensures Int32(Int32(x + Int32(y)) + Int32(z)) == Int32(x + y + z)
  {
  }

  /**
    The bound is sharp: stepping one length ahead from the last entry, as growing does,
    comes out right if and only if three lengths fit in 2^31.
   */
  lemma OverflowIff(b: Buffer)
    requires 1 <= |b.cv| < TWO_31 && b.index == |b.cv| - 1
    ensures Position(b, |b.cv|) == Around(b.index + |b.cv|, |b.cv|) <==> SizeOk(|b.cv|)
  {
    var n := |b.cv|;
    if SizeOk(n) {
      PositionIsAround(b, n);
    } else {
      SumOfInt32(b.index, n, n);
      WrappedSum(n);
    }
  }

  lemma WrappedSum(n: int)
    requires n < TWO_31 < 3 * n
    ensures Rem(Int32(3 * n - 1), n) != n - 1
  {
    var sum := Int32(3 * n - 1);
    assert sum == 3 * n - 1 - 0x1_0000_0000 < n - 1;
    if sum >= 0 {
      RemainderUnique(sum, n, 0, sum);
    }
  }

  /** The code does not refuse negative windows; a position outside the array panics. */
  function CountNegative(b: Buffer, window: int): Outcome<U64>
    requires SizeOk(|b.cv|) && 0 <= b.index < |b.cv| && window < 0
  {
    PositionBound(b, -window);
    var at := Position(b, -window);
    if at < 0 then Panic else Done(Wrap64(b.cv[b.index] as int - b.cv[at] as int))
  }

  /** It panics exactly if the sum wraps to a negative int32 that is no multiple of the length. */
  lemma NegativePanics(b: Buffer, window: int)
    requires SizeOk(|b.cv|) && 0 <= b.index < |b.cv| && window < 0
    ensures var sum := Int32(b.index - window + |b.cv|);
      CountNegative(b, window) == Panic <==> sum < 0 && (-sum) % |b.cv| != 0
  {
    SumOfInt32(b.index, -window, |b.cv|);
  }

  lemma FarPosition(index: int, i: int, n: int)
    requires n > 0 && 0 <= index + i + n < TWO_31
    ensures Rem(Int32(Int32(index + Int32(i)) + Int32(n)), n) == (index + i + n) % n
  {
    SumOfInt32(index, i, n);
    Int32Small(index + i + n);
  }

  /** While the sum fits, a negative window of any size counts round the ring. */
  lemma FarWindow(b: Buffer, window: int)
    requires SizeOk(|b.cv|) && 0 <= b.index < |b.cv| && window < 0 && b.index - window + |b.cv| < TWO_31
    ensures var at := (b.index - window + |b.cv|) % |b.cv|;
      CountNegative(b, window) == Done(Wrap64(b.cv[b.index] as int - b.cv[at] as int))
  {
    FarPosition(b.index, -window, |b.cv|);
  }

  /** A negative window of less than the length counts as the length less that many. */
  lemma NegativeWindow(b: Buffer, window: int)
    requires WellFormed(b) && -|b.cv| < window < 0 && |b.cv| + window < b.maxSize
    ensures CountNegative(b, window) == Count(b, |b.cv| + window)
  {
    PositionIsAround(b, -window);
  }
}
