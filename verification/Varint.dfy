/**
  Base 128 varints as the generated protobuf code writes and reads them
  (Protocol Buffers Encoding guide, "Base 128 Varints").
 */
module Varint {
  import opened BitOps
  import opened ByteStrings
  import opened RingBuffer

  datatype WireError =
    | IntOverflow | UnexpectedEOF | InvalidLength | UnexpectedEndOfGroup
    | IllegalTag | IllegalWireType | WrongWireType

  datatype Result<+T> = Ok(value: T) | Fail(error: WireError) {
    predicate IsFailure() {
      Fail?
    }

    function PropagateFailure<U>(): Result<U>
      requires Fail?
    {
      Fail(error)
    }

    function Extract(): T
      requires Ok?
    {
      value
    }
  }

  // --------------------------------------------------------------- writing

  function Encode(v: U64): (r: Bytes)
    ensures r != []
  {
    if v < 128 then [v] else [v % 128 + 128] + Encode(v / 128)
  }

  /** `math/bits.Len64`. */
  function BitLength(x: nat): nat {
    if x == 0 then 0 else 1 + BitLength(x / 2)
  }

  /** `x | 1`. */
  function OrOne(x: nat): nat {
    if x % 2 == 0 then x + 1 else x
  }

  /** `sovBitmap`: (Len64(x|1) + 6) / 7. */
  function Sov(x: nat): nat {
    (BitLength(OrOne(x)) + 6) / 7
  }

  lemma BitLengthBy128(x: nat)
    requires x >= 128
    ensures BitLength(x) == 7 + BitLength(x / 128)
  {
    var y := x / 2;
    var z := y / 2;
    assert BitLength(x) == 2 + BitLength(z);
    var w := z / 2;
    var u := w / 2;
    assert BitLength(z) == 2 + BitLength(u);
    var t := u / 2;
    assert BitLength(u) == 1 + BitLength(t);
    assert BitLength(t) == 1 + BitLength(t / 2) && BitLength(t / 2) == 1 + BitLength(t / 2 / 2);
    assert t / 2 / 2 == x / 128;
  }

  lemma BitLengthOrOne(x: nat)
    requires x >= 1
    ensures BitLength(OrOne(x)) == BitLength(x)
  {
    assert OrOne(x) / 2 == x / 2;
  }

  /** The size formula counts exactly the bytes that are written; at most ten. */
  lemma {:induction false} SovIsLength(v: U64)
    ensures Sov(v) == |Encode(v)|
    decreases v
  {
    if v < 128 {
      SmallBitLength(OrOne(v), 7);
    } else {
      BitLengthOrOne(v);
      BitLengthBy128(v);
      BitLengthOrOne(v / 128);
      SovIsLength(v / 128);
    }
  }

  lemma {:induction false} SmallBitLength(x: nat, n: nat)
    requires x < Pow2(n)
    ensures BitLength(x) <= n
  {
    if x > 0 {
      SmallBitLength(x / 2, n - 1);
    }
  }

  // --------------------------------------------------------------- reading

  function Pow128(k: nat): nat {
    if k == 0 then 1 else 128 * Pow128(k - 1)
  }

  /**
    The reading loop after `k` bytes; the shift is 7 * k, so 64 bits are exceeded
    from the eleventh byte on. The bits of `acc` lie below the shift, which makes
    the `|=` of the code a sum; callers cut the sum to the width they read.
   */
  function ReadFrom(d: Bytes, i: nat, k: nat, acc: nat): Result<(nat, nat)>
    decreases |d| - i
  {
    if k >= 10 then Fail(IntOverflow)
    else if i >= |d| then Fail(UnexpectedEOF)
    else
      var sum := acc + (d[i] % 128) * Pow128(k);
      if d[i] < 128 then Ok((sum, i + 1)) else ReadFrom(d, i + 1, k + 1, sum)
  }

  /** Sum of the read groups and the position after them. */
  function Read(d: Bytes, i: nat): Result<(nat, nat)> {
    ReadFrom(d, i, 0, 0)
  }

  lemma {:induction false} ReadAdvances(d: Bytes, i: nat, k: nat, acc: nat)
    ensures var r := ReadFrom(d, i, k, acc); r.Ok? ==> i < r.value.1 <= |d|
    decreases |d| - i
  {
    if k < 10 && i < |d| && d[i] >= 128 {
      ReadAdvances(d, i + 1, k + 1, acc + (d[i] % 128) * Pow128(k));
    }
  }

  /** `part` is written at position `i` of `d`. */
  predicate Holds(d: Bytes, i: nat, part: Bytes) {
    i + |part| <= |d| && d[i..i + |part|] == part
  }

  lemma FirstByte(d: Bytes, i: nat, v: U64)
    requires Holds(d, i, Encode(v))
    ensures i < |d| && d[i] == if v < 128 then v else v % 128 + 128
    ensures v >= 128 ==> Holds(d, i + 1, Encode(v / 128)) && |Encode(v)| == 1 + |Encode(v / 128)|
  {
    var e := Encode(v);
    assert d[i..i + |e|][0] == e[0];
    if v >= 128 {
      assert e[1..] == Encode(v / 128);
      assert d[i + 1..i + |e|] == d[i..i + |e|][1..];
    }
  }

  /** The lowest group of `v` and the rest, at the weight of the `k`-th byte. */
  lemma GroupSplit(v: nat, k: nat)
    ensures v * Pow128(k) == (v % 128) * Pow128(k) + (v / 128) * Pow128(k + 1)
  {
    assert v == 128 * (v / 128) + v % 128;
    ShiftSplit(v / 128, v % 128, Pow128(k));
  }

  lemma ReadFromNext(d: Bytes, i: nat, k: nat, raw: nat, next: nat)
    requires i < |d| && k < 10 && next == raw + (d[i] % 128) * Pow128(k)
    ensures ReadFrom(d, i, k, raw) == if d[i] < 128 then Ok((next, i + 1)) else ReadFrom(d, i + 1, k + 1, next)
  {
  }

  /** The lowest group of `v` and the rest, both below 2^64 at the weight of the `k`-th byte. */
  lemma GroupsOf(k: nat, v: nat) returns (low: nat, rest: nat)
    requires k < 10 && v * Pow128(k) < TWO_64
    ensures low == (v % 128) * Pow128(k) && rest == (v / 128) * Pow128(k + 1)
    ensures v * Pow128(k) == low + rest && rest < TWO_64
  {
    low, rest := (v % 128) * Pow128(k), (v / 128) * Pow128(k + 1);
    GroupSplit(v, k);
  }

  /** Reading what was written, whatever stands around it. */
  lemma {:induction false} ReadFromEncoded(d: Bytes, i: nat, k: nat, acc: nat, v: U64)
    requires Holds(d, i, Encode(v)) && k < 10 && v * Pow128(k) < TWO_64
    ensures ReadFrom(d, i, k, acc) == Ok((acc + v * Pow128(k), i + |Encode(v)|))
    decreases v
  {
    var low, rest := GroupsOf(k, v);
    FirstByte(d, i, v);
    assert d[i] % 128 == v % 128;
    ReadFromNext(d, i, k, acc, acc + low);
    if v >= 128 {
      SmallShift(k + 1, v / 128);
      ReadFromEncoded(d, i + 1, k + 1, acc + low, v / 128);
    } else {
      assert rest == 0;
    }
  }

  lemma ShiftSplit(q: nat, r: nat, w: nat)
    ensures (128 * q + r) * w == q * (128 * w) + r * w
  {
  }

  lemma SmallShift(k: nat, q: nat)
    requires 1 <= k <= 10 && q >= 1 && q * Pow128(k) < TWO_64
    ensures k < 10
  {
    TenGroups();
    assert q * Pow128(k) >= Pow128(k);
  }

  lemma TenGroups()
    ensures Pow128(10) >= TWO_64
  {
    assert Pow128(10) == 128 * 128 * 128 * 128 * 128 * 128 * 128 * 128 * 128 * 128;
  }

  lemma ReadEncoded(d: Bytes, i: nat, v: U64)
    requires Holds(d, i, Encode(v))
    ensures Read(d, i) == Ok((v, i + |Encode(v)|))
  {
    ReadFromEncoded(d, i, 0, 0, v);
  }
}
