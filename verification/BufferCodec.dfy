/**
  Wire format of `CircularBuffer`: a packed repeated field and two int32 fields
  (Protocol Buffers Encoding guide, "Packed Repeated Fields"). What is written
  and what is read, as functions on byte strings.
 */
module BufferCodec {
  import opened ByteStrings
  import opened RingBuffer
  import opened Varint

  const MAX_INT: int := 0x7FFF_FFFF_FFFF_FFFF

  /** Conversion to int, which has 64 bits. */
  function Int64(x: int): int {
    (x + 0x8000_0000_0000_0000) % 0x1_0000_0000_0000_0000 - 0x8000_0000_0000_0000
  }

  predicate IsInt32(x: int) {
    -TWO_31 <= x < TWO_31
  }

  /** Values of the Go struct; its encoding has to fit a slice. */
  predicate Representable(b: Buffer) {
    IsInt32(b.index) && IsInt32(b.maxSize) && |b.cv| <= 0x0400_0000_0000_0000
  }

  // --------------------------------------------------------------- writing

  const TAG_VALUES: Byte := 0x0a
  const TAG_INDEX: Byte := 0x10
  const TAG_MAX_SIZE: Byte := 0x18

  function Packed(vs: seq<U64>): Bytes {
    if vs == [] then [] else Encode(vs[0]) + Packed(vs[1..])
  }

  function ValuesField(vs: seq<U64>): Bytes
    requires |Packed(vs)| < TWO_64
  {
    if vs == [] then [] else [TAG_VALUES] + Encode(|Packed(vs)|) + Packed(vs)
  }

  /** `uint64(x)` of an int32 extends the sign. */
  function Int32Field(tag: Byte, x: int): Bytes {
    if x == 0 then [] else [tag] + Encode(Wrap64(x))
  }

  lemma {:induction false} PackedLength(vs: seq<U64>)
    ensures |vs| <= |Packed(vs)| <= 10 * |vs|
  {
    if vs != [] {
      EncodeLength(vs[0], 0);
      PackedLength(vs[1..]);
    }
  }

  /** A uint64 takes at most ten bytes. */
  lemma {:induction false} EncodeLength(v: U64, k: nat)
    requires k < 10 && v * Pow128(k) < TWO_64
    ensures 1 <= |Encode(v)| <= 10 - k
    decreases v
  {
    if v >= 128 {
      GroupSplit(v, k);
      assert (v % 128) * Pow128(k) >= 0;
      SmallShift(k + 1, v / 128);
      EncodeLength(v / 128, k + 1);
    }
  }

  /** The bytes of `MarshalToSizedBuffer`. */
  function Marshal(b: Buffer): Bytes
    requires Representable(b)
  {
    PackedLength(b.cv);
    ValuesField(b.cv) + Int32Field(TAG_INDEX, b.index) + Int32Field(TAG_MAX_SIZE, b.maxSize)
  }

  lemma ValuesFieldIs(vs: seq<U64>)
    requires vs != [] && |Packed(vs)| < TWO_64
    ensures ValuesField(vs) == [TAG_VALUES] + (Encode(|Packed(vs)|) + Packed(vs))
  {
  }

  lemma MarshalIs(b: Buffer)
    requires Representable(b)
    ensures |Packed(b.cv)| < TWO_64
    ensures Marshal(b) == ValuesField(b.cv) + (Int32Field(TAG_INDEX, b.index) + Int32Field(TAG_MAX_SIZE, b.maxSize))
  {
    PackedLength(b.cv);
  }

  function SumOfSov(vs: seq<U64>): nat {
    if vs == [] then 0 else SumOfSov(vs[..|vs| - 1]) + Sov(vs[|vs| - 1])
  }

  /** `CircularBuffer.Size`. */
  function Size(b: Buffer): nat {
    var l := SumOfSov(b.cv);
    (if b.cv == [] then 0 else 1 + Sov(l) + l)
    + (if b.index == 0 then 0 else 1 + Sov(Wrap64(b.index)))
    + (if b.maxSize == 0 then 0 else 1 + Sov(Wrap64(b.maxSize)))
  }

  lemma {:induction false} PackedAppend(vs: seq<U64>, v: U64)
    ensures Packed(vs + [v]) == Packed(vs) + Encode(v)
  {
    if vs == [] {
      assert (vs + [v])[1..] == [];
    } else {
      assert (vs + [v])[1..] == vs[1..] + [v];
      PackedAppend(vs[1..], v);
    }
  }

  lemma {:induction false} PackedSize(vs: seq<U64>)
    ensures SumOfSov(vs) == |Packed(vs)|
    decreases |vs|
  {
    if vs != [] {
      var front, last := vs[..|vs| - 1], vs[|vs| - 1];
      assert vs == front + [last];
      PackedAppend(front, last);
      SovIsLength(last);
      PackedSize(front);
    }
  }

  /** `Size` announces exactly the number of bytes that are written. */
  lemma SizeIsLength(b: Buffer)
    requires Representable(b)
    ensures Size(b) == |Marshal(b)|
  {
    PackedSize(b.cv);
    PackedLength(b.cv);
    SovIsLength(|Packed(b.cv)|);
    SovIsLength(Wrap64(b.index));
    SovIsLength(Wrap64(b.maxSize));
  }

  // --------------------------------------------------------------- reading

  /** Elements of a packed field until `post` is reached or passed. */
  function ReadPacked(d: Bytes, i: nat, post: nat, vs: seq<U64>): Result<(seq<U64>, nat)>
    decreases |d| - i
  {
    if i >= post then Ok((vs, i))
    else
      var (raw, k) :- Read(d, i);
      ReadAdvances(d, i, 0, 0);
      ReadPacked(d, k, post, vs + [Wrap64(raw)])
  }

  /** The position `i + length` in int arithmetic, with the checks of the code. */
  function PostIndex(d: Bytes, i: nat, raw: nat): Result<nat> {
    var length := Int64(raw);
    if length < 0 then Fail(InvalidLength)
    else
      var post := Int64(i + length);
      if post < 0 then Fail(InvalidLength)
      else if post > |d| then Fail(UnexpectedEOF)
      else Ok(post)
  }

  /** Position after the payload of a field; negative if the sum overflowed. */
  function SkipBody(d: Bytes, j: nat, wireType: int): (r: Result<int>)
    requires j <= |d| <= MAX_INT
    ensures r.Ok? ==> r.value < 0 || j <= r.value <= MAX_INT
  {
    ReadAdvances(d, j, 0, 0);
    match wireType
    case 0 =>
      var (_, k) :- Read(d, j);
      Ok(k)
    case 1 => Ok(Int64(j + 8))
    case 2 =>
      var (raw, k) :- Read(d, j);
      if Int64(raw) < 0 then Fail(InvalidLength) else Ok(Int64(k + Int64(raw)))
    case 3 => Ok(j)
    case 4 => Ok(j)
    case 5 => Ok(Int64(j + 4))
    case _ => Fail(IllegalWireType)
  }

  /** End of the field that starts at `i`, through nested groups (`skipBitmap`). */
  function Skip(d: Bytes, i: nat, depth: nat): (r: Result<nat>)
    requires |d| <= MAX_INT
    ensures r.Ok? ==> i < r.value <= MAX_INT
    decreases if i < |d| then |d| - i else 0
  {
    if i >= |d| then Fail(UnexpectedEOF)
    else
      var (raw, j) :- Read(d, i);
      ReadAdvances(d, i, 0, 0);
      var wireType := Wrap64(raw) % 8;
      var next :- SkipBody(d, j, wireType);
      if wireType == 4 && depth == 0 then Fail(UnexpectedEndOfGroup)
      else if next < 0 then Fail(InvalidLength)
      else
        var depth' := if wireType == 3 then depth + 1 else if wireType == 4 then depth - 1 else depth;
        if depth' == 0 then Ok(next) else Skip(d, next, depth')
  }

  /** An int32 field: the low 32 bits of the varint. */
  function ReadInt32(d: Bytes, i: nat, wireType: int): Result<(int, nat)> {
    if wireType != 0 then Fail(WrongWireType)
    else
      var (raw, k) :- Read(d, i);
      Ok((Int32(raw), k))
  }

  /** The repeated field, one element or packed. */
  function ReadValues(d: Bytes, i: nat, wireType: int, vs: seq<U64>): Result<(seq<U64>, nat)> {
    if wireType == 0 then
      var (raw, k) :- Read(d, i);
      Ok((vs + [Wrap64(raw)], k))
    else if wireType == 2 then
      var (raw, k) :- Read(d, i);
      var post :- PostIndex(d, k, raw);
      ReadPacked(d, k, post, vs)
    else Fail(WrongWireType)
  }

  /** A field of another number is skipped from its tag on. */
  function SkipUnknown(d: Bytes, i: nat): (r: Result<nat>)
    requires i <= |d| <= MAX_INT
    ensures r.Ok? ==> i < r.value <= |d|
  {
    var n :- Skip(d[i..], 0, 0);
    var post := Int64(i + n);
    if post < 0 then Fail(InvalidLength) else if post > |d| then Fail(UnexpectedEOF) else Ok(post)
  }

  /** The field whose tag at `i` ends before `j`. */
  function ReadBody(d: Bytes, i: nat, j: nat, fieldNum: int, wireType: int, b: Buffer): Result<(Buffer, nat)>
    requires i <= |d| <= MAX_INT
  {
    match fieldNum
    case 1 =>
      var (vs, k) :- ReadValues(d, j, wireType, b.cv);
      Ok((b.(cv := vs), k))
    case 2 =>
      var (x, k) :- ReadInt32(d, j, wireType);
      Ok((b.(index := x), k))
    case 3 =>
      var (x, k) :- ReadInt32(d, j, wireType);
      Ok((b.(maxSize := x), k))
    case _ =>
      var k :- SkipUnknown(d, i);
      Ok((b, k))
  }

  /** One iteration of `Unmarshal`: the updated message and the position after the field. */
  function ReadField(d: Bytes, i: nat, b: Buffer): Result<(Buffer, nat)>
    requires i <= |d| <= MAX_INT
  {
    var (raw, j) :- Read(d, i);
    var fieldNum, wireType := Int32(Wrap64(raw) / 8), Wrap64(raw) % 8;
    if wireType == 4 then Fail(UnexpectedEndOfGroup)
    else if fieldNum <= 0 then Fail(IllegalTag)
    else ReadBody(d, i, j, fieldNum, wireType, b)
  }

  lemma {:induction false} ReadPackedAdvances(d: Bytes, i: nat, post: nat, vs: seq<U64>)
    requires i <= |d| && post <= |d|
    ensures var r := ReadPacked(d, i, post, vs); r.Ok? ==> i <= r.value.1 <= |d| && post <= r.value.1
    decreases |d| - i
  {
    if i < post {
      ReadAdvances(d, i, 0, 0);
      var r := Read(d, i);
      if r.Ok? {
        ReadPackedAdvances(d, r.value.1, post, vs + [Wrap64(r.value.0)]);
      }
    }
  }

  lemma ReadValuesAdvances(d: Bytes, j: nat, wireType: int, vs: seq<U64>)
    requires j <= |d|
    ensures var r := ReadValues(d, j, wireType, vs); r.Ok? ==> j < r.value.1 <= |d|
  {
    ReadAdvances(d, j, 0, 0);
    var len := Read(d, j);
    if len.Ok? && PostIndex(d, len.value.1, len.value.0).Ok? {
      ReadPackedAdvances(d, len.value.1, PostIndex(d, len.value.1, len.value.0).value, vs);
    }
  }

  /** Every iteration consumes at least a byte and stays inside the input. */
  lemma ReadFieldAdvances(d: Bytes, i: nat, b: Buffer)
    requires i <= |d| <= MAX_INT
    ensures var r := ReadField(d, i, b); r.Ok? ==> i < r.value.1 <= |d|
  {
    ReadAdvances(d, i, 0, 0);
    var tag := Read(d, i);
    if tag.Ok? {
      ReadAdvances(d, tag.value.1, 0, 0);
      ReadValuesAdvances(d, tag.value.1, Wrap64(tag.value.0) % 8, b.cv);
    }
  }

  function UnmarshalFrom(d: Bytes, i: nat, b: Buffer): Result<Buffer>
    requires i <= |d| <= MAX_INT
    decreases |d| - i
  {
    if i == |d| then Ok(b)
    else
      var (b', k) :- ReadField(d, i, b);
      ReadFieldAdvances(d, i, b);
      UnmarshalFrom(d, k, b')
  }

  /** `CircularBuffer.Unmarshal` into an empty struct. */
  function Unmarshal(d: Bytes): Result<Buffer>
    requires |d| <= MAX_INT
  {
    UnmarshalFrom(d, 0, Buffer([], 0, 0))
  }

  // ------------------------------------------------------------ round trip

  lemma HoldsPart(d: Bytes, i: nat, x: Bytes, y: Bytes)
    requires Holds(d, i, x + y)
    ensures Holds(d, i, x) && Holds(d, i + |x|, y)
  {
    var xy := x + y;
    assert d[i..i + |x|] == d[i..i + |xy|][..|x|] == xy[..|x|];
    assert d[i + |x|..i + |xy|] == d[i..i + |xy|][|x|..] == xy[|x|..];
  }

  lemma ReadPackedOne(d: Bytes, i: nat, post: nat, acc: seq<U64>, v: U64, k: nat)
    requires i < post && Read(d, i) == Ok((v as nat, k))
    ensures i < k <= |d| && ReadPacked(d, i, post, acc) == ReadPacked(d, k, post, acc + [v])
  {
    ReadAdvances(d, i, 0, 0);
  }

  lemma {:induction false} ReadPackedEncoded(d: Bytes, i: nat, vs: seq<U64>, acc: seq<U64>)
    requires Holds(d, i, Packed(vs))
    ensures ReadPacked(d, i, i + |Packed(vs)|, acc) == Ok((acc + vs, i + |Packed(vs)|))
    decreases |vs|
  {
    if vs == [] {
      assert acc + vs == acc;
    } else {
      var v, k := vs[0], i + |Encode(vs[0])|;
      HoldsPart(d, i, Encode(v), Packed(vs[1..]));
      ReadPackedEncoded(d, k, vs[1..], acc + [v]);
      assert acc + [v] + vs[1..] == acc + vs;
      ReadEncoded(d, i, v);
      FirstByte(d, i, v);
      ReadPackedOne(d, i, i + |Packed(vs)|, acc, v, k);
    }
  }

  /** A tag below 128 is a single byte. */
  lemma ReadTag(d: Bytes, i: nat, tag: Byte, rest: Bytes)
    requires tag < 128 && Holds(d, i, [tag] + rest)
    ensures Read(d, i) == Ok((tag as nat, i + 1)) && Holds(d, i + 1, rest)
  {
    HoldsPart(d, i, [tag], rest);
    ReadEncoded(d, i, tag);
  }

  lemma TagParts(tag: nat)
    requires 8 <= tag < 128
    ensures Int32(Wrap64(tag) / 8) == tag / 8 > 0 && Wrap64(tag) % 8 == tag % 8
  {
    Int32Small(tag / 8);
  }

  lemma FieldIs(d: Bytes, i: nat, b: Buffer, raw: nat, j: nat, fieldNum: int, wireType: int)
    requires i <= |d| <= MAX_INT && Read(d, i) == Ok((raw, j))
    requires Int32(Wrap64(raw) / 8) == fieldNum > 0 && Wrap64(raw) % 8 == wireType != 4
    ensures ReadField(d, i, b) == ReadBody(d, i, j, fieldNum, wireType, b)
  {
  }

  lemma ReadTagged(d: Bytes, i: nat, tag: Byte, rest: Bytes, b: Buffer)
    requires i <= |d| <= MAX_INT && 8 <= tag < 128 && tag % 8 != 4 && Holds(d, i, [tag] + rest)
    ensures Holds(d, i + 1, rest) && ReadField(d, i, b) == ReadBody(d, i, i + 1, tag / 8, tag % 8, b)
  {
    ReadTag(d, i, tag, rest);
    TagParts(tag as nat);
    FieldIs(d, i, b, tag as nat, i + 1, (tag / 8) as int, (tag % 8) as int);
  }

  lemma LengthInRange(d: Bytes, i: nat, l: nat)
    requires i + l <= |d| <= MAX_INT
    ensures PostIndex(d, i, l) == Ok(i + l)
  {
  }

  lemma ReadValuesIs(d: Bytes, i: nat, l: nat, k: nat, vs: seq<U64>, acc: seq<U64>)
    requires Read(d, i) == Ok((l, k)) && PostIndex(d, k, l) == Ok(k + l)
    requires ReadPacked(d, k, k + l, acc) == Ok((vs, k + l))
    ensures ReadValues(d, i, 2, acc) == Ok((vs, k + l))
  {
  }

  lemma ReadPackedField(d: Bytes, i: nat, vs: seq<U64>, acc: seq<U64>, l: U64, k: nat, all: seq<U64>)
    requires |d| <= MAX_INT && l == |Packed(vs)| && k == i + |Encode(l)| + l && all == acc + vs
    requires Holds(d, i, Encode(l) + Packed(vs))
    ensures ReadValues(d, i, 2, acc) == Ok((all, k))
  {
    var m := i + |Encode(l)|;
    HoldsPart(d, i, Encode(l), Packed(vs));
    assert Read(d, i) == Ok((l as nat, m)) by { ReadEncoded(d, i, l); }
    assert PostIndex(d, m, l) == Ok(k) by { LengthInRange(d, m, l); }
    assert ReadPacked(d, m, k, acc) == Ok((all, k)) by { ReadPackedEncoded(d, m, vs, acc); }
    ReadValuesIs(d, i, l, m, all, acc);
  }

  lemma ValuesBody(d: Bytes, i: nat, j: nat, b: Buffer, vs: seq<U64>, k: nat)
    requires i <= |d| <= MAX_INT && ReadValues(d, j, 2, b.cv) == Ok((vs, k))
    ensures ReadBody(d, i, j, 1, 2, b) == Ok((b.(cv := vs), k))
  {
  }

  lemma ReadValuesField(d: Bytes, i: nat, vs: seq<U64>, b: Buffer, l: U64, k: nat, all: seq<U64>)
    requires i <= |d| <= MAX_INT && l == |Packed(vs)| && k == i + 1 + |Encode(l)| + l && all == b.cv + vs
    requires Holds(d, i, [TAG_VALUES] + (Encode(l) + Packed(vs)))
    ensures ReadField(d, i, b) == Ok((b.(cv := all), k))
  {
    assert TAG_VALUES / 8 == 1 && TAG_VALUES % 8 == 2;
    ReadTagged(d, i, TAG_VALUES, Encode(l) + Packed(vs), b);
    ReadPackedField(d, i + 1, vs, b.cv, l, k, all);
    ValuesBody(d, i, i + 1, b, all, k);
  }

  lemma SignExtended(x: int)
    requires IsInt32(x)
    ensures Int32(Wrap64(x)) == x
  {
  }

  lemma ReadInt32Field(d: Bytes, i: nat, tag: Byte, x: int, b: Buffer)
    requires i <= |d| <= MAX_INT && IsInt32(x) && x != 0 && (tag == TAG_INDEX || tag == TAG_MAX_SIZE)
    requires Holds(d, i, Int32Field(tag, x))
    ensures ReadField(d, i, b)
            == Ok((if tag == TAG_INDEX then b.(index := x) else b.(maxSize := x), i + |Int32Field(tag, x)|))
  {
    ReadTagged(d, i, tag, Encode(Wrap64(x)), b);
    ReadEncoded(d, i + 1, Wrap64(x));
    SignExtended(x);
  }

  lemma Iterate(d: Bytes, i: nat, b: Buffer, b': Buffer, k: nat)
    requires i < |d| <= MAX_INT && k <= |d| && ReadField(d, i, b) == Ok((b', k))
    ensures UnmarshalFrom(d, i, b) == UnmarshalFrom(d, k, b')
  {
  }

  /** A written field is read in one iteration; an absent one changes nothing. */
  lemma ValuesStep(d: Bytes, i: nat, vs: seq<U64>, b: Buffer)
    requires i <= |d| <= MAX_INT && |Packed(vs)| < TWO_64 && Holds(d, i, ValuesField(vs)) && b.cv == []
    ensures UnmarshalFrom(d, i, b) == UnmarshalFrom(d, i + |ValuesField(vs)|, b.(cv := vs))
  {
    if vs != [] {
      ValuesFieldIs(vs);
      ReadValuesField(d, i, vs, b, |Packed(vs)|, i + |ValuesField(vs)|, vs);
      Iterate(d, i, b, b.(cv := vs), i + |ValuesField(vs)|);
    }
  }

  lemma Int32Step(d: Bytes, i: nat, tag: Byte, x: int, b: Buffer)
    requires i <= |d| <= MAX_INT && IsInt32(x) && (tag == TAG_INDEX || tag == TAG_MAX_SIZE)
    requires Holds(d, i, Int32Field(tag, x)) && (if tag == TAG_INDEX then b.index == 0 else b.maxSize == 0)
    ensures UnmarshalFrom(d, i, b)
            == UnmarshalFrom(d, i + |Int32Field(tag, x)|, if tag == TAG_INDEX then b.(index := x) else b.(maxSize := x))
  {
    if x != 0 {
      ReadInt32Field(d, i, tag, x, b);
      Iterate(d, i, b, if tag == TAG_INDEX then b.(index := x) else b.(maxSize := x), i + |Int32Field(tag, x)|);
    }
  }

  lemma MarshalFits(b: Buffer)
    requires Representable(b)
    ensures |Packed(b.cv)| < TWO_64 && |Marshal(b)| <= MAX_INT
  {
    PackedLength(b.cv);
    EncodeLength(|Packed(b.cv)|, 0);
    EncodeLength(Wrap64(b.index), 0);
    EncodeLength(Wrap64(b.maxSize), 0);
  }

  lemma IndexStep(d: Bytes, i: nat, k: nat, cv: seq<U64>, x: int)
    requires i <= |d| <= MAX_INT && IsInt32(x) && Holds(d, i, Int32Field(TAG_INDEX, x)) && k == i + |Int32Field(TAG_INDEX, x)|
    ensures UnmarshalFrom(d, i, Buffer(cv, 0, 0)) == UnmarshalFrom(d, k, Buffer(cv, x, 0))
  {
    Int32Step(d, i, TAG_INDEX, x, Buffer(cv, 0, 0));
  }

  lemma MaxSizeStep(d: Bytes, i: nat, cv: seq<U64>, x: int, y: int)
    requires i <= |d| <= MAX_INT && IsInt32(y) && Holds(d, i, Int32Field(TAG_MAX_SIZE, y))
    requires |d| == i + |Int32Field(TAG_MAX_SIZE, y)|
    ensures UnmarshalFrom(d, i, Buffer(cv, x, 0)) == Ok(Buffer(cv, x, y))
  {
    Int32Step(d, i, TAG_MAX_SIZE, y, Buffer(cv, x, 0));
  }

  lemma ThreeParts(f1: Bytes, f2: Bytes, f3: Bytes) returns (i: nat, j: nat)
    ensures i == |f1| && j == i + |f2|
    ensures var d := f1 + f2 + f3; |d| == j + |f3| && Holds(d, 0, f1) && Holds(d, i, f2) && Holds(d, j, f3)
  {
    i, j := |f1|, |f1| + |f2|;
    assert f1 + f2 + f3 == f1 + (f2 + f3);
    HoldsPart(f1 + f2 + f3, 0, f1, f2 + f3);
    HoldsPart(f1 + f2 + f3, i, f2, f3);
  }

  /** Where the three fields lie in the written bytes. */
  lemma MarshalHolds(b: Buffer) returns (i: nat, j: nat)
    requires Representable(b) && |Packed(b.cv)| < TWO_64
    ensures i == |ValuesField(b.cv)| && j == i + |Int32Field(TAG_INDEX, b.index)|
    ensures var d := Marshal(b);
      && |d| == j + |Int32Field(TAG_MAX_SIZE, b.maxSize)| && Holds(d, 0, ValuesField(b.cv))
      && Holds(d, i, Int32Field(TAG_INDEX, b.index)) && Holds(d, j, Int32Field(TAG_MAX_SIZE, b.maxSize))
  {
    i, j := ThreeParts(ValuesField(b.cv), Int32Field(TAG_INDEX, b.index), Int32Field(TAG_MAX_SIZE, b.maxSize));
  }

  /** The three fields, one after the other, up to the end of the bytes. */
  lemma ReadBack(d: Bytes, b: Buffer, i: nat, j: nat)
    requires |d| <= MAX_INT && |Packed(b.cv)| < TWO_64 && IsInt32(b.index) && IsInt32(b.maxSize)
    requires i == |ValuesField(b.cv)| && j == i + |Int32Field(TAG_INDEX, b.index)|
    requires |d| == j + |Int32Field(TAG_MAX_SIZE, b.maxSize)| && Holds(d, 0, ValuesField(b.cv))
    requires Holds(d, i, Int32Field(TAG_INDEX, b.index)) && Holds(d, j, Int32Field(TAG_MAX_SIZE, b.maxSize))
    ensures Unmarshal(d) == Ok(b)
  {
    ValuesStep(d, 0, b.cv, Buffer([], 0, 0));
    IndexStep(d, i, j, b.cv, b.index);
    MaxSizeStep(d, j, b.cv, b.index, b.maxSize);
  }

  /** Reading back what was written gives the same buffer, negative sizes and full-width entries included. */
  lemma RoundTrip(b: Buffer)
    requires Representable(b)
    ensures |Marshal(b)| <= MAX_INT && Unmarshal(Marshal(b)) == Ok(b)
  {
    MarshalFits(b);
    var i, j := MarshalHolds(b);
    ReadBack(Marshal(b), b, i, j);
  }
}
