/**
  The generated marshalling code as it runs: buffers filled from the back, and a
  parser that moves an index over the input. Proved against the functions on
  byte strings; index safety and termination hold for every input.
 */
module BufferWire {
  import opened ByteStrings
  import opened RingBuffer
  import opened BitOps
  import opened Varint
  import opened BufferCodec

  // --------------------------------------------------------------- writing

  /** `after` is `before` with `part` written over it from `i` on. */
  ghost predicate Spliced(before: Bytes, after: Bytes, i: nat, part: Bytes) {
    i + |part| <= |before| && after == before[..i] + part + before[i + |part|..]
  }

  lemma SpliceByte(s0: Bytes, s1: Bytes, i: nat, part: Bytes, c: Byte)
    requires Spliced(s0, s1, i, part) && 0 < i
    ensures Spliced(s0, s1[i - 1 := c], i - 1, [c] + part)
  {
    var p := [c] + part;
    assert s1[i - 1 := c] == s0[..i - 1] + p + s0[i - 1 + |p|..];
  }

  lemma SpliceNext(s0: Bytes, s1: Bytes, i: nat, part: Bytes, c: Byte)
    requires Spliced(s0, s1, i, part) && i + |part| < |s0|
    ensures Spliced(s0, s1[i + |part| := c], i, part + [c])
  {
    var p := part + [c];
    assert s1[i + |part| := c] == s0[..i] + p + s0[i + |p|..];
  }

  lemma RegroupBytes(a: Bytes, b: Bytes, c: Bytes, d: Bytes)
    ensures a + b + (c + d) == a + (b + c) + d
  {
  }

  lemma SpliceBefore(s0: Bytes, s1: Bytes, s2: Bytes, i: nat, part: Bytes, j: nat, front: Bytes)
    requires Spliced(s0, s1, i, part) && j + |front| == i && Spliced(s1, s2, j, front)
    ensures Spliced(s0, s2, j, front + part)
  {
    var head, tail := s0[..j], s0[i + |part|..];
    assert s1[..j] == head;
    assert s1[i..] == part + tail;
    RegroupBytes(head, front, part, tail);
  }

  lemma EncodeStep(done: Bytes, x: U64)
    requires x >= 128
    ensures done + Encode(x) == done + [x % 128 + 128] + Encode(x / 128)
  {
  }

  /** A varint written from `at` on, lowest group first. */
  method PutVarint(data: array<Byte>, at: nat, v: U64) returns (end: nat)
    requires at + |Encode(v)| <= data.Length
    modifies data
    ensures end == at + |Encode(v)| && Spliced(old(data[..]), data[..], at, Encode(v))
  {
    var x := v;
    end := at;
    ghost var s0 := data[..];
    ghost var done: Bytes := [];
    while x >= 128
      invariant 0 <= x < TWO_64 && end == at + |done| && done + Encode(x) == Encode(v)
      invariant Spliced(s0, data[..], at, done)
      decreases x
    {
      SpliceNext(s0, data[..], at, done, x % 128 + 128);
      EncodeStep(done, x);
      data[end] := x % 128 + 128;
      done := done + [x % 128 + 128];
      x := x / 128;
      end := end + 1;
    }
    SpliceNext(s0, data[..], at, done, x);
    data[end] := x;
    end := end + 1;
  }

  /** `encodeVarintBitmap`: writes `v` so that it ends before `offset`. */
  method EncodeVarint(data: array<Byte>, offset: nat, v: U64) returns (base: nat)
    requires |Encode(v)| <= offset <= data.Length
    modifies data
    ensures base == offset - |Encode(v)| && Spliced(old(data[..]), data[..], base, Encode(v))
  {
    SovIsLength(v);
    base := offset - Sov(v);
    var end := PutVarint(data, base, v);
  }

  /** A non-zero int32 field that ends before `end`: the varint, then its tag in front. */
  method PutInt32(data: array<Byte>, end: nat, tag: Byte, x: int) returns (i: nat)
    requires |Int32Field(tag, x)| <= end <= data.Length
    modifies data
    ensures i == end - |Int32Field(tag, x)| && Spliced(old(data[..]), data[..], i, Int32Field(tag, x))
  {
    i := end;
    if x != 0 {
      i := EncodeVarint(data, i, Wrap64(x));
      SpliceByte(old(data[..]), data[..], i, Encode(Wrap64(x)), tag);
      i := i - 1;
      data[i] := tag;
    }
  }

  /** All values as varints into a buffer of ten bytes each. */
  method PackValues(vs: seq<U64>) returns (packed: array<Byte>, length: nat)
    ensures fresh(packed) && length <= packed.Length && packed[..length] == Packed(vs)
  {
    packed := new Byte[10 * |vs|];
    length := 0;
    var i := 0;
    while i < |vs|
      invariant i <= |vs| && length <= 10 * i && packed[..length] == Packed(vs[..i])
    {
      EncodeLength(vs[i], 0);
      ghost var before := packed[..];
      var end := PutVarint(packed, length, vs[i]);
      assert packed[..end] == before[..length] + Encode(vs[i]);
      PackedAppend(vs[..i], vs[i]);
      assert vs[..i + 1] == vs[..i] + [vs[i]];
      i, length := i + 1, end;
    }
    assert vs[..|vs|] == vs;
  }

  /** `copy(data[i:], part[:n])`. */
  method Copy(data: array<Byte>, i: nat, part: array<Byte>, n: nat)
    requires n <= part.Length && i + n <= data.Length && part != data
    modifies data
    ensures Spliced(old(data[..]), data[..], i, part[..n])
  {
    forall k | 0 <= k < n {
      data[i + k] := part[k];
    }
    assert data[..] == old(data[..i]) + part[..n] + old(data[i + n..]);
  }

  method PutValues(data: array<Byte>, end: nat, vs: seq<U64>) returns (i: nat)
    requires |Packed(vs)| < TWO_64 && |ValuesField(vs)| <= end <= data.Length
    modifies data
    ensures i == end - |ValuesField(vs)| && Spliced(old(data[..]), data[..], i, ValuesField(vs))
  {
    i := end;
    if |vs| > 0 {
      ghost var s0 := data[..];
      var packed, length := PackValues(vs);
      i := i - length;
      Copy(data, i, packed, length);
      ghost var s1 := data[..];
      var at := EncodeVarint(data, i, length);
      SpliceBefore(s0, s1, data[..], i, Packed(vs), at, Encode(length));
      SpliceByte(s0, data[..], at, Encode(length) + Packed(vs), TAG_VALUES);
      ValuesFieldIs(vs);
      i := at - 1;
      data[i] := TAG_VALUES;
    }
  }

  /** Fills the end of `data`; the fields are written last to first. */
  method MarshalToSizedBuffer(b: Buffer, data: array<Byte>) returns (n: nat)
    requires Representable(b) && |Marshal(b)| <= data.Length
    modifies data
    ensures n == |Marshal(b)| && Spliced(old(data[..]), data[..], data.Length - n, Marshal(b))
  {
    MarshalIs(b);
    ghost var f1, f2, f3 := ValuesField(b.cv), Int32Field(TAG_INDEX, b.index), Int32Field(TAG_MAX_SIZE, b.maxSize);
    ghost var s0 := data[..];
    var i := PutInt32(data, data.Length, TAG_MAX_SIZE, b.maxSize);
    ghost var s1 := data[..];
    var j := PutInt32(data, i, TAG_INDEX, b.index);
    SpliceBefore(s0, s1, data[..], i, f3, j, f2);
    ghost var s2 := data[..];
    var k := PutValues(data, j, b.cv);
    SpliceBefore(s0, s2, data[..], j, f2 + f3, k, f1);
    n := data.Length - k;
  }

  method SizeOf(b: Buffer) returns (n: nat)
    requires Representable(b)
    ensures n == |Marshal(b)|
  {
    n := 0;
    if |b.cv| > 0 {
      var l, k := 0, 0;
      while k < |b.cv|
        invariant k <= |b.cv| && l == SumOfSov(b.cv[..k])
      {
        l := l + Sov(b.cv[k]);
        assert b.cv[..k + 1][..k] == b.cv[..k];
        k := k + 1;
      }
      assert b.cv[..k] == b.cv;
      n := n + 1 + Sov(l) + l;
    }
    if b.index != 0 {
      n := n + 1 + Sov(Wrap64(b.index));
    }
    if b.maxSize != 0 {
      n := n + 1 + Sov(Wrap64(b.maxSize));
    }
    SizeIsLength(b);
  }

  /** `CircularBuffer.Marshal`: the announced size is filled to the last byte. */
  method MarshalBytes(b: Buffer) returns (data: array<Byte>)
    requires Representable(b)
    ensures fresh(data) && data[..] == Marshal(b)
  {
    var size := SizeOf(b);
    data := new Byte[size];
    var n := MarshalToSizedBuffer(b, data);
  }

  // --------------------------------------------------------------- reading

  /** Cut to the width of the variable that is read: 2^64 for uint64 and int, 2^32 for int32. */
  function Cut(r: Result<(nat, nat)>, modulus: int): Result<(int, nat)>
    requires modulus > 0
  {
    match r
    case Ok((raw, k)) => Ok((raw % modulus, k))
    case Fail(e) => Fail(e)
  }

  /** `v |= T(b & 0x7F) << shift` for a variable of the given width; what leaves the variable is dropped. */
  function OrShifted(v: nat, group: nat, shift: nat, width: nat): nat {
    BitOr(v, (group * Pow2(shift)) % Pow2(width))
  }

  /** `v` holds what the `k` groups read so far add up to, cut to its width. */
  ghost predicate Holding(v: nat, raw: nat, k: nat, shift: nat, width: nat) {
    shift == 7 * k && v == raw % Pow2(width) && raw < Pow2(shift) == Pow128(k)
  }

  lemma HoldingNothing(width: nat)
    ensures Holding(0, 0, 0, 0, width)
  {
  }

  lemma HoldingNext(v: nat, raw: nat, k: nat, shift: nat, width: nat, group: nat) returns (next: nat)
    requires Holding(v, raw, k, shift, width) && group < 128
    ensures next == raw + group * Pow128(k) && Holding(OrShifted(v, group, shift, width), next, k + 1, shift + 7, width)
  {
    var p := Pow2(shift);
    next := raw + group * p;
    assert OrShifted(v, group, shift, width) == next % Pow2(width) by { OrStep(raw, group, shift, width); }
    assert next < 128 * p by { BelowProduct(raw, group, p, 128); }
    SevenBits(shift);
  }

  lemma SevenBits(shift: nat)
    ensures Pow2(shift + 7) == 128 * Pow2(shift)
  {
    Pow2Adds(7, shift);
    assert Pow2(7) == 128;
  }

  lemma CutIs(v: nat, raw: nat, k: nat, shift: nat, width: nat, i: nat)
    requires Holding(v, raw, k, shift, width) && (width == 32 || width == 64)
    ensures Cut(Ok((raw, i)), if width == 32 then TWO_32 else TWO_64) == Ok((v as int, i))
  {
    Widths();
  }

  /** The reading loop; `b % 128` is `b & 0x7F`. */
  method ReadVarint(d: Bytes, start: nat, width: nat) returns (r: Result<(int, nat)>)
    requires width == 32 || width == 64
    ensures r == Cut(Read(d, start), if width == 32 then TWO_32 else TWO_64)
  {
    var shift, v, i := 0, 0, start;
    ghost var k, raw: nat := 0, 0;
    HoldingNothing(width);
    while true
      invariant Holding(v, raw, k, shift, width) && Read(d, start) == ReadFrom(d, i, k, raw)
      decreases |d| - i
    {
      if shift >= 64 {
        return Fail(IntOverflow);
      }
      if i >= |d| {
        return Fail(UnexpectedEOF);
      }
      var b := d[i];
      i := i + 1;
      var group: nat := b % 128;
      ghost var next := HoldingNext(v, raw, k, shift, width, group);
      ReadFromNext(d, i - 1, k, raw, next);
      v := OrShifted(v, group, shift, width);
      raw := next;
      if b < 128 {
        CutIs(v, raw, k + 1, shift + 7, width, i);
        return Ok((v, i));
      }
      shift, k := shift + 7, k + 1;
    }
  }

  /** Elements of a packed field. */
  method ReadElements(d: Bytes, start: nat, post: nat, vs: seq<U64>) returns (r: Result<(seq<U64>, nat)>)
    requires start <= |d| && post <= |d|
    ensures r == ReadPacked(d, start, post, vs)
  {
    var i := start;
    var out: seq<U64> := vs;
    while i < post
      invariant i <= |d| && ReadPacked(d, start, post, vs) == ReadPacked(d, i, post, out)
      decreases |d| - i
    {
      ReadAdvances(d, i, 0, 0);
      var v := ReadVarint(d, i, 64);
      if v.Fail? {
        return Fail(v.error);
      }
      out := out + [v.value.0];
      i := v.value.1;
    }
    return Ok((out, i));
  }

  /** `skipBitmap`. */
  method SkipField(d: Bytes) returns (r: Result<nat>)
    requires |d| <= MAX_INT
    ensures r == Skip(d, 0, 0)
  {
    var i, depth := 0, 0;
    while i < |d|
      invariant 0 <= i && 0 <= depth && Skip(d, 0, 0) == Skip(d, i, depth)
      decreases |d| - i
    {
      var tag := ReadVarint(d, i, 64);
      ReadAdvances(d, i, 0, 0);
      if tag.Fail? {
        return Fail(tag.error);
      }
      var wireType, j := tag.value.0 % 8, tag.value.1;
      var next := SkipPayload(d, j, wireType);
      if next.Fail? {
        return Fail(next.error);
      }
      if wireType == 3 {
        depth := depth + 1;
      } else if wireType == 4 {
        if depth == 0 {
          return Fail(UnexpectedEndOfGroup);
        }
        depth := depth - 1;
      }
      if next.value < 0 {
        return Fail(InvalidLength);
      }
      if depth == 0 {
        return Ok(next.value);
      }
      i := next.value;
    }
    return Fail(UnexpectedEOF);
  }

  method SkipPayload(d: Bytes, j: nat, wireType: int) returns (next: Result<int>)
    requires j <= |d| <= MAX_INT
    ensures next == SkipBody(d, j, wireType)
  {
    match wireType {
      case 0 =>
        var v := ReadVarint(d, j, 64);
        next := if v.Ok? then Ok(v.value.1) else Fail(v.error);
      case 1 => next := Ok(Int64(j + 8));
      case 2 =>
        var v := ReadVarint(d, j, 64);
        if v.Fail? {
          return Fail(v.error);
        }
        Int64OfCut(Read(d, j).value.0);
        var length := Int64(v.value.0);
        next := if length < 0 then Fail(InvalidLength) else Ok(Int64(v.value.1 + length));
      case 3 => next := Ok(j);
      case 4 => next := Ok(j);
      case 5 => next := Ok(Int64(j + 4));
      case _ => next := Fail(IllegalWireType);
    }
  }

  lemma Int64OfCut(raw: nat)
    ensures Int64(raw % TWO_64) == Int64(raw)
  {
    assert raw % 0x1_0000_0000_0000_0000 == raw % TWO_64;
  }

  lemma Int32OfCut(raw: nat)
    ensures Int32(raw % TWO_32) == Int32(raw)
  {
    assert raw % 0x1_0000_0000 == raw % TWO_32;
  }

  /** Case 1 of the field switch. */
  method ReadRepeated(d: Bytes, j: nat, wireType: int, vs: seq<U64>) returns (r: Result<(seq<U64>, nat)>)
    requires j <= |d| <= MAX_INT
    ensures r == ReadValues(d, j, wireType, vs)
  {
    if wireType != 0 && wireType != 2 {
      return Fail(WrongWireType);
    }
    ReadAdvances(d, j, 0, 0);
    var v := ReadVarint(d, j, 64);
    if v.Fail? {
      return Fail(v.error);
    }
    if wireType == 0 {
      return Ok((vs + [v.value.0], v.value.1));
    }
    Int64OfCut(Read(d, j).value.0);
    var packedLen := Int64(v.value.0);
    if packedLen < 0 {
      return Fail(InvalidLength);
    }
    var postIndex := Int64(v.value.1 + packedLen);
    if postIndex < 0 {
      return Fail(InvalidLength);
    }
    if postIndex > |d| {
      return Fail(UnexpectedEOF);
    }
    r := ReadElements(d, v.value.1, postIndex, vs);
  }

  /** Cases 2 and 3 of the field switch. */
  method ReadInt(d: Bytes, j: nat, wireType: int) returns (r: Result<(int, nat)>)
    ensures r == ReadInt32(d, j, wireType)
  {
    if wireType != 0 {
      return Fail(WrongWireType);
    }
    r := ReadVarint(d, j, 32);
    if r.Ok? {
      Int32OfCut(Read(d, j).value.0);
      r := Ok((Int32(r.value.0), r.value.1));
    }
  }

  /** The default case of the field switch: back to the tag, then skip. */
  method SkipOther(d: Bytes, i: nat) returns (r: Result<nat>)
    requires i <= |d| <= MAX_INT
    ensures r == SkipUnknown(d, i)
  {
    r := SkipField(d[i..]);
    if r.Ok? {
      var post := Int64(i + r.value);
      r := if post < 0 then Fail(InvalidLength) else if post > |d| then Fail(UnexpectedEOF) else Ok(post);
    }
  }

  /** `CircularBuffer.Unmarshal` into an empty struct: an error, or the input is consumed to its end. */
  method UnmarshalBytes(d: Bytes) returns (r: Result<Buffer>)
    requires |d| <= MAX_INT
    ensures r == Unmarshal(d)
  {
    var m, i := Buffer([], 0, 0), 0;
    while i < |d|
      invariant 0 <= i <= |d| && Unmarshal(d) == UnmarshalFrom(d, i, m)
      decreases |d| - i
    {
      ReadFieldAdvances(d, i, m);
      var tag := ReadVarint(d, i, 64);
      if tag.Fail? {
        return Fail(tag.error);
      }
      var fieldNum, wireType, j := Int32(tag.value.0 / 8), tag.value.0 % 8, tag.value.1;
      ReadAdvances(d, i, 0, 0);
      if wireType == 4 {
        return Fail(UnexpectedEndOfGroup);
      }
      if fieldNum <= 0 {
        return Fail(IllegalTag);
      }
      ghost var body := ReadBody(d, i, j, fieldNum, wireType, m);
      assert ReadField(d, i, m) == body;
      match fieldNum {
        case 1 =>
          var f := ReadRepeated(d, j, wireType, m.cv);
          if f.Fail? {
            return Fail(f.error);
          }
          m, i := m.(cv := f.value.0), f.value.1;
        case 2 =>
          var f := ReadInt(d, j, wireType);
          if f.Fail? {
            return Fail(f.error);
          }
          m, i := m.(index := f.value.0), f.value.1;
        case 3 =>
          var f := ReadInt(d, j, wireType);
          if f.Fail? {
            return Fail(f.error);
          }
          m, i := m.(maxSize := f.value.0), f.value.1;
        case _ =>
          var f := SkipOther(d, i);
          if f.Fail? {
            return Fail(f.error);
          }
          i := f.value;
      }
    }
    return Ok(m);
  }
}
