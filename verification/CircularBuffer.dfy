/**
  `utils.CircularBuffer` as it runs: an array that is reallocated when it grows
  or shrinks, filled by loops over int32 index computations. Every method is
  proved to do what the ring on values does.
 */
module CircularBuffers {
  import opened Wrappers
  import opened RingBuffer

  class CircularBuffer {
    var cumulativeValue: array<U64>
    var index: int
    var maxSize: int

    ghost function Model(): Buffer
      reads this, cumulativeValue
    {
      Buffer(cumulativeValue[..], index, maxSize)
    }

    /** The array is a ring, whatever the maximum size, an int32, says. */
    ghost predicate IsRing()
      reads this, cumulativeValue
    {
      SizeOk(cumulativeValue.Length) && 0 <= index < cumulativeValue.Length && maxSize < TWO_31
    }

    /** What a maximum size of zero leaves. */
    ghost predicate IsEmpty()
      reads this, cumulativeValue
    {
      cumulativeValue.Length == 0 && index == -1
    }

    ghost predicate Valid()
      reads this, cumulativeValue
    {
      WellFormed(Model())
    }

    constructor (size: int)
      ensures fresh(cumulativeValue) && Model() == New(size) && IsRing()
      ensures Valid() <==> MaxOk(Int32(size))
    {
      cumulativeValue := new U64[INITIAL_LENGTH](_ => 0);
      index := 0;
      maxSize := Int32(size);
      new;
      assert cumulativeValue[..] == seq(INITIAL_LENGTH, _ => 0);
    }

    /** Two int32 additions and Go's remainder give the ring position. */
    method AddToIndex(i: int) returns (r: int)
      requires IsRing() && -cumulativeValue.Length <= i <= cumulativeValue.Length
      ensures r == Around(index + i, cumulativeValue.Length) && 0 <= r < cumulativeValue.Length
    {
      AddToIndexIsAround(index + i, cumulativeValue.Length);
      var length := Int32(cumulativeValue.Length);
      r := Int32(index + i);
      r := Rem(Int32(r + length), length);
    }

    method IsFull() returns (full: bool)
      requires Valid()
      ensures full == RingBuffer.IsFull(Model())
    {
      var next := AddToIndex(1);
      full := index + 1 == cumulativeValue.Length || cumulativeValue[next] != 0;
    }

    /** `make` panics on a negative size; a size of zero leaves no ring. */
    method Shrink() returns (panicked: bool)
      requires cumulativeValue.Length > maxSize && (maxSize < 0 || IsRing())
      modifies this
      ensures panicked <==> old(maxSize) < 0
      ensures panicked ==> Model() == old(Model()) && cumulativeValue == old(cumulativeValue)
      ensures !panicked ==> fresh(cumulativeValue) && maxSize == old(maxSize)
      ensures !panicked && maxSize == 0 ==> IsEmpty()
      ensures !panicked && maxSize > 0 ==> Valid() && Model() == RingBuffer.Shrink(old(Model()))
    {
      if maxSize < 0 {
        return true;
      }
      ghost var before := Model();
      var newBuffer := new U64[maxSize];
      var i := 0;
      while i < newBuffer.Length
        invariant 0 <= i <= newBuffer.Length && Model() == before && (maxSize > 0 ==> WellFormed(before))
        invariant forall k :: newBuffer.Length - i <= k < newBuffer.Length ==> newBuffer[k] == ShrunkEntry(before, k)
      {
        var at := AddToIndex(-i);
        newBuffer[newBuffer.Length - 1 - i] := cumulativeValue[at];
        i := i + 1;
      }
      index := newBuffer.Length - 1;
      cumulativeValue := newBuffer;
      assert maxSize > 0 ==> cumulativeValue[..] == RingBuffer.Shrink(before).cv;
      return false;
    }

    method Grow()
      requires Valid() && cumulativeValue.Length < maxSize && SizeOk(GrownLength(Model()))
      modifies this
      ensures Valid() && fresh(cumulativeValue) && Model() == RingBuffer.Grow(old(Model()))
    {
      ghost var before := Model();
      var length := cumulativeValue.Length;
      var newBuffer := new U64[if 2 * length < maxSize then 2 * length else maxSize](_ => 0);
      var first := AddToIndex(1);
      var zeroValue := cumulativeValue[first];
      var i := 0;
      while i < length
        invariant 0 <= i <= length && Model() == before
        invariant forall k :: 0 <= k < i ==> newBuffer[k] == GrownEntry(before, k)
        invariant forall k :: i <= k < newBuffer.Length ==> newBuffer[k] == 0
      {
        var at := AddToIndex(1 + i);
        assert Wrap64(cumulativeValue[at] as int - zeroValue) == GrownEntry(before, i);
        newBuffer[i] := Wrap64(cumulativeValue[at] as int - zeroValue);
        i := i + 1;
      }
      index := length - 1;
      cumulativeValue := newBuffer;
      assert cumulativeValue[..] == RingBuffer.Grow(before).cv;
    }

    /** Panics exactly if the maximum size is below one or there is no ring any more. */
    method Add(value: U32) returns (panicked: bool)
      requires IsEmpty() || (IsRing() && (maxSize < 1 || (Valid() && AddFits(Model()))))
      modifies this, cumulativeValue
      ensures panicked <==> old(maxSize) < 1 || old(IsEmpty())
      ensures cumulativeValue == old(cumulativeValue) || fresh(cumulativeValue)
      ensures !panicked ==> Valid() && Model() == RingBuffer.Add(old(Model()), value)
    {
      if cumulativeValue.Length > maxSize {
        panicked := Shrink();
        if panicked {
          return;
        }
      }
      if index < 0 {
        return true;
      }
      var full := IsFull();
      if full && cumulativeValue.Length < maxSize {
        Grow();
      }
      Write(value);
      return false;
    }

    /** The last three lines of `Add`. */
    method Write(value: U32)
      requires Valid()
      modifies this`index, cumulativeValue
      ensures Valid() && Model() == RingBuffer.Push(old(Model()), value)
    {
      var prevValue := cumulativeValue[index];
      index := AddToIndex(1);
      cumulativeValue[index] := Wrap64(prevValue + value);
    }

    method Count(window: int) returns (r: Outcome<U64>)
      requires IsRing() || IsEmpty()
      ensures r == if window >= maxSize || IsEmpty() then Panic
                   else if window < 0 then CountNegative(Model(), window)
                   else RingBuffer.Count(Model(), window)
    {
      if window >= maxSize || index < 0 {
        return Panic;
      }
      if window < 0 {
        r := CountFar(window);
        return;
      }
      var at;
      if window >= cumulativeValue.Length {
        at := AddToIndex(1);
      } else {
        at := AddToIndex(-window);
      }
      return Done(Wrap64(cumulativeValue[index] as int - cumulativeValue[at] as int));
    }

    /** The last case of `Count` for a negative window, where the int32 computations may overflow. */
    method CountFar(window: int) returns (r: Outcome<U64>)
      requires IsRing() && window < 0
      ensures r == CountNegative(Model(), window)
    {
      ghost var b := Model();
      PositionBound(b, -window);
      var at := Rem(Int32(Int32(index + Int32(-window)) + Int32(cumulativeValue.Length)), cumulativeValue.Length);
      assert at == Position(b, -window);
      if at < 0 {
        return Panic;
      }
      return Done(Wrap64(cumulativeValue[index] as int - cumulativeValue[at] as int));
    }

    /** A negative size panics, a size of zero leaves no ring for good, any other keeps the ring. */
    method SetMaxSize(size: int) returns (panicked: bool)
      requires IsRing() || IsEmpty()
      modifies this
      ensures panicked <==> Int32(size) < 0
      ensures maxSize == Int32(size) && (cumulativeValue == old(cumulativeValue) || fresh(cumulativeValue))
      ensures IsEmpty() <==> old(IsEmpty()) || Int32(size) == 0
      ensures Valid() <==> old(IsRing()) && MaxOk(Int32(size))
      ensures Valid() ==> Model() == Fit(old(Model()).(maxSize := Int32(size)))
    {
      Int32Twice(size);
      maxSize := Int32(size);
      panicked := false;
      if cumulativeValue.Length > maxSize {
        panicked := Shrink();
      }
    }
  }

  lemma Int32Twice(x: int)
    ensures Int32(Int32(x)) == Int32(x)
  {
  }
}
