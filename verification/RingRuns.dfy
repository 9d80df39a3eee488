/** Counting over every sequence of additions and size changes. */
module RingRuns {
  import opened Wrappers
  import opened RingBuffer
  import opened RingHistory

  datatype Op = AddOp(value: U32) | SetMaxOp(size: int)

  /** A buffer, the values its counts are about, and all values ever added. */
  datatype Track = Track(b: Buffer, kept: seq<U32>, added: seq<U32>)

  /** What an addition keeps: all, unless the buffer has to grow first. */
  function KeptByAdd(b: Buffer, kept: seq<U32>, v: U32): seq<U32>
    requires WellFormed(b)
  {
    var b1 := Fit(b);
    (if MustGrow(b1) then LastN(kept, |b1.cv| - 1) else kept) + [v]
  }

  /** The step is defined, and no length overflows the index computations. */
  predicate NextOk(t: Track, op: Op)
    requires WellFormed(t.b)
  {
    match op
    case AddOp(_) => AddFits(t.b)
    case SetMaxOp(size) => MaxOk(size)
  }

  function Next(t: Track, op: Op): (r: Track)
    requires WellFormed(t.b) && NextOk(t, op)
    ensures WellFormed(r.b)
  {
    match op
    case AddOp(v) => Track(Add(t.b, v), KeptByAdd(t.b, t.kept, v), t.added + [v])
    case SetMaxOp(size) => t.(b := SetMaxSize(t.b, size))
  }

  /** Every size is at least one, and along the run no length overflows the index computations. */
  ghost predicate LengthsOk(maxSize: int, ops: seq<Op>)
    decreases |ops|, 0
  {
    if ops == [] then MaxOk(maxSize)
    else LengthsOk(maxSize, ops[..|ops| - 1]) && NextOk(Run(maxSize, ops[..|ops| - 1]), ops[|ops| - 1])
  }

  ghost function Run(maxSize: int, ops: seq<Op>): (r: Track)
    requires LengthsOk(maxSize, ops)
    ensures WellFormed(r.b)
    decreases |ops|, 1
  {
    if ops == [] then NewIsWellFormed(maxSize); Track(New(maxSize), [], [])
    else Next(Run(maxSize, ops[..|ops| - 1]), ops[|ops| - 1])
  }

  lemma NewIsWellFormed(maxSize: int)
    requires MaxOk(maxSize)
    ensures WellFormed(New(maxSize)) && New(maxSize).maxSize == maxSize
  {
    Int32Small(maxSize);
  }

  /** Sizes of which three fit in 2^31 make every run one without overflow. */
  lemma {:induction false} SmallSizesFit(maxSize: int, ops: seq<Op>)
    requires SizeOk(maxSize) && forall i :: 0 <= i < |ops| && ops[i].SetMaxOp? ==> SizeOk(ops[i].size)
    ensures LengthsOk(maxSize, ops) && SizeOk(Run(maxSize, ops).b.maxSize)
  {
    if ops == [] {
      NewIsWellFormed(maxSize);
    } else {
      SmallSizesFit(maxSize, ops[..|ops| - 1]);
    }
  }

  ghost predicate IsSuffix(s: seq<U32>, whole: seq<U32>) {
    |s| <= |whole| && s == whole[|whole| - |s|..]
  }

  ghost predicate Good(t: Track) {
    WellFormed(t.b) && Ring(t.b, t.kept) && IsSuffix(t.kept, t.added)
  }

  lemma FitKeepsRing(b: Buffer, h: seq<U32>)
    requires WellFormed(b) && Ring(b, h)
    ensures Ring(Fit(b), h)
  {
    if |b.cv| > b.maxSize {
      ShrinkKeepsRing(b, h);
    }
  }

  lemma ResizeKeepsRing(b: Buffer, h: seq<U32>, size: int)
    requires WellFormed(b) && Ring(b, h) && MaxOk(size)
    ensures Int32(size) == size && Ring(b.(maxSize := size), h)
  {
    Int32Small(size);
    var r := b.(maxSize := size);
    forall j | 0 <= j < |r.cv| ensures RingAt(r, h, j) {
      assert RingAt(b, h, j);
    }
  }

  lemma AddKeepsRing(b: Buffer, h: seq<U32>, v: U32)
    requires WellFormed(b) && Ring(b, h) && AddFits(b)
    ensures Ring(Add(b, v), KeptByAdd(b, h, v))
  {
    var b1 := Fit(b);
    FitKeepsRing(b, h);
    if MustGrow(b1) {
      GrowKeepsRing(b1, h);
      PushKeepsRing(Grow(b1), LastN(h, |b1.cv| - 1), v);
    } else {
      PushKeepsRing(b1, h, v);
    }
  }

  lemma SuffixGrows(s: seq<U32>, whole: seq<U32>, n: nat, v: U32)
    requires IsSuffix(s, whole)
    ensures IsSuffix(s + [v], whole + [v]) && IsSuffix(LastN(s, n) + [v], whole + [v])
  {
  }

  lemma NextKeepsGood(t: Track, op: Op)
    requires Good(t) && NextOk(t, op)
    ensures Good(Next(t, op))
  {
    match op
    case AddOp(v) =>
      AddKeepsRing(t.b, t.kept, v);
      SuffixGrows(t.kept, t.added, |Fit(t.b).cv| - 1, v);
    case SetMaxOp(size) =>
      ResizeKeepsRing(t.b, t.kept, size);
      FitKeepsRing(t.b.(maxSize := size), t.kept);
  }

  lemma {:induction false} RunIsGood(maxSize: int, ops: seq<Op>)
    requires LengthsOk(maxSize, ops)
    ensures Good(Run(maxSize, ops))
    decreases |ops|
  {
    if ops == [] {
      NewIsWellFormed(maxSize);
      assert forall j :: 0 <= j < INITIAL_LENGTH ==> RingAt(New(maxSize), [], j);
    } else {
      RunIsGood(maxSize, ops[..|ops| - 1]);
      NextKeepsGood(Run(maxSize, ops[..|ops| - 1]), ops[|ops| - 1]);
    }
  }

  // ------------------------------------------------------------- counting

  lemma RecentSumFits(h: seq<U32>, j: nat)
    requires j < TWO_31
    ensures Wrap64(SumLast(h, j)) == SumLast(h, j)
  {
    SumLastBound(h, j, TWO_32 - 1);
    assert j * (TWO_32 - 1) < TWO_31 * TWO_32;
  }

  lemma DifferenceIsSum(x: int, y: int, sum: int)
    requires Wrap64(x - y - sum) == 0
    ensures Wrap64(x - y) == Wrap64(sum)
  {
  }

  lemma CountOf(t: Track, w: nat)
    requires Good(t) && w < t.b.maxSize
    ensures Count(t.b, w) == Done(SumLast(t.kept, Min(w, |t.b.cv| - 1)))
  {
    var j := Min(w, |t.b.cv| - 1);
    assert RingAt(t.b, t.kept, j);
    DifferenceIsSum(t.b.cv[t.b.index], Back(t.b, j), SumLast(t.kept, j));
    RecentSumFits(t.kept, j);
  }

  /** How many of the newest values the buffer can still tell apart. */
  ghost function Held(t: Track): nat
    requires WellFormed(t.b)
  {
    Min(|t.kept|, |t.b.cv| - 1)
  }

  lemma SuffixSum(s: seq<U32>, whole: seq<U32>, j: nat)
    requires IsSuffix(s, whole)
    ensures SumLast(s, j) == SumLast(whole, Min(j, |s|))
  {
    assert s == LastN(whole, |s|);
    SumOfLastN(whole, |s|, j);
  }

  lemma HeldSum(kept: seq<U32>, added: seq<U32>, n: nat, w: nat)
    requires IsSuffix(kept, added)
    ensures SumLast(kept, Min(w, n)) == SumLast(added, Min(w, Min(|kept|, n))) <= SumLast(added, w)
  {
    SuffixSum(kept, added, Min(w, n));
    SumLastMonotone(added, Min(w, Min(|kept|, n)), w);
  }

  lemma HeldCount(t: Track, w: nat)
    requires Good(t) && w < t.b.maxSize
    ensures Count(t.b, w) == Done(SumLast(t.added, Min(w, Held(t))))
    ensures SumLast(t.added, Min(w, Held(t))) <= SumLast(t.added, w)
  {
    CountOf(t, w);
    HeldSum(t.kept, t.added, |t.b.cv| - 1, w);
  }

  /**
    Whatever the sizes did, a count is the sum of the newest added values, of as many
    as asked for and held, and never more than the true sum.
   */
  lemma CountNeverOvercounts(maxSize: int, ops: seq<Op>, w: nat)
    requires LengthsOk(maxSize, ops) && w < Run(maxSize, ops).b.maxSize
    ensures var t := Run(maxSize, ops); Count(t.b, w) == Done(SumLast(t.added, Min(w, Held(t))))
    ensures var t := Run(maxSize, ops); SumLast(t.added, Min(w, Held(t))) <= SumLast(t.added, w)
  {
    RunIsGood(maxSize, ops);
    HeldCount(Run(maxSize, ops), w);
  }

  /** Of the newest `k` values, those after the newest `j` are all zero. */
  ghost predicate ZeroBetween(h: seq<U32>, j: nat, k: nat) {
    forall i: nat :: j <= i < k && i < |h| ==> Newest(h, i) == 0
  }

  lemma {:induction false} SameSumIff(h: seq<U32>, j: nat, k: nat)
    requires j <= k
    ensures SumLast(h, j) == SumLast(h, k) <==> ZeroBetween(h, j, k)
  {
    if h != [] && k > 0 {
      var front, j' := h[..|h| - 1], if j == 0 then 0 else j - 1;
      SameSumIff(front, j', k - 1);
      assert forall i: nat :: i < |front| ==> Newest(front, i) == Newest(h, i + 1);
      if ZeroBetween(h, j, k) {
        assert ZeroBetween(front, j', k - 1);
        assert j == 0 ==> Newest(h, 0) == 0;
      } else if ZeroBetween(front, j', k - 1) {
        assert forall i: nat :: 0 < i && j <= i < k && i < |h| ==> Newest(h, i) == Newest(front, i - 1) == 0;
      }
    }
  }

  lemma ExactIffZero(t: Track, w: nat)
    requires Good(t) && w < t.b.maxSize
    ensures Count(t.b, w) == Done(SumLast(t.added, w)) <==> ZeroBetween(t.added, Held(t), w)
  {
    HeldCount(t, w);
    SameSumIff(t.added, Min(w, Held(t)), w);
  }

  /** After every run a count is exact if and only if the values of the window that are no longer held were zero. */
  lemma CountIsExactIff(maxSize: int, ops: seq<Op>, w: nat)
    requires LengthsOk(maxSize, ops) && w < Run(maxSize, ops).b.maxSize
    ensures var t := Run(maxSize, ops);
      Count(t.b, w) == Done(SumLast(t.added, w)) <==> ZeroBetween(t.added, Held(t), w)
  {
    RunIsGood(maxSize, ops);
    ExactIffZero(Run(maxSize, ops), w);
  }

  // ------------------------------------------------------------ exactness

  /** Every size change keeps or lowers the size that was in force. */
  ghost predicate NeverRaised(maxSize: int, ops: seq<Op>)
    requires LengthsOk(maxSize, ops)
  {
    forall i :: 0 <= i < |ops| && ops[i].SetMaxOp? ==>
      LengthsOk(maxSize, ops[..i]) && ops[i].size <= Run(maxSize, ops[..i]).b.maxSize
  }

  /** Nothing is forgotten, and a buffer that may still grow has never gone round. */
  ghost predicate Whole(t: Track) {
    && t.kept == t.added
    && (|t.b.cv| < t.b.maxSize ==>
          t.b.index == |t.added| && forall i :: t.b.index < i < |t.b.cv| ==> t.b.cv[i] == 0)
  }

  lemma NextKeepsWhole(t: Track, op: Op)
    requires WellFormed(t.b) && Whole(t) && NextOk(t, op) && (op.SetMaxOp? ==> op.size <= t.b.maxSize)
    ensures Whole(Next(t, op))
  {
    match op
    case AddOp(v) =>
      var b1 := Fit(t.b);
      if |b1.cv| < b1.maxSize && MustGrow(b1) {
        assert b1.index + 1 == |b1.cv|;
        assert forall i :: |b1.cv| <= i < GrownLength(b1) ==> Grow(b1).cv[i] == GrownEntry(b1, i);
      }
    case SetMaxOp(size) =>
      Int32Small(size);
  }

  lemma {:induction false} RunIsWhole(maxSize: int, ops: seq<Op>)
    requires LengthsOk(maxSize, ops) && NeverRaised(maxSize, ops)
    ensures Whole(Run(maxSize, ops))
    decreases |ops|
  {
    if ops != [] {
      var front := ops[..|ops| - 1];
      forall i | 0 <= i < |front| && front[i].SetMaxOp?
        ensures LengthsOk(maxSize, front[..i]) && front[i].size <= Run(maxSize, front[..i]).b.maxSize
      {
        assert front[..i] == ops[..i];
      }
      RunIsWhole(maxSize, front);
      NextKeepsWhole(Run(maxSize, front), ops[|ops| - 1]);
    }
  }

  /** While the size is never raised every count is exact, through growth, wrap-around and shrinking. */
  lemma CountIsExact(maxSize: int, ops: seq<Op>, w: nat)
    requires LengthsOk(maxSize, ops) && NeverRaised(maxSize, ops) && w < Run(maxSize, ops).b.maxSize
    ensures Count(Run(maxSize, ops).b, w) == Done(SumLast(Run(maxSize, ops).added, w))
  {
    var t := Run(maxSize, ops);
    RunIsGood(maxSize, ops);
    RunIsWhole(maxSize, ops);
    CountOf(t, w);
    SumLastMonotone(t.added, Min(w, |t.b.cv| - 1), w);
  }

  /** Whatever the maximum size, a buffer that is only added to is at most twice as long as it needs to be. */
  lemma {:induction false} FewAdditionsFit(maxSize: int, ops: seq<Op>)
    requires MaxOk(maxSize) && SizeOk(INITIAL_LENGTH + 2 * |ops|) && forall i :: 0 <= i < |ops| ==> ops[i].AddOp?
    ensures LengthsOk(maxSize, ops) && Run(maxSize, ops).b.maxSize == maxSize && |Run(maxSize, ops).added| == |ops|
    ensures Whole(Run(maxSize, ops)) && |Run(maxSize, ops).b.cv| <= INITIAL_LENGTH + 2 * |ops|
    decreases |ops|
  {
    if ops == [] {
      NewIsWellFormed(maxSize);
    } else {
      var front, op := ops[..|ops| - 1], ops[|ops| - 1];
      FewAdditionsFit(maxSize, front);
      AdditionFits(Run(maxSize, front), op, |front|);
    }
  }

  lemma AdditionFits(t: Track, op: Op, n: nat)
    requires WellFormed(t.b) && Whole(t) && op.AddOp? && |t.added| == n
    requires |t.b.cv| <= INITIAL_LENGTH + 2 * n && SizeOk(INITIAL_LENGTH + 2 * (n + 1))
    ensures NextOk(t, op) && Whole(Next(t, op)) && Next(t, op).b.maxSize == t.b.maxSize
    ensures |Next(t, op).b.cv| <= INITIAL_LENGTH + 2 * (n + 1)
  {
    var b1 := Fit(t.b);
    if MustGrow(b1) {
      assert b1 == t.b && b1.index + 1 == |b1.cv| == n + 1;
    }
    NextKeepsWhole(t, op);
  }

  /** Raising the size of a buffer that has gone round does lose values: 5 is forgotten. */
  lemma RaisingForgets()
    ensures var t := Next(Next(TWO_ADDED, SetMaxOp(4)), AddOp(0));
      t.added == [5, 7, 0] && SumLast(t.added, 3) == 12 && Count(t.b, 3) == Done(7)
  {
    var t3 := Next(TWO_ADDED, SetMaxOp(4));
    assert t3.b == Buffer([5, 12], 1, 4);
    assert Grow(t3.b).cv == [0, 7, 0, 0];
    var t4 := Next(t3, AddOp(0));
    assert t4.b.cv == [0, 7, 7, 0];
    assert t4.added[..2] == [5, 7] && [5, 7][..1] == [5];
    assert SumLast([5, 7], 2) == 7 + SumLast([5], 1) == 12;
  }

  /** A buffer of size 2 after adding 5 and 7. */
  const TWO_ADDED := Track(Buffer([5, 12], 1, 2), [5, 7], [5, 7])

  lemma TwoAddedIsARun()
    ensures LengthsOk(2, [AddOp(5), AddOp(7)]) && TWO_ADDED == Run(2, [AddOp(5), AddOp(7)])
  {
    SmallSizesFit(2, [AddOp(5), AddOp(7)]);
    SmallSizesFit(2, [AddOp(5)]);
    NewIsWellFormed(2);
    var t0 := Track(New(2), [], []);
    assert Shrink(t0.b).cv == [0, 0];
    var t1 := Next(t0, AddOp(5));
    assert t1.b == Buffer([5, 0], 0, 2);
    var ops := [AddOp(5), AddOp(7)];
    assert ops[..1] == [AddOp(5)] && ops[..1][..0] == [];
    assert Run(2, ops[..1]) == t1;
  }

  // --------------------------------------------------------------- bitmaps

  /** `Bitmap.Add`: a bit is counted as 1 or 0. */
  function Bit(bit: bool): Op {
    AddOp(if bit then 1 else 0)
  }

  ghost predicate BitsOnly(ops: seq<Op>) {
    forall i :: 0 <= i < |ops| && ops[i].AddOp? ==> ops[i] == Bit(true) || ops[i] == Bit(false)
  }

  function CountTrue(b: Buffer, w: nat): Outcome<U64>
    requires WellFormed(b)
  {
    Count(b, w)
  }

  function CountFalse(b: Buffer, w: nat): Outcome<U64>
    requires WellFormed(b)
  {
    var ones :- CountTrue(b, w);
    Done(Wrap64(w - ones))
  }

  lemma {:induction false} BitsAdded(maxSize: int, ops: seq<Op>)
    requires LengthsOk(maxSize, ops) && BitsOnly(ops)
    ensures forall v :: v in Run(maxSize, ops).added ==> v <= 1
    decreases |ops|
  {
    if ops != [] {
      BitsAdded(maxSize, ops[..|ops| - 1]);
    }
  }

  /** In every window the ones and the zeros add up to the window: `CountFalse` never underflows. */
  lemma BitsAddUp(maxSize: int, ops: seq<Op>, w: nat)
    requires LengthsOk(maxSize, ops) && BitsOnly(ops) && w < Run(maxSize, ops).b.maxSize
    ensures var b := Run(maxSize, ops).b;
      && CountTrue(b, w).Done? && CountTrue(b, w).value <= w
      && CountFalse(b, w) == Done(w - CountTrue(b, w).value)
  {
    var t := Run(maxSize, ops);
    CountNeverOvercounts(maxSize, ops, w);
    BitsAdded(maxSize, ops);
    OnesAtMost(t.added, w);
    NoUnderflow(t.b, w);
  }

  lemma OnesAtMost(h: seq<U32>, w: nat)
    requires forall v :: v in h ==> v <= 1
    ensures SumLast(h, w) <= w
  {
    assert forall i :: 0 <= i < |h| ==> h[i] in h;
    SumLastBound(h, w, 1);
  }

  lemma NoUnderflow(b: Buffer, w: nat)
    requires WellFormed(b) && CountTrue(b, w).Done? && CountTrue(b, w).value <= w
    ensures CountFalse(b, w) == Done(w - CountTrue(b, w).value)
  {
  }
}
