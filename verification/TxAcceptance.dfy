/** The checks on wrapped messages, and what holds of every transaction that passes them all. */
module TxAcceptance {
  import opened Wrappers
  import opened MessageTree

  const BATCH_URL: TypeUrl := "/axelar.auxiliary.v1beta1.BatchRequest"
  const EXEC_URL: TypeUrl := "/cosmos.authz.v1beta1.MsgExec"
  const REFUND_URL: TypeUrl := "/axelar.reward.v1beta1.RefundMsgRequest"

  predicate IsWrapper(m: Msg) {
    !m.Leaf?
  }

  function UrlOf(m: Msg): TypeUrl {
    match m
    case Leaf(_, url, _) => url
    case Batch(_, _) => BATCH_URL
    case Exec(_, _, _) => EXEC_URL
    case Refund(_, _, _) => REFUND_URL
  }

  /** `ValidateBasic`: batches are not empty and hold no batch, refunds have an inner message. */
  ghost predicate ValidBasic(m: Msg) {
    match m
    case Leaf(_, _, _) => true
    case Exec(_, _, _) => true
    case Batch(_, msgs) => msgs != [] && forall i :: 0 <= i < |msgs| ==> !msgs[i].Batch? && ValidBasic(msgs[i])
    case Refund(_, _, inner) => inner.Some? && ValidBasic(inner.value)
  }

  ghost predicate ExecIsPlain(m: Msg) {
    m.Exec? ==> m.readable && forall c :: c in m.msgs ==> c.Leaf? && c.role == Unrestricted
  }

  ghost predicate BatchHasNoExec(m: Msg) {
    m.Batch? ==> forall c :: c in m.msgs ==> !c.Exec?
  }

  ghost predicate Wrapped(ms: seq<Msg>) {
    forall m :: m in ms ==> ExecIsPlain(m) && BatchHasNoExec(m)
  }

  predicate Open(m: Msg) {
    m.Leaf? ==> m.role == Unrestricted
  }

  /** The first message that is not open to everybody decides: restricted, or of no readable role. */
  method ContainsRoleGated(ms: seq<Msg>) returns (r: Outcome<bool>)
    ensures r == Done(false) <==> forall m :: m in ms ==> Open(m)
    ensures r != Done(false) ==>
      exists i :: 0 <= i < |ms| && !Open(ms[i]) && (forall j :: 0 <= j < i ==> Open(ms[j]))
                  && r == if ms[i].role == Restricted then Done(true) else Error
  {
    for i := 0 to |ms|
      invariant forall j :: 0 <= j < i ==> Open(ms[j])
    {
      if ms[i].Leaf? {
        assert ms[i] in ms;
        if ms[i].role == Unreadable {
          return Error;
        }
        if ms[i].role == Restricted {
          return Done(true);
        }
      }
    }
    return Done(false);
  }

  method Contains(ms: seq<Msg>, kind: Msg -> bool) returns (b: bool)
    ensures b <==> exists m :: m in ms && kind(m)
  {
    for i := 0 to |ms|
      invariant forall m :: m in ms[..i] ==> !kind(m)
    {
      if kind(ms[i]) {
        return true;
      }
      assert ms[..i + 1] == ms[..i] + [ms[i]];
    }
    assert ms[..|ms|] == ms;
    return false;
  }

  /** `ValidateWrappedMsgs`: rejects at the first offending message. */
  method ValidateWrappedMsgs(ms: seq<Msg>) returns (ok: bool)
    ensures ok <==> Wrapped(ms)
  {
    for i := 0 to |ms|
      invariant forall m :: m in ms[..i] ==> ExecIsPlain(m) && BatchHasNoExec(m)
    {
      var m := ms[i];
      assert m in ms;
      match m {
        case Exec(_, msgs, readable) =>
          if !readable {
            return false;
          }
          var gated := ContainsRoleGated(msgs);
          if gated != Done(false) {
            return false;
          }
          var wrapper := Contains(msgs, IsWrapper);
          if wrapper {
            return false;
          }
        case Batch(_, msgs) =>
          var exec := Contains(msgs, (c: Msg) => c.Exec?);
          if exec {
            return false;
          }
        case _ =>
      }
      assert ms[..i + 1] == ms[..i] + [m];
    }
    assert ms[..|ms|] == ms;
    return true;
  }

  function Addrs(ms: seq<Msg>): set<nat> {
    set m | m in ms :: m.addr
  }

  /** Pointers of the messages that a refund request in the list wraps. */
  function Inners(ms: seq<Msg>): set<nat> {
    set m | m in ms && m.Refund? && m.inner.Some? :: m.inner.value.addr
  }

  /** What `validateRefundQualification` demands of one message that is not skipped. */
  predicate Refundable(m: Msg, registered: set<TypeUrl>, fromProxy: Msg -> bool) {
    m.Batch? || (m.Refund? && m.innerUrl in registered && fromProxy(m))
  }

  ghost predicate Qualifies(ms: seq<Msg>, registered: set<TypeUrl>, fromProxy: Msg -> bool) {
    forall m :: m in ms ==> m.addr in Inners(ms) || Refundable(m, registered, fromProxy)
  }

  method ValidateRefundQualification(ms: seq<Msg>, registered: set<TypeUrl>, fromProxy: Msg -> bool) returns (ok: bool)
    ensures ok <==> Qualifies(ms, registered, fromProxy)
  {
    var inners: set<nat> := {};
    for i := 0 to |ms|
      invariant inners == Inners(ms[..i])
    {
      assert ms[..i + 1] == ms[..i] + [ms[i]];
      if ms[i].Refund? && ms[i].inner.Some? {
        inners := inners + {ms[i].inner.value.addr};
      }
    }
    assert ms[..|ms|] == ms;
    for i := 0 to |ms|
      invariant forall m :: m in ms[..i] ==> m.addr in inners || Refundable(m, registered, fromProxy)
    {
      assert ms[..i + 1] == ms[..i] + [ms[i]];
      if ms[i].addr in inners {
        continue;
      }
      if !Refundable(ms[i], registered, fromProxy) {
        assert ms[i] in ms;
        return false;
      }
    }
    return true;
  }

  /** Every check a transaction passes before its messages reach the later decorators. */
  ghost predicate Accepted(ms: seq<Msg>, registered: set<TypeUrl>, fromProxy: Msg -> bool) {
    && (forall m :: m in ms ==> ValidBasic(m))
    && Wrapped(ms)
    && Unpack(ms).Some?
    && var all := Unpack(ms).value;
       (exists m :: m in all && m.Refund?) ==> Qualifies(all, registered, fromProxy)
  }

  /** Decoding gives every message its own pointer, and a payload its own type. */
  ghost predicate Decoded(ms: seq<Msg>) {
    && Distinct(PreOrder(ms))
    && forall m :: m in PreOrder(ms) && m.Refund? && m.inner.Some? ==> m.innerUrl == UrlOf(m.inner.value)
  }

  ghost predicate Distinct(ms: seq<Msg>) {
    forall i, j :: 0 <= i < j < |ms| ==> ms[i].addr != ms[j].addr
  }

  /** No wrapper type is registered as refundable. */
  predicate NoWrapper(registered: set<TypeUrl>) {
    BATCH_URL !in registered && EXEC_URL !in registered && REFUND_URL !in registered
  }

  // The shape that acceptance leaves.

  ghost predicate PlainRefund(m: Msg) {
    m.Refund? && m.inner.Some? && m.inner.value.Leaf?
  }

  ghost predicate Tidy(m: Msg) {
    match m
    case Leaf(_, _, _) => true
    case Exec(_, msgs, _) => forall c :: c in msgs ==> c.Leaf? && c.role == Unrestricted
    case Refund(_, _, _) => PlainRefund(m)
    case Batch(_, msgs) => msgs != [] && forall c :: c in msgs ==> c.Leaf? || PlainRefund(c)
  }

  // Where the flattened list stands to the tree.

  lemma PreOrderParts(ms: seq<Msg>)
    requires ms != []
    ensures PreOrder(ms) == [ms[0]] + PreOrder(Children(ms[0])) + PreOrder(ms[1..])
  {
  }

  lemma {:induction false} ListedInPreOrder(ms: seq<Msg>, m: Msg)
    requires m in ms
    ensures m in PreOrder(ms)
  {
    if m != ms[0] {
      ListedInPreOrder(ms[1..], m);
    }
  }

  lemma {:induction false} ChildInPreOrder(ms: seq<Msg>, m: Msg, c: Msg)
    requires m in ms && c in Children(m)
    ensures c in PreOrder(ms)
  {
    if m == ms[0] {
      ListedInPreOrder(Children(m), c);
    } else {
      ChildInPreOrder(ms[1..], m, c);
    }
  }

  lemma {:induction false} UnpackInPreOrder(ms: seq<Msg>, x: Msg)
    requires Unpack(ms).Some? && x in Unpack(ms).value
    ensures x in PreOrder(ms)
    decreases Sizes(ms)
  {
    HeadAndTail(ms);
    PreOrderParts(ms);
    var h := ms[0];
    if x in Opened(h).value {
      if h.Batch? {
        UnpackInPreOrder(h.msgs, x);
      } else {
        ListedInPreOrder(Children(h), x);
      }
    } else if x in Unpack(ms[1..]).value {
      UnpackInPreOrder(ms[1..], x);
    }
  }

  lemma {:induction false} ListedInUnpack(ms: seq<Msg>, m: Msg)
    requires Unpack(ms).Some? && m in ms
    ensures m in Unpack(ms).value
    ensures m.Batch? ==> Unpack(m.msgs).Some? && forall x :: x in Unpack(m.msgs).value ==> x in Unpack(ms).value
  {
    if m != ms[0] {
      ListedInUnpack(ms[1..], m);
    }
  }

  lemma BatchedInUnpack(ms: seq<Msg>, b: Msg, c: Msg)
    requires Unpack(ms).Some? && b in ms && b.Batch? && c in b.msgs
    ensures c in Unpack(ms).value
  {
    ListedInUnpack(ms, b);
    ListedInUnpack(b.msgs, c);
  }

  // No message outside a refund shares its pointer with a refund's inner message.

  lemma DistinctParts(h: Msg, a: seq<Msg>, b: seq<Msg>)
    requires Distinct([h] + a + b)
    ensures Distinct(a) && Distinct(b)
    ensures h.addr !in Addrs(a) + Addrs(b) && Addrs(a) !! Addrs(b)
  {
    var all := [h] + a + b;
    forall i, j | 0 <= i < j < |a| ensures a[i].addr != a[j].addr {
      assert all[i + 1] == a[i] && all[j + 1] == a[j];
    }
    forall i, j | 0 <= i < j < |b| ensures b[i].addr != b[j].addr {
      assert all[i + 1 + |a|] == b[i] && all[j + 1 + |a|] == b[j];
    }
    forall i | 0 <= i < |a| ensures a[i].addr != h.addr && forall j :: 0 <= j < |b| ==> a[i].addr != b[j].addr {
      assert all[i + 1] == a[i] && all[0] == h;
      forall j | 0 <= j < |b| ensures a[i].addr != b[j].addr {
        assert all[j + 1 + |a|] == b[j];
      }
    }
    forall j | 0 <= j < |b| ensures b[j].addr != h.addr {
      assert all[j + 1 + |a|] == b[j] && all[0] == h;
    }
  }

  lemma InnersOfParts(h: Msg, a: seq<Msg>, b: seq<Msg>)
    ensures Inners([h] + a + b) == Inners([h]) + Inners(a) + Inners(b)
  {
  }

  lemma {:induction false} InnersInside(ms: seq<Msg>)
    ensures Inners(PreOrder(ms)) <= Addrs(PreOrder(ms))
    decreases Sizes(ms)
  {
    if ms != [] {
      HeadAndTail(ms);
      var h, rest := ms[0], ms[1..];
      InnersInside(Children(h));
      InnersInside(rest);
      HeadInner(h);
      InnersOfParts(h, PreOrder(Children(h)), PreOrder(rest));
      PreOrderParts(ms);
    }
  }

  lemma HeadInner(h: Msg)
    ensures Inners([h]) <= Addrs(PreOrder(Children(h)))
  {
    if h.Refund? && h.inner.Some? {
      ListedInPreOrder(Children(h), h.inner.value);
    }
  }

  /** The refund inners of a list of trees, seen from its first tree and the rest. */
  lemma InnersSplit(ms: seq<Msg>)
    requires ms != [] && Distinct(PreOrder(ms))
    ensures var c, r := PreOrder(Children(ms[0])), PreOrder(ms[1..]);
      && Distinct(c) && Distinct(r) && ms[0].addr !in Addrs(c) + Addrs(r) && Addrs(c) !! Addrs(r)
      && Inners(PreOrder(ms)) == Inners([ms[0]]) + Inners(c) + Inners(r)
      && Inners([ms[0]]) + Inners(c) <= Addrs(c) && Inners(r) <= Addrs(r)
  {
    var c, r := PreOrder(Children(ms[0])), PreOrder(ms[1..]);
    PreOrderParts(ms);
    DistinctParts(ms[0], c, r);
    InnersOfParts(ms[0], c, r);
    HeadInner(ms[0]);
    InnersInside(Children(ms[0]));
    InnersInside(ms[1..]);
  }

  lemma {:induction false} ListedIsNoInner(ms: seq<Msg>, m: Msg)
    requires Distinct(PreOrder(ms)) && m in ms
    ensures m.addr !in Inners(PreOrder(ms))
  {
    InnersSplit(ms);
    if m != ms[0] {
      ListedIsNoInner(ms[1..], m);
      ListedInPreOrder(ms[1..], m);
    }
  }

  lemma {:induction false} BatchedIsNoInner(ms: seq<Msg>, b: Msg, m: Msg)
    requires Distinct(PreOrder(ms)) && b in ms && b.Batch? && m in b.msgs
    ensures m.addr !in Inners(PreOrder(ms))
  {
    InnersSplit(ms);
    if b == ms[0] {
      ListedIsNoInner(b.msgs, m);
      ListedInPreOrder(b.msgs, m);
    } else {
      BatchedIsNoInner(ms[1..], b, m);
      ChildInPreOrder(ms[1..], b, m);
    }
  }

  lemma InnersOfUnpack(ms: seq<Msg>)
    requires Unpack(ms).Some?
    ensures Inners(Unpack(ms).value) <= Inners(PreOrder(ms))
  {
    forall m | m in Unpack(ms).value ensures m in PreOrder(ms) {
      UnpackInPreOrder(ms, m);
    }
  }

  /** A message at the top, or directly in a top-level batch, is checked and not skipped. */
  lemma OuterIsRefundable(ms: seq<Msg>, m: Msg, registered: set<TypeUrl>, fromProxy: Msg -> bool)
    requires Unpack(ms).Some? && Distinct(PreOrder(ms)) && Qualifies(Unpack(ms).value, registered, fromProxy)
    requires m in ms || exists b :: b in ms && b.Batch? && m in b.msgs
    ensures Refundable(m, registered, fromProxy)
  {
    InnersOfUnpack(ms);
    if m in ms {
      ListedInUnpack(ms, m);
      ListedIsNoInner(ms, m);
    } else {
      var b :| b in ms && b.Batch? && m in b.msgs;
      BatchedInUnpack(ms, b, m);
      BatchedIsNoInner(ms, b, m);
    }
  }

  lemma OuterRefundIsPlain(ms: seq<Msg>, m: Msg, registered: set<TypeUrl>, fromProxy: Msg -> bool)
    requires Accepted(ms, registered, fromProxy) && Decoded(ms) && NoWrapper(registered)
    requires m.Refund? && ValidBasic(m) && (m in ms || exists b :: b in ms && b.Batch? && m in b.msgs)
    ensures PlainRefund(m)
  {
    if m in ms {
      ListedInUnpack(ms, m);
    } else {
      var b :| b in ms && b.Batch? && m in b.msgs;
      BatchedInUnpack(ms, b, m);
    }
    UnpackInPreOrder(ms, m);
    OuterIsRefundable(ms, m, registered, fromProxy);
  }

  /** Acceptance allows wrappers no deeper than a refund inside a batch. */
  lemma AcceptedIsTidy(ms: seq<Msg>, m: Msg, registered: set<TypeUrl>, fromProxy: Msg -> bool)
    requires Accepted(ms, registered, fromProxy) && Decoded(ms) && NoWrapper(registered) && m in ms
    ensures Tidy(m)
  {
    match m {
      case Leaf(_, _, _) =>
      case Exec(_, _, _) => assert ExecIsPlain(m);
      case Refund(_, _, _) => OuterRefundIsPlain(ms, m, registered, fromProxy);
      case Batch(_, msgs) =>
        assert BatchHasNoExec(m) && ValidBasic(m);
        forall c | c in msgs ensures c.Leaf? || PlainRefund(c) {
          if c.Refund? {
            OuterRefundIsPlain(ms, c, registered, fromProxy);
          }
        }
    }
  }

  lemma {:induction false} TidyIsShallow(ms: seq<Msg>)
    requires forall m :: m in ms ==> Tidy(m)
    ensures Shallow(ms)
    decreases Sizes(ms)
  {
    if ms != [] {
      HeadAndTail(ms);
      TidyIsShallow(ms[1..]);
      assert Tidy(ms[0]);
      if ms[0].Batch? {
        TidyIsShallow(ms[0].msgs);
      }
    }
  }

  /** After acceptance the flattened list is the whole message tree, at every depth, in order. */
  lemma AcceptedSeesEverything(ms: seq<Msg>, registered: set<TypeUrl>, fromProxy: Msg -> bool)
    requires Accepted(ms, registered, fromProxy) && Decoded(ms) && NoWrapper(registered)
    ensures Unpack(ms) == Some(PreOrder(ms))
  {
    forall m | m in ms ensures Tidy(m) {
      AcceptedIsTidy(ms, m, registered, fromProxy);
    }
    TidyIsShallow(ms);
    UnpackIsPreOrder(ms);
  }

  /** A refund anywhere in an accepted transaction means that it holds nothing but registered refunds. */
  lemma AcceptedRefundsOnly(ms: seq<Msg>, r: Msg, m: Msg, registered: set<TypeUrl>, fromProxy: Msg -> bool)
    requires Accepted(ms, registered, fromProxy) && Decoded(ms) && NoWrapper(registered)
    requires r in PreOrder(ms) && r.Refund? && m in ms
    ensures Refundable(m, registered, fromProxy)
    ensures m.Batch? ==> forall c :: c in m.msgs ==> c.Refund? && Refundable(c, registered, fromProxy)
  {
    AcceptedSeesEverything(ms, registered, fromProxy);
    OuterIsRefundable(ms, m, registered, fromProxy);
    if m.Batch? {
      AcceptedIsTidy(ms, m, registered, fromProxy);
      forall c | c in m.msgs ensures c.Refund? && Refundable(c, registered, fromProxy) {
        OuterIsRefundable(ms, c, registered, fromProxy);
      }
    }
  }

  lemma {:induction false} InSomeTree(ms: seq<Msg>, x: Msg) returns (m: Msg)
    requires x in PreOrder(ms)
    ensures m in ms && (x == m || x in PreOrder(Children(m)))
  {
    PreOrderParts(ms);
    m := ms[0];
    if x != m && x !in PreOrder(Children(m)) {
      m := InSomeTree(ms[1..], x);
    }
  }

  /** No execution, wherever it stands in an accepted transaction, reaches a role-restricted message. */
  lemma AcceptedExecIsHarmless(ms: seq<Msg>, e: Msg, x: Msg, registered: set<TypeUrl>, fromProxy: Msg -> bool)
    requires Accepted(ms, registered, fromProxy) && Decoded(ms) && NoWrapper(registered)
    requires e in PreOrder(ms) && e.Exec? && x in PreOrder(e.msgs)
    ensures x.Leaf? && x.role == Unrestricted
  {
    var m := InSomeTree(ms, e);
    AcceptedIsTidy(ms, m, registered, fromProxy);
    if e != m {
      var c := InSomeTree(Children(m), e);
      if e != c {
        var d := InSomeTree(Children(c), e);
      }
    }
    PreOrderOfFlat(e.msgs);
  }

  // Why the other rules are needed.

  lemma OneTree(m: Msg)
    ensures PreOrder([m]) == [m] + PreOrder(Children(m))
    ensures Unpack([m]) == if Opened(m).Some? then Some([m] + Opened(m).value) else None
  {
    assert [m][1..] == [];
    if Opened(m).Some? {
      assert [m] + Opened(m).value + [] == [m] + Opened(m).value;
    }
  }

  function NestedBatch(): Msg {
    Batch(1, [Batch(2, [Exec(3, [Batch(4, [Leaf(5, "/m", Restricted)])], true)])])
  }

  lemma NestedBatchLists()
    ensures PreOrder([NestedBatch()]) ==
      var b := NestedBatch().msgs[0]; var e := b.msgs[0]; [NestedBatch(), b, e, e.msgs[0], Leaf(5, "/m", Restricted)]
    ensures Unpack([NestedBatch()]) ==
      var b := NestedBatch().msgs[0]; var e := b.msgs[0]; Some([NestedBatch(), b, e, e.msgs[0]])
  {
    var b := NestedBatch().msgs[0];
    var e := b.msgs[0];
    OneTree(Leaf(5, "/m", Restricted));
    OneTree(e.msgs[0]);
    OneTree(e);
    assert Unpack([e]).value == [e, e.msgs[0]];
    OneTree(b);
    assert Unpack([b]).value == [b, e, e.msgs[0]];
    OneTree(NestedBatch());
    assert Unpack([NestedBatch()]).value == [NestedBatch(), b, e, e.msgs[0]];
  }

  /** `ValidateWrappedMsgs` alone does not do: inside two batches an execution is not looked at. */
  lemma NestedBatchHides()
    ensures var ms := [NestedBatch()];
      Wrapped(ms) && Decoded(ms) && Unpack(ms).Some? && Leaf(5, "/m", Restricted) in PreOrder(ms) && Leaf(5, "/m", Restricted) !in Unpack(ms).value
  {
    NestedBatchLists();
    NestedBatchIsWrapped(NestedBatch().msgs[0]);
    NumberedIsDecoded([NestedBatch()], PreOrder([NestedBatch()]));
  }

  lemma NestedBatchIsWrapped(b: Msg)
    requires b == NestedBatch().msgs[0]
    ensures Wrapped([NestedBatch()])
  {
    assert !b.Exec? && forall c :: c in NestedBatch().msgs ==> c == b;
  }

  lemma NumberedIsDecoded(ms: seq<Msg>, listed: seq<Msg>)
    requires PreOrder(ms) == listed && forall i :: 0 <= i < |listed| ==> listed[i].addr == i + 1 && !listed[i].Refund?
    ensures Decoded(ms)
  {
  }

  /** If refund requests were themselves registered, the skipped one would hide its payload. */
  lemma RegisteredWrapperHides(fromProxy: Msg -> bool)
    requires forall m :: fromProxy(m)
    ensures var ms := [Refund(1, REFUND_URL, Some(Refund(2, "/m", Some(Leaf(3, "/m", Unrestricted)))))];
      Accepted(ms, {REFUND_URL}, fromProxy) && Decoded(ms) && Unpack(ms).value != PreOrder(ms)
  {
    var leaf := Leaf(3, "/m", Unrestricted);
    var second := Refund(2, "/m", Some(leaf));
    var first := Refund(1, REFUND_URL, Some(second));
    OneTree(leaf);
    OneTree(second);
    OneTree(first);
    assert Unpack([first]).value == [first, second];
    RegisteredWrapperPasses(first, second, fromProxy);
  }

  lemma RegisteredWrapperPasses(first: Msg, second: Msg, fromProxy: Msg -> bool)
    requires first == Refund(1, REFUND_URL, Some(second)) && second == Refund(2, "/m", Some(Leaf(3, "/m", Unrestricted)))
    requires Unpack([first]) == Some([first, second]) && fromProxy(first)
    ensures Accepted([first], {REFUND_URL}, fromProxy)
  {
    assert first in [first, second];
    assert 2 in Inners([first, second]);
    assert ValidBasic(second);
  }
}
