/** Messages that wrap messages, and the flattening that the ante handlers work on. */
module MessageTree {
  import opened Wrappers

  type TypeUrl = string

  /** Who may send a message; the role of a message without a descriptor cannot be read. */
  datatype Role = Unrestricted | Restricted | Unreadable

  /**
    A decoded transaction message. `addr` is the pointer of the decoded value. An
    authz execution may hold payloads that are not messages (`readable` is false);
    a refund request whose payload is not a refundable message has no inner message.
   */
  datatype Msg =
    | Leaf(addr: nat, url: TypeUrl, role: Role)
    | Batch(addr: nat, msgs: seq<Msg>)
    | Exec(addr: nat, msgs: seq<Msg>, readable: bool)
    | Refund(addr: nat, innerUrl: TypeUrl, inner: Option<Msg>)

  function Children(m: Msg): seq<Msg> {
    match m
    case Leaf(_, _, _) => []
    case Batch(_, msgs) => msgs
    case Exec(_, msgs, _) => msgs
    case Refund(_, _, inner) => if inner.Some? then [inner.value] else []
  }

  function Size(m: Msg): nat
    decreases m, 0
  {
    match m
    case Leaf(_, _, _) => 1
    case Batch(_, msgs) => 1 + Sizes(msgs)
    case Exec(_, msgs, _) => 1 + Sizes(msgs)
    case Refund(_, _, inner) => if inner.Some? then 1 + Size(inner.value) else 1
  }

  function Sizes(ms: seq<Msg>): nat
    decreases ms
  {
    if ms == [] then 0 else Size(ms[0]) + Sizes(ms[1..])
  }

  lemma ChildrenAreSmaller(m: Msg)
    ensures Sizes(Children(m)) < Size(m)
  {
    if m.Refund? && m.inner.Some? {
      assert Sizes([m.inner.value]) == Size(m.inner.value) + Sizes([]);
    }
  }

  lemma HeadAndTail(ms: seq<Msg>)
    requires ms != []
    ensures Sizes(Children(ms[0])) < Sizes(ms) && Sizes(ms[1..]) < Sizes(ms)
  {
    ChildrenAreSmaller(ms[0]);
  }

  /** Every message at every depth, each wrapper before what it wraps. */
  function PreOrder(ms: seq<Msg>): seq<Msg>
    decreases Sizes(ms)
  {
    if ms == [] then []
    else
      HeadAndTail(ms);
      [ms[0]] + PreOrder(Children(ms[0])) + PreOrder(ms[1..])
  }

  /** What `unpackMsgs` puts after one message: batches in full, executions and refunds one level. */
  function Opened(m: Msg): Option<seq<Msg>>
    decreases Size(m), 0
  {
    match m
    case Leaf(_, _, _) => Some([])
    case Batch(_, msgs) => Unpack(msgs)
    case Exec(_, msgs, readable) => if readable then Some(msgs) else None
    case Refund(_, _, _) => Some(Children(m))
  }

  function Unpack(ms: seq<Msg>): Option<seq<Msg>>
    decreases Sizes(ms), 1
  {
    if ms == [] then Some([])
    else
      HeadAndTail(ms);
      var first := Opened(ms[0]);
      var rest := Unpack(ms[1..]);
      if first.None? || rest.None? then None else Some([ms[0]] + first.value + rest.value)
  }

  /** No message inside an execution or a refund wraps anything. */
  ghost predicate Shallow(ms: seq<Msg>)
    decreases Sizes(ms)
  {
    if ms == [] then true
    else
      HeadAndTail(ms);
      (if ms[0].Batch? then Shallow(ms[0].msgs) else Flat(Children(ms[0]))) && Shallow(ms[1..])
  }

  ghost predicate Flat(ms: seq<Msg>) {
    forall m :: m in ms ==> Children(m) == []
  }

  lemma {:induction false} PreOrderOfFlat(ms: seq<Msg>)
    ensures |PreOrder(ms)| >= |ms|
    ensures |PreOrder(ms)| == |ms| ==> Flat(ms)
    ensures Flat(ms) ==> PreOrder(ms) == ms
  {
    if ms != [] {
      PreOrderOfFlat(ms[1..]);
      assert ms == [ms[0]] + ms[1..];
      if Children(ms[0]) != [] {
        assert |PreOrder(Children(ms[0]))| >= 1;
      }
    }
  }

  lemma {:induction false} OpenedShort(m: Msg)
    requires Opened(m).Some?
    ensures var o, p := Opened(m).value, PreOrder(Children(m));
      |o| <= |p| && (o == p <==> if m.Batch? then Shallow(m.msgs) else Flat(Children(m))) && (o != p ==> |o| < |p|)
    decreases Size(m), 0
  {
    if m.Batch? {
      UnpackShort(m.msgs);
    } else {
      PreOrderOfFlat(Children(m));
    }
  }

  lemma {:induction false} UnpackShort(ms: seq<Msg>)
    requires Unpack(ms).Some?
    ensures var u, p := Unpack(ms).value, PreOrder(ms);
      |u| <= |p| && (u == p <==> Shallow(ms)) && (u != p ==> |u| < |p|)
    decreases Sizes(ms), 1
  {
    if ms != [] {
      HeadAndTail(ms);
      OpenedShort(ms[0]);
      UnpackShort(ms[1..]);
    }
  }

  /** The flattened list misses a message exactly when an execution or refund hides a wrapper. */
  lemma UnpackIsPreOrder(ms: seq<Msg>)
    requires Unpack(ms).Some?
    ensures Unpack(ms).value == PreOrder(ms) <==> Shallow(ms)
    ensures !Shallow(ms) ==> |Unpack(ms).value| < |PreOrder(ms)|
  {
    UnpackShort(ms);
  }

  function Prepend(before: seq<Msg>, rest: Option<seq<Msg>>): Option<seq<Msg>> {
    if rest.Some? then Some(before + rest.value) else None
  }

  lemma UnpackStep(ms: seq<Msg>, i: nat, before: seq<Msg>)
    requires i < |ms|
    ensures Sizes(Children(ms[i])) < Sizes(ms[i..]) && Sizes(ms[i + 1..]) < Sizes(ms[i..])
    ensures Prepend(before, Unpack(ms[i..])) ==
      if Opened(ms[i]).None? then None else Prepend(before + [ms[i]] + Opened(ms[i]).value, Unpack(ms[i + 1..]))
  {
    assert ms[i..][0] == ms[i] && ms[i..][1..] == ms[i + 1..];
    HeadAndTail(ms[i..]);
    var first, rest := Opened(ms[i]), Unpack(ms[i + 1..]);
    if first.Some? && rest.Some? {
      assert before + ([ms[i]] + first.value + rest.value) == before + [ms[i]] + first.value + rest.value;
    }
  }

  /** `unpackMsgs`: one pass over the list, recursing into batches. */
  method UnpackMsgs(ms: seq<Msg>) returns (r: Option<seq<Msg>>)
    ensures r == Unpack(ms)
    ensures r.Some? ==> (r.value == PreOrder(ms) <==> Shallow(ms))
    decreases Sizes(ms)
  {
    var unpacked: seq<Msg> := [];
    var i := 0;
    assert ms[0..] == ms;
    assert Unpack(ms).Some? ==> [] + Unpack(ms).value == Unpack(ms).value;
    while i < |ms|
      invariant i <= |ms| && Sizes(ms[i..]) <= Sizes(ms)
      invariant Unpack(ms) == Prepend(unpacked, Unpack(ms[i..]))
    {
      var m := ms[i];
      UnpackStep(ms, i, unpacked);
      unpacked := unpacked + [m];
      assert unpacked + [] == unpacked;
      match m {
        case Batch(_, msgs) =>
          var inner := UnpackMsgs(msgs);
          if inner.None? {
            return None;
          }
          unpacked := unpacked + inner.value;
        case Exec(_, msgs, readable) =>
          if !readable {
            return None;
          }
          unpacked := unpacked + msgs;
        case Refund(_, _, inner) =>
          if inner.Some? {
            unpacked := unpacked + [inner.value];
          }
        case Leaf(_, _, _) =>
      }
      i := i + 1;
    }
    assert ms[i..] == [] && unpacked + [] == unpacked;
    UnpackIsPreOrder(ms);
    return Some(unpacked);
  }
}
