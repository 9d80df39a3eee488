/** Every entry point keeps the invariant, hence every run does. */
module TransferSafety {
  import opened Wrappers
  import opened Ledger
  import opened TransferProtocol
  import opened TransferInvariant
  import opened TransferFunds
  import opened TransferSteps

  // --------------------------------------------------------- the queue

  lemma PrependKeepsSorted(x: TransferId, r: seq<TransferId>)
    requires Sorted(r) && forall i :: 0 <= i < |r| ==> x < r[i]
    ensures Sorted([x] + r)
  {
    var all := [x] + r;
    forall i, j | 0 <= i < j < |all| ensures all[i] < all[j] {
      assert all[j] == r[j - 1];
      if i > 0 {
        assert all[i] == r[i - 1];
      }
    }
  }

  lemma {:induction false} InsertKeepsSorted(q: seq<TransferId>, id: TransferId)
    requires Sorted(q)
    ensures Sorted(InsertSorted(q, id))
    decreases |q|
  {
    if q == [] || id < q[0] {
      PrependKeepsSorted(id, q);
    } else if q[0] < id {
      InsertKeepsSorted(q[1..], id);
      var r := InsertSorted(q[1..], id);
      forall i | 0 <= i < |r| ensures q[0] < r[i] {
        assert r[i] in r;
      }
      PrependKeepsSorted(q[0], r);
    }
  }

  // ------------------------------------------------- RouteIBCTransfers

  function Queued(s: State, b: Bank, item: RouteItem): State
    requires item.id in s.pending
  {
    Enqueued(s, b, item.id, item.path).(queue := InsertSorted(s.queue, item.id))
  }

  lemma RouteOneIs(s: State, item: RouteItem, b: Bank)
    requires item.id in s.pending && item.assetOk && item.id !in s.transfers
    requires Move(s.bank, Locked, IbcAccount, s.pending[item.id]) == Some(b)
    ensures RouteOne(s, item) == Done(Queued(s, b, item))
  {
  }

  lemma QueuedKeepsInv(s: State, b: Bank, item: RouteItem)
    requires Inv(s) && item.id in s.pending && Move(s.bank, Locked, IbcAccount, s.pending[item.id]) == Some(b)
    ensures item.id !in s.transfers && Inv(Queued(s, b, item))
  {
    var id, waiting := item.id, Ids(s.queue);
    var s', q := Enqueued(s, b, id, item.path), InsertSorted(s.queue, id);
    assert id !in s.transfers && Sound(s', waiting + {id}) by { EnqueueSound(s, b, id, item.path, waiting); }
    assert Ids(q) == waiting + {id};
    assert Sound(s'.(queue := q), Ids(q)) by { SoundIgnoresQueue(s', q, waiting + {id}); }
    assert Sorted(q) by { InsertKeepsSorted(s.queue, id); }
  }

  /**
    A pending transfer with a recognised asset is always enqueued: its ID is new, the
    escrow covers its coin, and the coin moves to the IBC account.
   */
  lemma RouteOneSafe(s: State, item: RouteItem)
    requires Inv(s)
    ensures var id, r := item.id, RouteOne(s, item);
      && r.Done? && Inv(r.value)
      && if id in s.pending && item.assetOk then
           var b := Move(s.bank, Locked, IbcAccount, s.pending[id]);
           b.Some? && id !in s.transfers && r.value == Queued(s, b.value, item)
         else r.value == s
  {
    if item.id in s.pending && item.assetOk {
      PendingIsFunded(s, item.id, Ids(s.queue));
      var b := Move(s.bank, Locked, IbcAccount, s.pending[item.id]).value;
      QueuedKeepsInv(s, b, item);
      RouteOneIs(s, item, b);
    }
  }

  lemma {:induction false} RouteSafe(s: State, items: seq<RouteItem>)
    requires Inv(s)
    ensures RouteIBCTransfers(s, items).Done? && Inv(RouteIBCTransfers(s, items).value)
    decreases |items|
  {
    if items != [] {
      RouteOneSafe(s, items[0]);
      RouteSafe(RouteOne(s, items[0]).value, items[1..]);
    }
  }

  // -------------------------------------------------------- EndBlocker

  /** A property of a state and the transfers that wait in the IBC account. */
  type Property = (State, set<TransferId>) -> bool

  /** `send` keeps `P`: a sent transfer stops waiting, and the queue is not touched. */
  ghost predicate SendKeeps(P: Property, send: Sender, s: State, id: TransferId, waiting: set<TransferId>) {
    P(s, waiting) && id in waiting ==>
      && send(s, id).0.queue == s.queue
      && P(send(s, id).0, if send(s, id).1 then waiting - {id} else waiting)
  }

  ghost predicate DequeueKeeps(P: Property, s: State, q: seq<TransferId>, waiting: set<TransferId>) {
    P(s, waiting) ==> P(s.(queue := q), waiting)
  }

  ghost predicate LoopKeeps(P: Property, send: Sender) {
    && (forall s, id, waiting :: SendKeeps(P, send, s, id, waiting))
    && (forall s, q, waiting :: DequeueKeeps(P, s, q, waiting))
  }

  lemma CachedSenderKeepsSound(nets: TransferId -> Net)
    ensures LoopKeeps(Sound, CachedSender(nets))
  {
    forall s, id, waiting ensures SendKeeps(Sound, CachedSender(nets), s, id, waiting) {
      if Sound(s, waiting) && id in waiting {
        WaitingIsPending(s, id, waiting);
        if CachedSender(nets)(s, id).1 {
          SendSound(s, id, nets(id), waiting);
        }
      }
    }
    forall s, q, waiting ensures DequeueKeeps(Sound, s, q, waiting) {
      if Sound(s, waiting) {
        SoundIgnoresQueue(s, q, waiting);
      }
    }
  }

  /** The first `limit` entries are off the queue `q`; the failures are among them, and only they still wait. */
  ghost predicate TookFirst(q: seq<TransferId>, limit: nat, rest: seq<TransferId>, failed: seq<TransferId>,
                            waiting: set<TransferId>, waiting': set<TransferId>)
  {
    var n := if limit < |q| then limit else |q|;
    && rest == q[n..] && Sorted(failed)
    && (forall f :: f in failed ==> f in q[..n])
    && (forall id :: id in waiting' <==> id in waiting && (id in q[..n] ==> id in failed))
  }

  lemma TookNext(q: seq<TransferId>, limit: nat, rest: seq<TransferId>, failed: seq<TransferId>, sent: bool,
                 waiting: set<TransferId>, waiting': set<TransferId>)
    requires limit > 0 && q != [] && Sorted(q)
    requires TookFirst(q[1..], limit - 1, rest, failed, if sent then waiting - {q[0]} else waiting, waiting')
    ensures TookFirst(q, limit, rest, if sent then failed else [q[0]] + failed, waiting, waiting')
  {
    var n := if limit < |q| then limit else |q|;
    assert q[..n] == [q[0]] + q[1..][..n - 1];
    QueueTail(q);
    SortedCons(q[0], failed);
  }

  /** The first loop takes the first `limit` entries off the queue; the failures are among them and still wait. */
  lemma {:induction false} SendQueuedKeeps(P: Property, s: State, limit: nat, send: Sender, waiting: set<TransferId>)
    returns (s': State, failed: seq<TransferId>, waiting': set<TransferId>)
    requires LoopKeeps(P, send) && P(s, waiting) && Sorted(s.queue)
    requires forall id :: id in s.queue ==> id in waiting
    ensures (s', failed) == SendQueued(s, limit, send)
    ensures P(s', waiting') && TookFirst(s.queue, limit, s'.queue, failed, waiting, waiting')
    decreases limit
  {
    if limit == 0 || s.queue == [] {
      s', failed, waiting' := s, [], waiting;
    } else {
      var id, rest := s.queue[0], s.queue[1..];
      QueueTail(s.queue);
      assert DequeueKeeps(P, s, rest, waiting);
      assert SendKeeps(P, send, s.(queue := rest), id, waiting);
      var (s1, sent) := send(s.(queue := rest), id);
      s', failed, waiting' := SendQueuedKeeps(P, s1, limit - 1, send, if sent then waiting - {id} else waiting);
      TookNext(s.queue, limit, s'.queue, failed, sent, waiting, waiting');
      failed := if sent then failed else [id] + failed;
    }
  }

  lemma QueueTail(q: seq<TransferId>)
    requires Sorted(q) && q != []
    ensures Ids(q) == {q[0]} + Ids(q[1..]) && Sorted(q[1..])
    ensures forall x :: x in q[1..] ==> x in q && q[0] < x
  {
    assert q == [q[0]] + q[1..];
  }

  lemma SortedCons(id: TransferId, q: seq<TransferId>)
    requires Sorted(q) && forall x :: x in q ==> id < x
    ensures Sorted([id] + q)
  {
    forall i, j | 0 <= i < j < |q| + 1 ensures ([id] + q)[i] < ([id] + q)[j] {
      assert q[j - 1] in q;
    }
  }

  /** Re-locking panics only on an unrecognised asset: the funds are there and the status is right. */
  lemma {:induction false} RelockSafe(s: State, failed: seq<TransferId>, assetOk: TransferId -> bool)
    requires Sorted(failed) && Ids(s.queue) !! Ids(failed) && Sound(s, Ids(s.queue) + Ids(failed))
    ensures RelockAll(s, failed, assetOk) == Panic <==> exists f :: f in failed && !assetOk(f)
    ensures RelockAll(s, failed, assetOk) != Error
    ensures var r := RelockAll(s, failed, assetOk);
      r.Done? ==> r.value.queue == s.queue && Sound(r.value, Ids(s.queue))
    decreases |failed|
  {
    if failed == [] {
      assert Ids(s.queue) + Ids(failed) == Ids(s.queue);
    } else {
      var id, rest := failed[0], failed[1..];
      var waiting := Ids(s.queue) + Ids(failed);
      QueueTail(failed);
      assert forall f :: f in failed <==> f == id || f in rest;
      WaitingIsPending(s, id, waiting);
      if assetOk(id) {
        var m := Move(s.bank, IbcAccount, Locked, s.transfers[id].coin);
        assert m.Some? by { RelockIsFunded(s, id, waiting); }
        var s1 := WithStatus(s, m.value, id, Failed);
        assert Sound(s1, Ids(s.queue) + Ids(rest)) by {
          RelockSound(s, m.value, id, waiting);
          assert waiting - {id} == Ids(s.queue) + Ids(rest);
        }
        assert RelockOne(s, id, assetOk(id)) == Done(s1);
        RelockSafe(s1, rest, assetOk);
      }
    }
  }

  /** The whole end-blocker: what it does to the queue and when it is rolled back. */
  lemma EndBlockerSafe(s: State, limit: nat, nets: TransferId -> Net, assetOk: TransferId -> bool)
    requires Inv(s)
    ensures var r := EndBlocker(s, limit, nets, assetOk);
      && (r == Panic <==> exists f :: f in SendQueued(s, limit, CachedSender(nets)).1 && !assetOk(f))
      && r != Error
      && (r.Done? ==> Inv(r.value) && r.value.queue == s.queue[if limit < |s.queue| then limit else |s.queue|..])
  {
    CachedSenderKeepsSound(nets);
    var s1, failed, waiting := SendQueuedKeeps(Sound, s, limit, CachedSender(nets), Ids(s.queue));
    AfterFirstLoop(s.queue, if limit < |s.queue| then limit else |s.queue|, failed);
    assert waiting == Ids(s1.queue) + Ids(failed);
    RelockSafe(s1, failed, assetOk);
  }

  lemma AfterFirstLoop(q: seq<TransferId>, n: nat, failed: seq<TransferId>)
    requires Sorted(q) && n <= |q| && forall f :: f in failed ==> f in q[..n]
    ensures Ids(q[n..]) !! Ids(failed) && Sorted(q[n..])
    ensures forall id :: id in q && (id in q[..n] ==> id in failed) <==> id in Ids(q[n..]) + Ids(failed)
  {
    assert q == q[..n] + q[n..];
    assert forall x, y :: x in q[..n] && y in q[n..] ==> x < y;
  }

  // ------------------------------------------------------- settlements

  /** What a settlement of a mapped transfer computes when nothing is missing. */
  lemma SettleTransferIs(s: State, p: PacketId, success: bool, assetOk: bool)
    requires p in s.packets && s.packets[p].sender == IbcAccount && p in s.seqIds && p !in s.seqMsgs
    requires IsPending(s.transfers, s.seqIds[p]) && s.transfers[s.seqIds[p]].coin == s.packets[p].coin
    requires s.packets[p].coin.amount <= Balance(s.bank, InFlight, s.packets[p].coin.denom)
    ensures var b := Move(s.bank, InFlight, if success then Delivered else IbcAccount, s.packets[p].coin).value;
      var m := Move(b, IbcAccount, Locked, s.packets[p].coin);
      Settle(s, p, success, assetOk)
      == if success then Done(WithStatus(Settled(s, b, p), b, s.seqIds[p], Completed))
         else if assetOk && m.Some? then Done(WithStatus(Settled(s, b, p), m.value, s.seqIds[p], Failed))
         else Error
  {
    assert s.seqMsgs - {p} == s.seqMsgs;
  }

  lemma SettleTransferSafe(s: State, p: PacketId, success: bool, assetOk: bool, waiting: set<TransferId>)
    requires Sound(s, waiting) && p in s.packets && p in s.seqIds
    ensures var r := Settle(s, p, success, assetOk);
      && (r.Done? <==> success || assetOk) && r != Panic
      && (r.Done? ==> Sound(r.value, waiting) && r.value.queue == s.queue)
  {
    MappedFacts(s, p, waiting);
    PacketIsFunded(s, p, waiting);
    SettleTransferIs(s, p, success, assetOk);
    var b := Move(s.bank, InFlight, if success then Delivered else IbcAccount, s.packets[p].coin).value;
    if success {
      CompleteSound(s, b, p, waiting);
    } else {
      RefundRelockSound(s, b, p, waiting);
    }
  }

  lemma SettleMessageIs(s: State, p: PacketId, success: bool, assetOk: bool)
    requires p in s.packets && s.packets[p].sender == IbcAccount && p !in s.seqIds && p in s.seqMsgs
    requires IsProcessing(s.messages, s.seqMsgs[p])
    requires s.packets[p].coin.amount <= Balance(s.bank, InFlight, s.packets[p].coin.denom)
    ensures var b := Move(s.bank, InFlight, if success then Delivered else IbcAccount, s.packets[p].coin).value;
      var m := Move(b, IbcAccount, Locked, s.packets[p].coin);
      Settle(s, p, success, assetOk)
      == if success then Done(MessageSettled(s, b, p, Executed))
         else if assetOk && m.Some? then Done(MessageSettled(s, m.value, p, NotExecuted))
         else Error
  {
    assert s.seqIds - {p} == s.seqIds;
  }

  lemma SettleMessageSafe(s: State, p: PacketId, success: bool, assetOk: bool, waiting: set<TransferId>)
    requires Sound(s, waiting) && p in s.packets && p in s.seqMsgs
    ensures var r := Settle(s, p, success, assetOk);
      && (r.Done? <==> success || assetOk) && r != Panic
      && (r.Done? ==> Sound(r.value, waiting) && r.value.queue == s.queue)
  {
    PacketIsFunded(s, p, waiting);
    var c := s.packets[p].coin;
    if success {
      MessageSettledSound(s, Move(s.bank, InFlight, Delivered, c).value, p, Executed, waiting);
    } else {
      var b := Move(s.bank, InFlight, IbcAccount, c).value;
      assert c.amount <= Balance(b, IbcAccount, c.denom);
      MessageSettledSound(s, Move(b, IbcAccount, Locked, c).value, p, NotExecuted, waiting);
    }
    SettleMessageIs(s, p, success, assetOk);
  }

  lemma SettleForeignIs(s: State, p: PacketId, success: bool, assetOk: bool)
    requires p in s.packets && s.packets[p].sender == Outside && p !in s.seqIds && p !in s.seqMsgs
    requires s.packets[p].coin.amount <= Balance(s.bank, InFlight, s.packets[p].coin.denom)
    ensures var b := Move(s.bank, InFlight, if success then Delivered else Outside, s.packets[p].coin).value;
      Settle(s, p, success, assetOk) == Done(Settled(s, b, p))
  {
    assert s.seqIds - {p} == s.seqIds && s.seqMsgs - {p} == s.seqMsgs;
  }

  /** Packets of other senders leave both tables alone. */
  lemma SettleForeignSafe(s: State, p: PacketId, success: bool, assetOk: bool, waiting: set<TransferId>)
    requires Sound(s, waiting) && p in s.packets && p !in s.seqIds && p !in s.seqMsgs
    ensures var r := Settle(s, p, success, assetOk);
      r.Done? && Sound(r.value, waiting) && r.value.queue == s.queue
  {
    PacketIsFunded(s, p, waiting);
    SettleForeignIs(s, p, success, assetOk);
    var to := if success then Delivered else Outside;
    ForeignSettledSound(s, Move(s.bank, InFlight, to, s.packets[p].coin).value, p, to, waiting);
  }

  /** A settlement succeeds unless the packet is gone or a coin to be re-locked is not recognised. */
  lemma SettleSafe(s: State, p: PacketId, success: bool, assetOk: bool)
    requires Inv(s)
    ensures var r := Settle(s, p, success, assetOk);
      && (r.Done? <==> p in s.packets && (success || assetOk || s.packets[p].sender == Outside))
      && r != Panic
      && (r.Done? ==> Inv(r.value) && r.value.queue == s.queue)
  {
    if p in s.packets {
      PacketIsFunded(s, p, Ids(s.queue));
      if p in s.seqIds {
        SettleTransferSafe(s, p, success, assetOk, Ids(s.queue));
      } else if p in s.seqMsgs {
        SettleMessageSafe(s, p, success, assetOk, Ids(s.queue));
      } else {
        SettleForeignSafe(s, p, success, assetOk, Ids(s.queue));
      }
    }
  }

  // ------------------------------------------------------------- retry

  /** Retrying is waking the transfer up and sending it; the order of the two writes does not matter. */
  lemma RetryIs(s: State, id: TransferId, net: Net)
    requires id in s.transfers && s.transfers[id].status == Failed
    requires s.transfers[id].coin.amount <= Balance(s.bank, Locked, s.transfers[id].coin.denom)
    ensures var s1 := WithStatus(s, Move(s.bank, Locked, IbcAccount, s.transfers[id].coin).value, id, Pending);
      var r := RetryIBCTransfer(s, id, true, true, net);
      && r == SendIBCTransfer(s1, id, s1.transfers[id], net)
      && (r.Done? <==> net == NetOk && s.transfers[id].path in s.nextSeq)
  {
    var t := s.transfers[id];
    var b := Move(s.bank, Locked, IbcAccount, t.coin).value;
    assert t.coin.amount <= Balance(b, IbcAccount, t.coin.denom);
  }

  /** A failed transfer can always be unlocked again; only the chain, the asset or the send can refuse. */
  lemma RetrySafe(s: State, id: TransferId, chainOk: bool, assetOk: bool, net: Net)
    requires Inv(s)
    ensures var r := RetryIBCTransfer(s, id, chainOk, assetOk, net);
      && (r.Done? <==> && id in s.transfers && s.transfers[id].status == Failed
                       && chainOk && assetOk && net == NetOk && s.transfers[id].path in s.nextSeq)
      && (r.Done? ==> Inv(r.value) && r.value.queue == s.queue)
  {
    if id in s.transfers && s.transfers[id].status == Failed && chainOk && assetOk {
      var waiting := Ids(s.queue);
      WakeIsFunded(s, id, waiting);
      RetryIs(s, id, net);
      if net == NetOk && s.transfers[id].path in s.nextSeq {
        WakeSendSound(s, Move(s.bank, Locked, IbcAccount, s.transfers[id].coin).value, id, net, waiting);
      }
    }
  }

  lemma WakeSendSound(s: State, b: Bank, id: TransferId, net: Net, waiting: set<TransferId>)
    requires Sound(s, waiting) && id in s.transfers && s.transfers[id].status == Failed
    requires Move(s.bank, Locked, IbcAccount, s.transfers[id].coin) == Some(b)
    requires var s1 := WithStatus(s, b, id, Pending); SendIBCTransfer(s1, id, s1.transfers[id], net).Done?
    ensures var s1 := WithStatus(s, b, id, Pending);
      Sound(SendIBCTransfer(s1, id, s1.transfers[id], net).value, waiting)
  {
    WakeSound(s, b, id, waiting);
    SendSound(WithStatus(s, b, id, Pending), id, net, waiting + {id});
    assert waiting + {id} - {id} == waiting;
  }

  // ---------------------------------------------------------- messages

  function Sent(s: State, b: Bank, p: PacketId, id: MessageId, c: Coin): State
    requires p.path in s.nextSeq
  {
    s.(bank := b, seqMsgs := s.seqMsgs[p := id], nextSeq := s.nextSeq[p.path := s.nextSeq[p.path] + 1],
       packets := s.packets[p := Packet(IbcAccount, c)])
  }

  function Unlocked(s: State, b: Bank, id: MessageId): State
    requires id in s.messages
  {
    s.(bank := b, messages := s.messages[id := s.messages[id].(status := Processing)])
  }

  lemma RoutedIs(s: State, b0: Bank, b: Bank, p: PacketId, id: MessageId)
    requires id in s.messages && p.path in s.nextSeq
    ensures Sent(Unlocked(s, b0, id), b, p, id, SentCoin(s.messages[id])) == Routed(s, b, p, id)
  {
  }

  lemma SendMessageIs(s: State, id: MessageId, path: Option<Path>, c: Coin, net: Net) returns (b: Bank, p: PacketId)
    requires SendMessage(s, id, path, c, net).Done?
    ensures Move(s.bank, IbcAccount, InFlight, c) == Some(b) && p.path in s.nextSeq && p.sequence == s.nextSeq[p.path]
    ensures SendMessage(s, id, path, c, net).value == Sent(s, b, p, id, c)
  {
    b := Move(s.bank, IbcAccount, InFlight, c).value;
    p := PacketId(path.value, s.nextSeq[path.value]);
  }

  /** What routing does once the message is known to have the coin `c`, kept in `from`. */
  lemma RouteSteps(s: State, id: MessageId, path: Option<Path>, valid: bool, assetOk: bool, net: Net, from: Place, c: Coin)
    requires from == Locked || from == Outside
    requires id in s.messages && c == SentCoin(s.messages[id]) && from == if s.messages[id].asset.Some? then Locked else Outside
    requires RouteMessage(s, id, path, valid, assetOk, net).Done?
    ensures s.messages[id].status in {Approved, NotExecuted} && Move(s.bank, from, IbcAccount, c).Some?
    ensures var s1 := Unlocked(s, Move(s.bank, from, IbcAccount, c).value, id);
      SendMessage(s1, id, path, c, net) == RouteMessage(s, id, path, valid, assetOk, net)
  {
  }

  /** A routed message has its coin moved twice and one new packet. */
  lemma RouteMessageIs(s: State, id: MessageId, path: Option<Path>, valid: bool, assetOk: bool, net: Net)
      returns (b0: Bank, b: Bank, p: PacketId)
    requires RouteMessage(s, id, path, valid, assetOk, net).Done?
    ensures id in s.messages
    ensures var m := s.messages[id];
      && Move(s.bank, if m.asset.Some? then Locked else Outside, IbcAccount, SentCoin(m)) == Some(b0)
      && Move(b0, IbcAccount, InFlight, SentCoin(m)) == Some(b)
      && m.status in {Approved, NotExecuted} && p.path in s.nextSeq && p.sequence == s.nextSeq[p.path]
      && RouteMessage(s, id, path, valid, assetOk, net).value == Routed(s, b, p, id)
  {
    var m := s.messages[id];
    var from, c := if m.asset.Some? then Locked else Outside, SentCoin(m);
    RouteSteps(s, id, path, valid, assetOk, net, from, c);
    b0 := Move(s.bank, from, IbcAccount, c).value;
    b, p := SendMessageIs(Unlocked(s, b0, id), id, path, c, net);
    RoutedIs(s, b0, b, p, id);
  }

  /** When a message is sent, but for the funds and the sequence number. */
  predicate Routable(s: State, id: MessageId, path: Option<Path>, valid: bool, assetOk: bool, net: Net) {
    && id in s.messages && s.messages[id].status in {Approved, NotExecuted} && valid
    && path.Some? && path.value in s.nextSeq && net == NetOk
    && (s.messages[id].asset.Some? ==> assetOk)
  }

  predicate Sendable(s: State, path: Option<Path>, net: Net) {
    path.Some? && path.value in s.nextSeq && net == NetOk && PacketId(path.value, s.nextSeq[path.value]) !in s.seqMsgs
  }

  lemma SendMessageDone(s: State, id: MessageId, path: Option<Path>, c: Coin, net: Net)
    requires c.amount <= Balance(s.bank, IbcAccount, c.denom)
    ensures SendMessage(s, id, path, c, net).Done? <==> Sendable(s, path, net)
  {
  }

  lemma RouteAssetDone(s: State, id: MessageId, path: Option<Path>, valid: bool, assetOk: bool, net: Net)
    requires id in s.messages && s.messages[id].asset.Some?
    ensures RouteMessage(s, id, path, valid, assetOk, net).Done? <==>
      && s.messages[id].status in {Approved, NotExecuted} && valid && assetOk && Sendable(s, path, net)
      && Move(s.bank, Locked, IbcAccount, s.messages[id].asset.value).Some?
  {
    var m := s.messages[id];
    var s0 := s.(messages := s.messages[id := m.(status := Processing)]);
    var s1 := MoveCoin(s0, Locked, IbcAccount, m.asset.value);
    if s1.Done? {
      SendMessageDone(s1.value, id, path, m.asset.value, net);
    }
  }

  lemma RouteDustDone(s: State, id: MessageId, path: Option<Path>, valid: bool, assetOk: bool, net: Net)
    requires id in s.messages && s.messages[id].asset.None?
    ensures RouteMessage(s, id, path, valid, assetOk, net).Done? <==>
      && s.messages[id].status in {Approved, NotExecuted} && valid && Sendable(s, path, net)
      && Balance(s.bank, Outside, BOND_DENOM) >= 1
  {
    var s0 := s.(messages := s.messages[id := s.messages[id].(status := Processing)]);
    var s1 := MoveCoin(s0, Outside, IbcAccount, DUST);
    if s1.Done? {
      SendMessageDone(s1.value, id, path, DUST, net);
    }
  }

  lemma RouteMessageExactly(s: State, id: MessageId, path: Option<Path>, valid: bool, assetOk: bool, net: Net)
    requires Inv(s)
    ensures RouteMessage(s, id, path, valid, assetOk, net).Done?
      <==> Routable(s, id, path, valid, assetOk, net)
           && (s.messages[id].asset.None? ==> Balance(s.bank, Outside, BOND_DENOM) >= 1)
  {
    if path.Some? && path.value in s.nextSeq {
      FreshPacket(s, PacketId(path.value, s.nextSeq[path.value]), Ids(s.queue));
    }
    if id in s.messages {
      if s.messages[id].asset.None? {
        RouteDustDone(s, id, path, valid, assetOk, net);
      } else {
        RouteAssetDone(s, id, path, valid, assetOk, net);
        if s.messages[id].status in {Approved, NotExecuted} {
          UnroutedIsFunded(s, id, Ids(s.queue));
        }
      }
    }
  }

  /**
    Routing a message succeeds exactly if the message may be sent, its path is open, the
    send works, and either its asset is recognised, which the escrow then covers, or there
    is dust to send.
   */
  lemma RouteMessageSafe(s: State, id: MessageId, path: Option<Path>, valid: bool, assetOk: bool, net: Net)
    requires Inv(s)
    ensures var r := RouteMessage(s, id, path, valid, assetOk, net);
      && (r.Done? <==> Routable(s, id, path, valid, assetOk, net)
                       && (s.messages[id].asset.None? ==> Balance(s.bank, Outside, BOND_DENOM) >= 1))
      && (r.Done? ==> Inv(r.value) && r.value.queue == s.queue)
  {
    RouteMessageExactly(s, id, path, valid, assetOk, net);
    if RouteMessage(s, id, path, valid, assetOk, net).Done? {
      RouteMessageKeepsInv(s, id, path, valid, assetOk, net);
    }
  }

  lemma RouteMessageKeepsInv(s: State, id: MessageId, path: Option<Path>, valid: bool, assetOk: bool, net: Net)
    requires Inv(s) && RouteMessage(s, id, path, valid, assetOk, net).Done?
    ensures var r := RouteMessage(s, id, path, valid, assetOk, net).value; Inv(r) && r.queue == s.queue
  {
    var b0, b, p := RouteMessageIs(s, id, path, valid, assetOk, net);
    RouteMessageSound(s, b0, b, p, id, Ids(s.queue));
  }

  function FeeOf(memo: Memo): int {
    if memo.fee.Some? && memo.fee.value.amount.Some? then memo.fee.value.amount.value else 0
  }

  /** The rest of an incoming coin went to the escrow, or stayed in the IBC account. */
  ghost predicate Kept(b: Bank, b': Bank, rest: Coin, lock: bool) {
    && (forall d :: Balance(b', IbcAccount, d) == Balance(b, IbcAccount, d) + AmountIf(!lock, rest, d))
    && (forall d :: Balance(b', Locked, d) == Balance(b, Locked, d) + AmountIf(lock, rest, d))
    && (forall d :: Balance(b', InFlight, d) == Balance(b, InFlight, d))
    && (forall d :: Balance(b', Delivered, d) == Balance(b, Delivered, d))
  }

  lemma ReceiveMoves(b: Bank, token: Coin, fee: Coin, rest: Coin, lock: bool, b1: Bank, b2: Bank, b3: Bank)
    requires fee.denom == rest.denom == token.denom && token.amount == fee.amount + rest.amount
    requires Move(b, Outside, IbcAccount, token) == Some(b1)
    requires Move(b1, IbcAccount, Outside, fee) == Some(b2) || (fee.amount == 0 && b2 == b1)
    requires if lock then Move(b2, IbcAccount, Locked, rest) == Some(b3) else b3 == b2
    ensures Kept(b, b3, rest, lock)
  {
    forall d
      ensures Balance(b2, IbcAccount, d) == Balance(b, IbcAccount, d) + AmountIf(true, rest, d)
      ensures Balance(b2, Locked, d) == Balance(b, Locked, d) && Balance(b2, InFlight, d) == Balance(b, InFlight, d)
      ensures Balance(b2, Delivered, d) == Balance(b, Delivered, d)
    {
    }
  }

  /** What is left of the coin after the fee, and the message made from it. */
  function RestOf(token: Coin, memo: Memo): Coin
    requires 0 <= FeeOf(memo) <= token.amount
  {
    Coin(token.denom, token.amount - FeeOf(memo))
  }

  lemma DeductFeeIs(s: State, token: Coin, memo: Memo)
    requires memo.fee.Some? ==> ValidateFee(token, memo.kind, memo.fee.value, memo.feeDenomOk)
    ensures 0 <= FeeOf(memo) <= token.amount
    ensures var r := DeductFee(s, token, memo.fee);
      r.Done? ==>
        && r.value == (s.(bank := r.value.0.bank), RestOf(token, memo))
        && (Move(s.bank, IbcAccount, Outside, Coin(token.denom, FeeOf(memo))) == Some(r.value.0.bank)
            || (FeeOf(memo) == 0 && r.value.0.bank == s.bank))
  {
  }

  lemma StoreMessageIs(s: State, rest: Coin, lock: bool, id: MessageId)
    requires StoreMessage(s, rest, lock, id).Done?
    ensures var r := StoreMessage(s, rest, lock, id).value;
      && id !in s.messages
      && r == s.(bank := r.bank, messages := s.messages[id := Message(if lock then Some(rest) else None, Approved)])
      && (if lock then Move(s.bank, IbcAccount, Locked, rest) == Some(r.bank) else r.bank == s.bank)
  {
  }

  /**
    A handled packet never costs the IBC account: the fee is at most what the
    packet brought in, and the rest is locked for the new message or stays.
   */
  lemma ReceiveKeeps(s: State, token: Coin, assetOk: bool, memo: Memo)
    requires Receive(s, token, true, assetOk, memo).Done?
    ensures 0 <= FeeOf(memo) <= token.amount && memo.id !in s.messages
    ensures var r := Receive(s, token, true, assetOk, memo).value;
      var lock := memo.kind == GeneralMessageWithToken;
      var asset := if lock then Some(RestOf(token, memo)) else None;
      && r == s.(bank := r.bank, messages := s.messages[memo.id := Message(asset, Approved)])
      && Kept(s.bank, r.bank, RestOf(token, memo), lock)
  {
    var b1 := Move(s.bank, Outside, IbcAccount, token).value;
    var s1 := s.(bank := b1);
    DeductFeeIs(s1, token, memo);
    var s2 := DeductFee(s1, token, memo.fee).value.0;
    var lock := memo.kind == GeneralMessageWithToken;
    assert Receive(s, token, true, assetOk, memo) == StoreMessage(s2, RestOf(token, memo), lock, memo.id);
    StoreMessageIs(s2, RestOf(token, memo), lock, memo.id);
    ReceiveMoves(s.bank, token, Coin(token.denom, FeeOf(memo)), RestOf(token, memo), lock,
                 b1, s2.bank, StoreMessage(s2, RestOf(token, memo), lock, memo.id).value.bank);
  }

  lemma ReceiveSafe(s: State, token: Coin, toIbc: bool, assetOk: bool, memo: Memo)
    requires Inv(s)
    ensures var r := Receive(s, token, toIbc, assetOk, memo);
      r.Done? ==> Inv(r.value) && r.value.queue == s.queue
  {
    var r := Receive(s, token, toIbc, assetOk, memo);
    if r.Done? && toIbc {
      ReceiveKeeps(s, token, assetOk, memo);
      NewMessageSound(s, r.value.bank, memo.id, r.value.messages[memo.id].asset, Ids(s.queue));
    }
  }

  lemma NewMessageSafe(s: State, id: MessageId, asset: Option<Coin>)
    requires Inv(s)
    ensures var r := NexusNewMessage(s, id, asset);
      r.Done? ==> Inv(r.value) && r.value.queue == s.queue
  {
    var r := NexusNewMessage(s, id, asset);
    if r.Done? {
      NewMessageSound(s, r.value.bank, id, asset, Ids(s.queue));
    }
  }
}
