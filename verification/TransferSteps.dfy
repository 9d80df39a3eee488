/**
  The moves the protocol is made of, each with its place in the life of a
  transfer or a message: new -> waiting -> sent -> completed, sent -> waiting,
  waiting -> failed, failed -> waiting. For every move one lemma about the links
  between the tables and one about the funds.
 */
module TransferSteps {
  import opened Wrappers
  import opened Ledger
  import opened TransferProtocol
  import opened TransferInvariant
  import opened TransferLinksProofs
  import opened TransferFunds

  // -------------------------------------------- new -> waiting (enqueue)

  function Enqueued(s: State, b: Bank, id: TransferId, path: Path): State
    requires id in s.pending
  {
    s.(bank := b, pending := s.pending - {id}, transfers := s.transfers[id := Transfer(s.pending[id], path, Pending)])
  }

  lemma EnqueueRefs(s: State, b: Bank, id: TransferId, path: Path, waiting: set<TransferId>)
    requires Refs(s, waiting) && id in s.pending
    ensures Refs(Enqueued(s, b, id, path), waiting + {id})
  {
    LinkWait(s.transfers, s.seqIds, s.packets, waiting, id, Transfer(s.pending[id], path, Pending));
  }

  lemma EnqueueFunds(s: State, b: Bank, id: TransferId, path: Path, waiting: set<TransferId>)
    requires Funds(s, waiting) && id in s.pending && id !in s.transfers && id !in waiting
    requires Move(s.bank, Locked, IbcAccount, s.pending[id]) == Some(b)
    ensures Funds(Enqueued(s, b, id, path), waiting + {id})
  {
    var s' := Enqueued(s, b, id, path);
    forall d ensures FundsOf(s', waiting + {id}, d) {
      assert FundsOf(s, waiting, d);
      PendingTotals(s.pending, id, d);
      StatusTotals(s.transfers, id, s'.transfers[id], waiting, Failed, d);
      StatusTotals(s.transfers, id, s'.transfers[id], waiting, Completed, d);
      WaitingTotals(s'.transfers, waiting, id, d);
    }
  }

  lemma EnqueueSound(s: State, b: Bank, id: TransferId, path: Path, waiting: set<TransferId>)
    requires Sound(s, waiting) && id in s.pending
    requires Move(s.bank, Locked, IbcAccount, s.pending[id]) == Some(b)
    ensures id !in s.transfers && Sound(Enqueued(s, b, id, path), waiting + {id})
  {
    EnqueueRefs(s, b, id, path, waiting);
    assert id !in waiting by { assert id in waiting ==> IsPending(s.transfers, id); }
    EnqueueFunds(s, b, id, path, waiting);
  }

  lemma WaitingIsPending(s: State, id: TransferId, waiting: set<TransferId>)
    requires Sound(s, waiting) && id in waiting
    ensures IsPending(s.transfers, id)
  {
  }

  // -------------------------------------------------- waiting -> sent

  lemma SendRefs(s: State, id: TransferId, net: Net, waiting: set<TransferId>)
    requires Refs(s, waiting) && id in waiting
    requires SendIBCTransfer(s, id, s.transfers[id], net).Done?
    ensures Refs(SendIBCTransfer(s, id, s.transfers[id], net).value, waiting - {id})
  {
    var t := s.transfers[id];
    var p := PacketId(t.path, s.nextSeq[t.path]);
    FreshPacket(s, p, waiting);
    LinkSend(s.transfers, s.seqIds, s.packets, waiting, id, p);
    MessageLinkOtherPackets(s.messages, s.seqMsgs, s.packets, s.packets[p := Packet(IbcAccount, t.coin)]);
  }

  /** The next sequence of a channel is in none of the tables. */
  lemma FreshPacket(s: State, p: PacketId, waiting: set<TransferId>)
    requires Refs(s, waiting) && p.path in s.nextSeq && p.sequence == s.nextSeq[p.path]
    ensures p !in s.packets && p !in s.seqIds && p !in s.seqMsgs
  {
    assert p in s.seqIds ==> Carries(s.seqIds, p, s.seqIds[p]);
    assert p in s.seqMsgs ==> CarriesMessage(s.seqMsgs, p, s.seqMsgs[p]);
  }

  lemma SendFunds(s: State, id: TransferId, net: Net, waiting: set<TransferId>)
    requires Funds(s, waiting) && id in waiting && id in s.transfers
    requires SendIBCTransfer(s, id, s.transfers[id], net).Done?
    requires PacketId(s.transfers[id].path, s.nextSeq[s.transfers[id].path]) !in s.packets
    ensures Funds(SendIBCTransfer(s, id, s.transfers[id], net).value, waiting - {id})
  {
    var t := s.transfers[id];
    var s' := SendIBCTransfer(s, id, t, net).value;
    assert (waiting - {id}) + {id} == waiting;
    forall d ensures FundsOf(s', waiting - {id}, d) {
      assert FundsOf(s, waiting, d);
      WaitingTotals(s.transfers, waiting - {id}, id, d);
      PacketTotals(s.packets, PacketId(t.path, s.nextSeq[t.path]), Packet(IbcAccount, t.coin), d);
    }
  }

  lemma SendSound(s: State, id: TransferId, net: Net, waiting: set<TransferId>)
    requires Sound(s, waiting) && id in waiting
    requires SendIBCTransfer(s, id, s.transfers[id], net).Done?
    ensures Sound(SendIBCTransfer(s, id, s.transfers[id], net).value, waiting - {id})
  {
    SendRefs(s, id, net, waiting);
    FreshPacket(s, PacketId(s.transfers[id].path, s.nextSeq[s.transfers[id].path]), waiting);
    SendFunds(s, id, net, waiting);
  }

  // ---------------------------- waiting -> failed, failed -> waiting

  function WithStatus(s: State, b: Bank, id: TransferId, to: Status): State
    requires id in s.transfers
  {
    s.(bank := b, transfers := s.transfers[id := s.transfers[id].(status := to)])
  }

  lemma RelockRefs(s: State, b: Bank, id: TransferId, waiting: set<TransferId>)
    requires Refs(s, waiting) && id in waiting
    ensures id in s.transfers && Refs(WithStatus(s, b, id, Failed), waiting - {id})
  {
    LinkGiveUp(s.transfers, s.seqIds, s.packets, waiting, id, s.transfers[id].(status := Failed));
  }

  lemma RelockFunds(s: State, b: Bank, id: TransferId, waiting: set<TransferId>)
    requires Funds(s, waiting) && id in waiting && IsPending(s.transfers, id)
    requires Move(s.bank, IbcAccount, Locked, s.transfers[id].coin) == Some(b)
    ensures Funds(WithStatus(s, b, id, Failed), waiting - {id})
  {
    var s' := WithStatus(s, b, id, Failed);
    assert (waiting - {id}) + {id} == waiting;
    forall d ensures FundsOf(s', waiting - {id}, d) {
      assert FundsOf(s, waiting, d);
      StatusTotals(s.transfers, id, s'.transfers[id], waiting - {id}, Failed, d);
      StatusTotals(s.transfers, id, s'.transfers[id], waiting - {id}, Completed, d);
      WaitingTotals(s.transfers, waiting - {id}, id, d);
    }
  }

  lemma RelockSound(s: State, b: Bank, id: TransferId, waiting: set<TransferId>)
    requires Sound(s, waiting) && id in waiting
    requires Move(s.bank, IbcAccount, Locked, s.transfers[id].coin) == Some(b)
    ensures Sound(WithStatus(s, b, id, Failed), waiting - {id})
  {
    RelockRefs(s, b, id, waiting);
    RelockFunds(s, b, id, waiting);
  }

  /** The IBC account holds the coins of every waiting transfer. */
  lemma RelockIsFunded(s: State, id: TransferId, waiting: set<TransferId>)
    requires Funds(s, waiting) && id in waiting && id in s.transfers
    ensures Move(s.bank, IbcAccount, Locked, s.transfers[id].coin).Some?
  {
    assert FundsOf(s, waiting, s.transfers[id].coin.denom);
    TotalAtLeast(WaitingCoins(s.transfers, waiting), id);
  }

  lemma WakeRefs(s: State, b: Bank, id: TransferId, waiting: set<TransferId>)
    requires Refs(s, waiting) && id in s.transfers && s.transfers[id].status == Failed
    ensures id !in waiting && Refs(WithStatus(s, b, id, Pending), waiting + {id})
  {
    LinkWait(s.transfers, s.seqIds, s.packets, waiting, id, s.transfers[id].(status := Pending));
  }

  lemma WakeFunds(s: State, b: Bank, id: TransferId, waiting: set<TransferId>)
    requires Funds(s, waiting) && id !in waiting && id in s.transfers && s.transfers[id].status == Failed
    requires Move(s.bank, Locked, IbcAccount, s.transfers[id].coin) == Some(b)
    ensures Funds(WithStatus(s, b, id, Pending), waiting + {id})
  {
    var s' := WithStatus(s, b, id, Pending);
    forall d ensures FundsOf(s', waiting + {id}, d) {
      assert FundsOf(s, waiting, d);
      StatusTotals(s.transfers, id, s'.transfers[id], waiting, Failed, d);
      StatusTotals(s.transfers, id, s'.transfers[id], waiting, Completed, d);
      WaitingTotals(s'.transfers, waiting, id, d);
    }
  }

  lemma WakeSound(s: State, b: Bank, id: TransferId, waiting: set<TransferId>)
    requires Sound(s, waiting) && id in s.transfers && s.transfers[id].status == Failed
    requires Move(s.bank, Locked, IbcAccount, s.transfers[id].coin) == Some(b)
    ensures id !in waiting && Sound(WithStatus(s, b, id, Pending), waiting + {id})
  {
    WakeRefs(s, b, id, waiting);
    WakeFunds(s, b, id, waiting);
  }

  /** The escrow holds the coins of every failed transfer. */
  lemma WakeIsFunded(s: State, id: TransferId, waiting: set<TransferId>)
    requires Funds(s, waiting) && id in s.transfers && s.transfers[id].status == Failed
    ensures Move(s.bank, Locked, IbcAccount, s.transfers[id].coin).Some?
  {
    assert FundsOf(s, waiting, s.transfers[id].coin.denom);
    TotalAtLeast(CoinsWith(s.transfers, Failed), id);
  }

  // ------------------------------- sent -> waiting, sent -> completed

  function Settled(s: State, b: Bank, p: PacketId): State {
    s.(bank := b, seqIds := s.seqIds - {p}, seqMsgs := s.seqMsgs - {p}, packets := s.packets - {p})
  }

  lemma RefundRefs(s: State, b: Bank, p: PacketId, waiting: set<TransferId>)
    requires Refs(s, waiting) && p in s.seqIds
    ensures p in s.packets && s.seqIds[p] !in waiting
    ensures IsPending(s.transfers, s.seqIds[p])
    ensures s.packets[p] == Packet(IbcAccount, s.transfers[s.seqIds[p]].coin)
    ensures Refs(Settled(s, b, p), waiting + {s.seqIds[p]})
  {
    var id := s.seqIds[p];
    assert Carries(s.seqIds, p, id);
    LinkSettle(s.transfers, s.seqIds, s.packets, waiting, p, s.transfers[id]);
    assert s.transfers[id := s.transfers[id]] == s.transfers;
    assert s.seqMsgs - {p} == s.seqMsgs;
    MessageLinkOtherPackets(s.messages, s.seqMsgs, s.packets, s.packets - {p});
  }

  lemma RefundFunds(s: State, b: Bank, p: PacketId, id: TransferId, waiting: set<TransferId>)
    requires Funds(s, waiting) && p in s.packets && id in s.transfers && id !in waiting
    requires s.packets[p].coin == s.transfers[id].coin
    requires Move(s.bank, InFlight, IbcAccount, s.packets[p].coin) == Some(b)
    ensures Funds(Settled(s, b, p), waiting + {id})
  {
    forall d ensures FundsOf(Settled(s, b, p), waiting + {id}, d) {
      assert FundsOf(s, waiting, d);
      WaitingTotals(s.transfers, waiting, id, d);
      SettledTotals(s.packets, p, d);
    }
  }

  lemma CompleteRefs(s: State, b: Bank, p: PacketId, waiting: set<TransferId>)
    requires Refs(s, waiting) && p in s.seqIds
    ensures p in s.packets && IsPending(s.transfers, s.seqIds[p])
    ensures s.packets[p] == Packet(IbcAccount, s.transfers[s.seqIds[p]].coin)
    ensures Refs(WithStatus(Settled(s, b, p), b, s.seqIds[p], Completed), waiting)
  {
    var id := s.seqIds[p];
    assert Carries(s.seqIds, p, id);
    LinkSettle(s.transfers, s.seqIds, s.packets, waiting, p, s.transfers[id].(status := Completed));
    assert s.seqMsgs - {p} == s.seqMsgs;
    MessageLinkOtherPackets(s.messages, s.seqMsgs, s.packets, s.packets - {p});
  }

  lemma CompleteFunds(s: State, b: Bank, p: PacketId, id: TransferId, waiting: set<TransferId>)
    requires Funds(s, waiting) && p in s.packets && IsPending(s.transfers, id)
    requires s.packets[p].coin == s.transfers[id].coin
    requires Move(s.bank, InFlight, Delivered, s.packets[p].coin) == Some(b)
    ensures Funds(WithStatus(Settled(s, b, p), b, id, Completed), waiting)
  {
    var s' := WithStatus(Settled(s, b, p), b, id, Completed);
    forall d ensures FundsOf(s', waiting, d) {
      assert FundsOf(s, waiting, d);
      StatusTotals(s.transfers, id, s'.transfers[id], waiting, Failed, d);
      StatusTotals(s.transfers, id, s'.transfers[id], waiting, Completed, d);
      SettledTotals(s.packets, p, d);
    }
  }

  /** Coins of an unsettled packet are in flight. */
  lemma PacketIsFunded(s: State, p: PacketId, waiting: set<TransferId>)
    requires Sound(s, waiting) && p in s.packets
    ensures s.packets[p].coin.amount <= Balance(s.bank, InFlight, s.packets[p].coin.denom)
    ensures s.packets[p].sender == IbcAccount || s.packets[p].sender == Outside
    ensures s.packets[p].sender == IbcAccount <==> p in s.seqIds || p in s.seqMsgs
  {
    assert FundsOf(s, waiting, s.packets[p].coin.denom);
    TotalAtLeast(PacketCoins(s.packets), p);
  }

  lemma RefundSound(s: State, b: Bank, p: PacketId, waiting: set<TransferId>)
    requires Sound(s, waiting) && p in s.seqIds && p in s.packets
    requires Move(s.bank, InFlight, IbcAccount, s.packets[p].coin) == Some(b)
    ensures IsPending(s.transfers, s.seqIds[p]) && s.seqIds[p] !in waiting
    ensures Sound(Settled(s, b, p), waiting + {s.seqIds[p]})
  {
    RefundRefs(s, b, p, waiting);
    RefundFunds(s, b, p, s.seqIds[p], waiting);
  }

  /** sent -> waiting -> failed: the refund is there to be locked. */
  lemma RefundRelockSound(s: State, b: Bank, p: PacketId, waiting: set<TransferId>)
    requires Sound(s, waiting) && p in s.seqIds && p in s.packets
    requires Move(s.bank, InFlight, IbcAccount, s.packets[p].coin) == Some(b)
    ensures IsPending(s.transfers, s.seqIds[p])
    ensures var m := Move(b, IbcAccount, Locked, s.transfers[s.seqIds[p]].coin);
      m.Some? && Sound(WithStatus(Settled(s, b, p), m.value, s.seqIds[p], Failed), waiting)
  {
    var id, s1 := s.seqIds[p], Settled(s, b, p);
    RefundSound(s, b, p, waiting);
    RelockIsFunded(s1, id, waiting + {id});
    RelockSound(s1, Move(b, IbcAccount, Locked, s.transfers[id].coin).value, id, waiting + {id});
    assert waiting + {id} - {id} == waiting;
  }

  lemma MappedFacts(s: State, p: PacketId, waiting: set<TransferId>)
    requires Sound(s, waiting) && p in s.seqIds
    ensures p !in s.seqMsgs && p in s.packets && IsPending(s.transfers, s.seqIds[p])
    ensures s.packets[p] == Packet(IbcAccount, s.transfers[s.seqIds[p]].coin)
  {
    assert Carries(s.seqIds, p, s.seqIds[p]);
  }

  lemma CompleteSound(s: State, b: Bank, p: PacketId, waiting: set<TransferId>)
    requires Sound(s, waiting) && p in s.seqIds && p in s.packets
    requires Move(s.bank, InFlight, Delivered, s.packets[p].coin) == Some(b)
    ensures IsPending(s.transfers, s.seqIds[p])
    ensures Sound(WithStatus(Settled(s, b, p), b, s.seqIds[p], Completed), waiting)
  {
    CompleteRefs(s, b, p, waiting);
    CompleteFunds(s, b, p, s.seqIds[p], waiting);
  }

  // ------------------------------------- packets of other senders

  lemma ForeignRefs(s: State, b: Bank, p: PacketId, waiting: set<TransferId>)
    requires Refs(s, waiting) && p !in s.seqIds && p !in s.seqMsgs
    ensures Refs(Settled(s, b, p), waiting)
  {
    assert s.seqIds - {p} == s.seqIds && s.seqMsgs - {p} == s.seqMsgs;
    LinkOtherPackets(s.transfers, s.seqIds, s.packets, s.packets - {p}, waiting);
    MessageLinkOtherPackets(s.messages, s.seqMsgs, s.packets, s.packets - {p});
  }

  lemma ForeignFunds(s: State, b: Bank, p: PacketId, to: Place, waiting: set<TransferId>)
    requires Funds(s, waiting) && p in s.packets && (to == Outside || to == Delivered)
    requires Move(s.bank, InFlight, to, s.packets[p].coin) == Some(b)
    ensures Funds(Settled(s, b, p), waiting)
  {
    forall d ensures FundsOf(Settled(s, b, p), waiting, d) {
      assert FundsOf(s, waiting, d);
      SettledTotals(s.packets, p, d);
    }
  }

  lemma ForeignSettledSound(s: State, b: Bank, p: PacketId, to: Place, waiting: set<TransferId>)
    requires Sound(s, waiting) && p in s.packets && p !in s.seqIds && p !in s.seqMsgs
    requires to == Outside || to == Delivered
    requires Move(s.bank, InFlight, to, s.packets[p].coin) == Some(b)
    ensures Sound(Settled(s, b, p), waiting)
  {
    ForeignRefs(s, b, p, waiting);
    ForeignFunds(s, b, p, to, waiting);
  }

  lemma ForeignSendRefs(s: State, path: Path, c: Coin, net: Net, waiting: set<TransferId>)
    requires Refs(s, waiting) && Ics20Send(s, path, c, Outside, net).Done?
    ensures Refs(Ics20Send(s, path, c, Outside, net).value, waiting)
  {
    var p := PacketId(path, s.nextSeq[path]);
    FreshPacket(s, p, waiting);
    LinkOtherPackets(s.transfers, s.seqIds, s.packets, s.packets[p := Packet(Outside, c)], waiting);
    MessageLinkOtherPackets(s.messages, s.seqMsgs, s.packets, s.packets[p := Packet(Outside, c)]);
  }

  lemma ForeignSendFunds(s: State, path: Path, c: Coin, net: Net, waiting: set<TransferId>)
    requires Funds(s, waiting) && Ics20Send(s, path, c, Outside, net).Done?
    requires PacketId(path, s.nextSeq[path]) !in s.packets
    ensures Funds(Ics20Send(s, path, c, Outside, net).value, waiting)
  {
    var s' := Ics20Send(s, path, c, Outside, net).value;
    forall d ensures FundsOf(s', waiting, d) {
      assert FundsOf(s, waiting, d);
      PacketTotals(s.packets, PacketId(path, s.nextSeq[path]), Packet(Outside, c), d);
    }
  }

  lemma ForeignSendSound(s: State, path: Path, c: Coin, net: Net, waiting: set<TransferId>)
    requires Sound(s, waiting) && Ics20Send(s, path, c, Outside, net).Done?
    ensures Sound(Ics20Send(s, path, c, Outside, net).value, waiting)
  {
    ForeignSendRefs(s, path, c, net, waiting);
    FreshPacket(s, PacketId(path, s.nextSeq[path]), waiting);
    ForeignSendFunds(s, path, c, net, waiting);
  }

  // ------------------------------------------------------------ messages

  function Routed(s: State, b: Bank, p: PacketId, id: MessageId): State
    requires id in s.messages && p.path in s.nextSeq
  {
    s.(bank := b,
       messages := s.messages[id := s.messages[id].(status := Processing)],
       seqMsgs := s.seqMsgs[p := id],
       nextSeq := s.nextSeq[p.path := s.nextSeq[p.path] + 1],
       packets := s.packets[p := Packet(IbcAccount, SentCoin(s.messages[id]))])
  }

  lemma RouteMessageRefs(s: State, b: Bank, p: PacketId, id: MessageId, waiting: set<TransferId>)
    requires Refs(s, waiting) && id in s.messages && s.messages[id].status != Processing
    requires p.path in s.nextSeq && p.sequence == s.nextSeq[p.path]
    ensures p !in s.packets && p !in s.seqMsgs && Refs(Routed(s, b, p, id), waiting)
  {
    FreshPacket(s, p, waiting);
    MessageLinkSend(s.messages, s.seqMsgs, s.packets, id, p);
    LinkOtherPackets(s.transfers, s.seqIds, s.packets,
                     s.packets[p := Packet(IbcAccount, SentCoin(s.messages[id]))], waiting);
  }

  lemma RouteMessageFunds(s: State, b0: Bank, b: Bank, p: PacketId, id: MessageId, waiting: set<TransferId>)
    requires Funds(s, waiting) && id in s.messages && s.messages[id].status in {Approved, NotExecuted}
    requires p.path in s.nextSeq && p !in s.packets
    requires var from := if s.messages[id].asset.Some? then Locked else Outside;
             Move(s.bank, from, IbcAccount, SentCoin(s.messages[id])) == Some(b0)
    requires Move(b0, IbcAccount, InFlight, SentCoin(s.messages[id])) == Some(b)
    ensures Funds(Routed(s, b, p, id), waiting)
  {
    var m := s.messages[id];
    var s' := Routed(s, b, p, id);
    forall d ensures FundsOf(s', waiting, d) {
      assert FundsOf(s, waiting, d);
      MessageTotals(s.messages, id, s'.messages[id], SentCoin(m), d);
      PacketTotals(s.packets, p, s'.packets[p], d);
    }
  }

  lemma RouteMessageSound(s: State, b0: Bank, b: Bank, p: PacketId, id: MessageId, waiting: set<TransferId>)
    requires Sound(s, waiting) && id in s.messages && s.messages[id].status in {Approved, NotExecuted}
    requires p.path in s.nextSeq && p.sequence == s.nextSeq[p.path]
    requires var from := if s.messages[id].asset.Some? then Locked else Outside;
             Move(s.bank, from, IbcAccount, SentCoin(s.messages[id])) == Some(b0)
    requires Move(b0, IbcAccount, InFlight, SentCoin(s.messages[id])) == Some(b)
    ensures p !in s.seqMsgs && Sound(Routed(s, b, p, id), waiting)
  {
    RouteMessageRefs(s, b, p, id, waiting);
    RouteMessageFunds(s, b0, b, p, id, waiting);
  }

  function MessageSettled(s: State, b: Bank, p: PacketId, to: MessageStatus): State
    requires p in s.seqMsgs && s.seqMsgs[p] in s.messages
  {
    Settled(s, b, p).(messages := s.messages[s.seqMsgs[p] := s.messages[s.seqMsgs[p]].(status := to)])
  }

  lemma MessageSettledRefs(s: State, b: Bank, p: PacketId, to: MessageStatus, waiting: set<TransferId>)
    requires Refs(s, waiting) && p in s.seqMsgs && to != Processing
    ensures p in s.packets && p !in s.seqIds && IsProcessing(s.messages, s.seqMsgs[p])
    ensures s.packets[p] == Packet(IbcAccount, SentCoin(s.messages[s.seqMsgs[p]]))
    ensures Refs(MessageSettled(s, b, p, to), waiting)
  {
    assert CarriesMessage(s.seqMsgs, p, s.seqMsgs[p]);
    MessageLinkSettle(s.messages, s.seqMsgs, s.packets, p, to);
    assert s.seqIds - {p} == s.seqIds;
    LinkOtherPackets(s.transfers, s.seqIds, s.packets, s.packets - {p}, waiting);
  }

  /** `b` is reached by delivering the coin, or by refunding and then locking it. */
  lemma MessageSettledFunds(s: State, b: Bank, p: PacketId, to: MessageStatus, waiting: set<TransferId>)
    requires Funds(s, waiting) && p in s.packets && p in s.seqMsgs && IsProcessing(s.messages, s.seqMsgs[p])
    requires s.packets[p].coin == SentCoin(s.messages[s.seqMsgs[p]])
    requires to == Executed ==> Move(s.bank, InFlight, Delivered, s.packets[p].coin) == Some(b)
    requires to == NotExecuted ==>
      && Move(s.bank, InFlight, IbcAccount, s.packets[p].coin).Some?
      && Move(Move(s.bank, InFlight, IbcAccount, s.packets[p].coin).value, IbcAccount, Locked, s.packets[p].coin) == Some(b)
    requires to == Executed || to == NotExecuted
    ensures Funds(MessageSettled(s, b, p, to), waiting)
  {
    var id := s.seqMsgs[p];
    var s' := MessageSettled(s, b, p, to);
    forall d ensures FundsOf(s', waiting, d) {
      assert FundsOf(s, waiting, d);
      MessageTotals(s.messages, id, s'.messages[id], s.packets[p].coin, d);
      SettledTotals(s.packets, p, d);
    }
  }

  lemma MessageSettledSound(s: State, b: Bank, p: PacketId, to: MessageStatus, waiting: set<TransferId>)
    requires Sound(s, waiting) && p in s.packets && p in s.seqMsgs
    requires to == Executed ==> Move(s.bank, InFlight, Delivered, s.packets[p].coin) == Some(b)
    requires to == NotExecuted ==>
      && Move(s.bank, InFlight, IbcAccount, s.packets[p].coin).Some?
      && Move(Move(s.bank, InFlight, IbcAccount, s.packets[p].coin).value, IbcAccount, Locked, s.packets[p].coin) == Some(b)
    requires to == Executed || to == NotExecuted
    ensures p !in s.seqIds && IsProcessing(s.messages, s.seqMsgs[p]) && s.packets[p].sender == IbcAccount
    ensures Sound(MessageSettled(s, b, p, to), waiting)
  {
    MessageSettledRefs(s, b, p, to, waiting);
    MessageSettledFunds(s, b, p, to, waiting);
  }

  /** A new message is approved; its asset, if any, has just been locked. */
  lemma NewMessageSound(s: State, b: Bank, id: MessageId, asset: Option<Coin>, waiting: set<TransferId>)
    requires Sound(s, waiting) && id !in s.messages
    requires forall d :: Balance(b, Locked, d) >= Balance(s.bank, Locked, d) + AmountIf(asset.Some?, if asset.Some? then asset.value else DUST, d)
    requires forall d :: Balance(b, IbcAccount, d) >= Balance(s.bank, IbcAccount, d)
    requires forall d :: Balance(b, InFlight, d) == Balance(s.bank, InFlight, d)
    requires forall d :: Balance(b, Delivered, d) == Balance(s.bank, Delivered, d)
    ensures Sound(s.(bank := b, messages := s.messages[id := Message(asset, Approved)]), waiting)
  {
    var m := Message(asset, Approved);
    MessageLinkNew(s.messages, s.seqMsgs, s.packets, id, m);
    NewMessageFunds(s, b, id, m, waiting);
  }

  lemma NewMessageFunds(s: State, b: Bank, id: MessageId, m: Message, waiting: set<TransferId>)
    requires Funds(s, waiting) && id !in s.messages && m.status == Approved
    requires forall d :: Balance(b, Locked, d) >= Balance(s.bank, Locked, d) + AmountIf(m.asset.Some?, SentCoin(m), d)
    requires forall d :: Balance(b, IbcAccount, d) >= Balance(s.bank, IbcAccount, d)
    requires forall d :: Balance(b, InFlight, d) == Balance(s.bank, InFlight, d)
    requires forall d :: Balance(b, Delivered, d) == Balance(s.bank, Delivered, d)
    ensures Funds(s.(bank := b, messages := s.messages[id := m]), waiting)
  {
    var s' := s.(bank := b, messages := s.messages[id := m]);
    forall d ensures FundsOf(s', waiting, d) {
      assert FundsOf(s, waiting, d);
      MessageTotals(s.messages, id, m, SentCoin(m), d);
    }
  }

  // --------------------------------------------------------------- nexus

  lemma DepositIs(s: State, c: Coin)
    requires NexusDeposit(s, c).Done?
    ensures Move(s.bank, Outside, Locked, c).Some?
    ensures NexusDeposit(s, c).value == Deposited(s, Move(s.bank, Outside, Locked, c).value, c)
  {
  }

  function Deposited(s: State, b: Bank, c: Coin): State {
    s.(bank := b, pending := s.pending[s.nextId := c], nextId := s.nextId + 1)
  }

  lemma DepositRefs(s: State, b: Bank, c: Coin, waiting: set<TransferId>)
    requires Refs(s, waiting)
    ensures Refs(Deposited(s, b, c), waiting)
  {
    assert FreshIds(s.pending, s.transfers, s.nextId);
  }

  lemma DepositFunds(s: State, b: Bank, c: Coin, waiting: set<TransferId>)
    requires Funds(s, waiting) && s.nextId !in s.pending && Move(s.bank, Outside, Locked, c) == Some(b)
    ensures Funds(Deposited(s, b, c), waiting)
  {
    forall d ensures FundsOf(Deposited(s, b, c), waiting, d) {
      assert FundsOf(s, waiting, d);
      TotalInsert(s.pending, s.nextId, c, d);
    }
  }

  lemma DepositSound(s: State, c: Coin, waiting: set<TransferId>)
    requires Sound(s, waiting) && NexusDeposit(s, c).Done?
    ensures Sound(NexusDeposit(s, c).value, waiting)
  {
    DepositIs(s, c);
    var b := Move(s.bank, Outside, Locked, c).value;
    assert s.nextId !in s.pending by { assert FreshIds(s.pending, s.transfers, s.nextId); }
    DepositRefs(s, b, c, waiting);
    DepositFunds(s, b, c, waiting);
  }

  function PaidOut(s: State, b: Bank, id: TransferId): State {
    s.(bank := b, pending := s.pending - {id})
  }

  lemma PayOutRefs(s: State, b: Bank, id: TransferId, waiting: set<TransferId>)
    requires Refs(s, waiting)
    ensures Refs(PaidOut(s, b, id), waiting)
  {
    assert FreshIds(s.pending, s.transfers, s.nextId);
  }

  lemma PayOutFunds(s: State, b: Bank, id: TransferId, waiting: set<TransferId>)
    requires Funds(s, waiting) && id in s.pending && Move(s.bank, Locked, Outside, s.pending[id]) == Some(b)
    ensures Funds(PaidOut(s, b, id), waiting)
  {
    forall d ensures FundsOf(PaidOut(s, b, id), waiting, d) {
      assert FundsOf(s, waiting, d);
      PendingTotals(s.pending, id, d);
    }
  }

  lemma PayOutIs(s: State, id: TransferId)
    requires NexusPayOut(s, id).Done?
    ensures id in s.pending && Move(s.bank, Locked, Outside, s.pending[id]).Some?
    ensures NexusPayOut(s, id).value == PaidOut(s, Move(s.bank, Locked, Outside, s.pending[id]).value, id)
  {
  }

  lemma PayOutSound(s: State, id: TransferId, waiting: set<TransferId>)
    requires Sound(s, waiting) && NexusPayOut(s, id).Done?
    ensures Sound(NexusPayOut(s, id).value, waiting)
  {
    PayOutIs(s, id);
    var b := Move(s.bank, Locked, Outside, s.pending[id]).value;
    PayOutRefs(s, b, id, waiting);
    PayOutFunds(s, b, id, waiting);
  }

  // ---------------------------------------------- what the escrow covers

  /** The escrow covers every pending transfer. */
  lemma PendingIsFunded(s: State, id: TransferId, waiting: set<TransferId>)
    requires Funds(s, waiting) && id in s.pending
    ensures Move(s.bank, Locked, IbcAccount, s.pending[id]).Some?
  {
    assert FundsOf(s, waiting, s.pending[id].denom);
    TotalAtLeast(s.pending, id);
  }

  /** The escrow covers the asset of every message that is not under way. */
  lemma UnroutedIsFunded(s: State, id: MessageId, waiting: set<TransferId>)
    requires Funds(s, waiting) && id in s.messages && Unrouted(s.messages[id])
    ensures Move(s.bank, Locked, IbcAccount, s.messages[id].asset.value).Some?
  {
    assert FundsOf(s, waiting, s.messages[id].asset.value.denom);
    TotalAtLeast(UnroutedAssets(s.messages), id);
  }
}
