/** How the links between tables survive the single table updates of the protocol. */
module TransferLinksProofs {
  import opened Ledger
  import opened TransferProtocol
  import opened TransferInvariant

  type SeqIds = map<PacketId, TransferId>
  type SeqMsgs = map<PacketId, MessageId>

  // ------------------------------------------------------ transfer links

  /** A new or re-opened transfer joins the waiting set. */
  lemma LinkWait(ts: Transfers, seqIds: SeqIds, packets: Packets, waiting: set<TransferId>, id: TransferId, t: Transfer)
    requires TransferLinks(ts, seqIds, packets, waiting) && !IsPending(ts, id) && t.status == Pending
    ensures TransferLinks(ts[id := t], seqIds, packets, waiting + {id})
  {
    var ts' := ts[id := t];
    assert forall x :: x != id ==> (IsPending(ts', x) <==> IsPending(ts, x));
    assert forall p :: !Carries(seqIds, p, id);
  }

  /** A waiting transfer is given up. */
  lemma LinkGiveUp(ts: Transfers, seqIds: SeqIds, packets: Packets, waiting: set<TransferId>, id: TransferId, t: Transfer)
    requires TransferLinks(ts, seqIds, packets, waiting) && id in waiting && t.status != Pending
    ensures TransferLinks(ts[id := t], seqIds, packets, waiting - {id})
  {
    var ts' := ts[id := t];
    assert forall x :: x != id ==> (IsPending(ts', x) <==> IsPending(ts, x));
    assert forall p :: !Carries(seqIds, p, id);
  }

  /** A waiting transfer is put into a new packet. */
  lemma LinkSend(ts: Transfers, seqIds: SeqIds, packets: Packets, waiting: set<TransferId>, id: TransferId, p: PacketId)
    requires TransferLinks(ts, seqIds, packets, waiting) && id in waiting
    requires p !in packets && p.path == ts[id].path
    ensures TransferLinks(ts, seqIds[p := id], packets[p := Packet(IbcAccount, ts[id].coin)], waiting - {id})
  {
    var seqIds' := seqIds[p := id];
    assert p !in seqIds by { if p in seqIds { assert Carries(seqIds, p, seqIds[p]); } }
    assert Carries(seqIds', p, id);
    assert forall q, x :: Carries(seqIds, q, x) ==> Carries(seqIds', q, x);
    assert forall q, x :: Carries(seqIds', q, x) ==> Carries(seqIds, q, x) || (q == p && x == id);
  }

  /** The packet of a transfer is settled; the transfer waits again or is closed. */
  lemma LinkSettle(ts: Transfers, seqIds: SeqIds, packets: Packets, waiting: set<TransferId>, p: PacketId, t: Transfer)
    requires TransferLinks(ts, seqIds, packets, waiting) && p in seqIds && seqIds[p] in ts
    requires t.status != Pending || t == ts[seqIds[p]]
    ensures t.status != Pending ==> TransferLinks(ts[seqIds[p] := t], seqIds - {p}, packets - {p}, waiting)
    ensures t.status == Pending ==> TransferLinks(ts[seqIds[p] := t], seqIds - {p}, packets - {p}, waiting + {seqIds[p]})
  {
    var id := seqIds[p];
    var ts', seqIds' := ts[id := t], seqIds - {p};
    assert Carries(seqIds, p, id);
    assert forall x :: x != id ==> (IsPending(ts', x) <==> IsPending(ts, x));
    forall q, x | Carries(seqIds', q, x) ensures Carries(seqIds, q, x) && q != p && x != id {
      assert Carries(seqIds, q, x);
    }
    assert forall q, x :: Carries(seqIds, q, x) && q != p ==> Carries(seqIds', q, x);
  }

  /** Packets that carry no transfer come and go freely. */
  lemma LinkOtherPackets(ts: Transfers, seqIds: SeqIds, packets: Packets, packets': Packets, waiting: set<TransferId>)
    requires TransferLinks(ts, seqIds, packets, waiting)
    requires forall p :: p in seqIds && p in packets ==> p in packets' && packets'[p] == packets[p]
    ensures TransferLinks(ts, seqIds, packets', waiting)
  {
  }

  // ------------------------------------------------------- message links

  lemma MessageLinkSend(ms: Messages, seqMsgs: SeqMsgs, packets: Packets, id: MessageId, p: PacketId)
    requires MessageLinks(ms, seqMsgs, packets) && id in ms && ms[id].status != Processing && p !in packets
    ensures MessageLinks(ms[id := ms[id].(status := Processing)], seqMsgs[p := id],
                         packets[p := Packet(IbcAccount, SentCoin(ms[id]))])
  {
    var ms', seqMsgs' := ms[id := ms[id].(status := Processing)], seqMsgs[p := id];
    assert p !in seqMsgs by { if p in seqMsgs { assert CarriesMessage(seqMsgs, p, seqMsgs[p]); } }
    assert CarriesMessage(seqMsgs', p, id);
    assert forall x :: x != id ==> (IsProcessing(ms', x) <==> IsProcessing(ms, x));
    assert forall q, x :: CarriesMessage(seqMsgs, q, x) ==> CarriesMessage(seqMsgs', q, x) && x != id;
    assert forall q, x :: CarriesMessage(seqMsgs', q, x) ==> CarriesMessage(seqMsgs, q, x) || (q == p && x == id);
  }

  lemma MessageLinkSettle(ms: Messages, seqMsgs: SeqMsgs, packets: Packets, p: PacketId, to: MessageStatus)
    requires MessageLinks(ms, seqMsgs, packets) && p in seqMsgs && seqMsgs[p] in ms && to != Processing
    ensures MessageLinks(ms[seqMsgs[p] := ms[seqMsgs[p]].(status := to)], seqMsgs - {p}, packets - {p})
  {
    var id := seqMsgs[p];
    var ms', seqMsgs' := ms[id := ms[id].(status := to)], seqMsgs - {p};
    assert CarriesMessage(seqMsgs, p, id);
    assert forall x :: x != id ==> (IsProcessing(ms', x) <==> IsProcessing(ms, x));
    assert forall q, x :: CarriesMessage(seqMsgs', q, x) ==> CarriesMessage(seqMsgs, q, x) && q != p && x != id;
    assert forall q, x :: CarriesMessage(seqMsgs, q, x) && q != p ==> CarriesMessage(seqMsgs', q, x);
  }

  lemma MessageLinkNew(ms: Messages, seqMsgs: SeqMsgs, packets: Packets, id: MessageId, m: Message)
    requires MessageLinks(ms, seqMsgs, packets) && id !in ms && m.status == Approved
    ensures MessageLinks(ms[id := m], seqMsgs, packets)
  {
    var ms' := ms[id := m];
    assert forall x :: IsProcessing(ms', x) ==> IsProcessing(ms, x);
    forall p, x | CarriesMessage(seqMsgs, p, x)
      ensures IsProcessing(ms', x) && p in packets && packets[p] == Packet(IbcAccount, SentCoin(ms'[x]))
    {
      assert IsProcessing(ms, x) && x != id;
    }
  }

  lemma MessageLinkOtherPackets(ms: Messages, seqMsgs: SeqMsgs, packets: Packets, packets': Packets)
    requires MessageLinks(ms, seqMsgs, packets)
    requires forall p :: p in seqMsgs && p in packets ==> p in packets' && packets'[p] == packets[p]
    ensures MessageLinks(ms, seqMsgs, packets')
  {
  }
}
