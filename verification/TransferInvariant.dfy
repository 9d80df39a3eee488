/**
  What every step of the transfer protocol keeps, in two halves: `Refs` ties the
  transfer table, the queue, the two sequence maps and the packet commitments
  together; `Funds` ties them to the ledger. Both take the set of transfers that
  wait in the IBC account as a parameter, because inside the end-blocker that is
  the queue plus the transfers whose send has failed and that are not re-locked
  yet.
 */
module TransferInvariant {
  import opened Ledger
  import opened TransferProtocol

  type Transfers = map<TransferId, Transfer>
  type Messages = map<MessageId, Message>
  type Packets = map<PacketId, Packet>

  ghost predicate IsPending(ts: Transfers, id: TransferId) {
    id in ts && ts[id].status == Pending
  }

  /** Packet `p` carries transfer `id`. */
  ghost predicate Carries(seqIds: map<PacketId, TransferId>, p: PacketId, id: TransferId) {
    p in seqIds && seqIds[p] == id
  }

  /** A mapped transfer is pending, does not wait, and its coins are in exactly that packet. */
  ghost predicate TransferLinks(ts: Transfers, seqIds: map<PacketId, TransferId>, packets: Packets, waiting: set<TransferId>) {
    && (forall p, id :: Carries(seqIds, p, id) ==>
          && IsPending(ts, id) && id !in waiting
          && p in packets && p.path == ts[id].path && packets[p] == Packet(IbcAccount, ts[id].coin))
    && (forall p, p', id :: Carries(seqIds, p, id) && Carries(seqIds, p', id) ==> p == p')
    && (forall id :: IsPending(ts, id) && id !in waiting ==> exists p :: Carries(seqIds, p, id))
    && (forall id :: id in waiting ==> IsPending(ts, id))
  }

  function SentCoin(m: Message): Coin {
    if m.asset.Some? then m.asset.value else DUST
  }

  ghost predicate IsProcessing(ms: Messages, id: MessageId) {
    id in ms && ms[id].status == Processing
  }

  ghost predicate CarriesMessage(seqMsgs: map<PacketId, MessageId>, p: PacketId, id: MessageId) {
    p in seqMsgs && seqMsgs[p] == id
  }

  ghost predicate MessageLinks(ms: Messages, seqMsgs: map<PacketId, MessageId>, packets: Packets) {
    && (forall p, id :: CarriesMessage(seqMsgs, p, id) ==>
          IsProcessing(ms, id) && p in packets && packets[p] == Packet(IbcAccount, SentCoin(ms[id])))
    && (forall p, p', id :: CarriesMessage(seqMsgs, p, id) && CarriesMessage(seqMsgs, p', id) ==> p == p')
    && (forall id :: IsProcessing(ms, id) ==> exists p :: CarriesMessage(seqMsgs, p, id))
  }

  /** Packets below the next sequence; those of the IBC account are in exactly one of the two maps. */
  ghost predicate PacketLinks(packets: Packets, nextSeq: map<Path, nat>,
                              seqIds: map<PacketId, TransferId>, seqMsgs: map<PacketId, MessageId>) {
    && (forall p :: p in seqIds ==> p !in seqMsgs)
    && forall p :: p in packets ==>
         && p.path in nextSeq && p.sequence < nextSeq[p.path]
         && (packets[p].sender == IbcAccount || packets[p].sender == Outside)
         && (packets[p].sender == IbcAccount <==> p in seqIds || p in seqMsgs)
  }

  ghost predicate FreshIds(pending: map<TransferId, Coin>, ts: Transfers, nextId: TransferId) {
    && (forall id :: id in pending ==> id !in ts && id < nextId)
    && (forall id :: id in ts ==> id < nextId)
  }

  ghost predicate Refs(s: State, waiting: set<TransferId>) {
    && TransferLinks(s.transfers, s.seqIds, s.packets, waiting)
    && MessageLinks(s.messages, s.seqMsgs, s.packets)
    && PacketLinks(s.packets, s.nextSeq, s.seqIds, s.seqMsgs)
    && FreshIds(s.pending, s.transfers, s.nextId)
  }

  // ------------------------------------------------------------- funds

  ghost function WaitingCoins(ts: Transfers, waiting: set<TransferId>): map<TransferId, Coin> {
    map id | id in ts && id in waiting :: ts[id].coin
  }

  ghost function CoinsWith(ts: Transfers, status: Status): map<TransferId, Coin> {
    map id | id in ts && ts[id].status == status :: ts[id].coin
  }

  predicate Unrouted(m: Message) {
    m.asset.Some? && (m.status == Approved || m.status == NotExecuted)
  }

  /** Assets of messages that still wait to be routed. */
  ghost function UnroutedAssets(ms: Messages): map<MessageId, Coin> {
    map id | id in ms && Unrouted(ms[id]) :: ms[id].asset.value
  }

  ghost function PacketCoins(packets: Packets): map<PacketId, Coin> {
    map p | p in packets :: packets[p].coin
  }

  /** Everything that can still be asked of the escrow. */
  ghost function Claims(s: State, d: Denom): nat {
    Total(s.pending, d) + Total(CoinsWith(s.transfers, Failed), d) + Total(UnroutedAssets(s.messages), d)
  }

  ghost predicate FundsOf(s: State, waiting: set<TransferId>, d: Denom) {
    && Claims(s, d) <= Balance(s.bank, Locked, d)
    && Total(WaitingCoins(s.transfers, waiting), d) <= Balance(s.bank, IbcAccount, d)
    && Total(PacketCoins(s.packets), d) == Balance(s.bank, InFlight, d)
    && Total(CoinsWith(s.transfers, Completed), d) <= Balance(s.bank, Delivered, d)
  }

  ghost predicate Funds(s: State, waiting: set<TransferId>) {
    forall d :: FundsOf(s, waiting, d)
  }

  /** Both halves; written as one equation so that the verifier takes it as a whole. */
  ghost predicate Sound(s: State, waiting: set<TransferId>) {
    (Refs(s, waiting) && Funds(s, waiting)) == true
  }

  ghost predicate Sorted(q: seq<TransferId>) {
    forall i, j :: 0 <= i < j < |q| ==> q[i] < q[j]
  }

  ghost function Ids(q: seq<TransferId>): set<TransferId> {
    set id | id in q
  }

  /** The invariant between two steps: what waits is exactly what is queued. One equation, like `Sound`. */
  ghost predicate Inv(s: State) {
    (Sorted(s.queue) && Sound(s, Ids(s.queue))) == true
  }

  /** `Sound` does not look at the queue itself. */
  lemma SoundIgnoresQueue(s: State, q: seq<TransferId>, waiting: set<TransferId>)
    requires Sound(s, waiting)
    ensures Sound(s.(queue := q), waiting)
  {
    forall d ensures FundsOf(s.(queue := q), waiting, d) {
      assert FundsOf(s, waiting, d);
    }
  }
}
