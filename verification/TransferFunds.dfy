/** How the coin tables behind `Funds` change with the tables they are read off. */
module TransferFunds {
  import opened Ledger
  import opened TransferProtocol
  import opened TransferInvariant

  function AmountIf(b: bool, c: Coin, d: Denom): nat {
    if b then AmountOf(c, d) else 0
  }

  /** One entry appears, changes or disappears. */
  lemma TotalUpdate<K>(m: map<K, Coin>, m': map<K, Coin>, k: K, c: Coin, d: Denom)
    requires m' - {k} == m - {k} && (k in m ==> m[k] == c) && (k in m' ==> m'[k] == c)
    ensures Total(m', d) + AmountIf(k in m, c, d) == Total(m, d) + AmountIf(k in m', c, d)
  {
    if k in m { TotalRemove(m, k, d); } else { assert m - {k} == m; }
    if k in m' { TotalRemove(m', k, d); } else { assert m' - {k} == m'; }
  }

  lemma StatusTotals(ts: Transfers, id: TransferId, t: Transfer, waiting: set<TransferId>, status: Status, d: Denom)
    requires id in ts ==> t.coin == ts[id].coin
    ensures Total(CoinsWith(ts[id := t], status), d) + AmountIf(id in ts && ts[id].status == status, t.coin, d)
            == Total(CoinsWith(ts, status), d) + AmountIf(t.status == status, t.coin, d)
    ensures id in ts || id !in waiting ==> WaitingCoins(ts[id := t], waiting) == WaitingCoins(ts, waiting)
  {
    TotalUpdate(CoinsWith(ts, status), CoinsWith(ts[id := t], status), id, t.coin, d);
  }

  lemma WaitingTotals(ts: Transfers, waiting: set<TransferId>, id: TransferId, d: Denom)
    requires id in ts && id !in waiting
    ensures Total(WaitingCoins(ts, waiting + {id}), d) == Total(WaitingCoins(ts, waiting), d) + AmountOf(ts[id].coin, d)
  {
    TotalUpdate(WaitingCoins(ts, waiting), WaitingCoins(ts, waiting + {id}), id, ts[id].coin, d);
  }

  lemma MessageTotals(ms: Messages, id: MessageId, m: Message, c: Coin, d: Denom)
    requires m.asset.Some? ==> m.asset.value == c
    requires id in ms ==> ms[id].asset == m.asset
    ensures Total(UnroutedAssets(ms[id := m]), d) + AmountIf(id in ms && Unrouted(ms[id]), c, d)
            == Total(UnroutedAssets(ms), d) + AmountIf(Unrouted(m), c, d)
  {
    TotalUpdate(UnroutedAssets(ms), UnroutedAssets(ms[id := m]), id, c, d);
  }

  lemma PacketTotals(packets: Packets, p: PacketId, packet: Packet, d: Denom)
    requires p !in packets
    ensures Total(PacketCoins(packets[p := packet]), d) == Total(PacketCoins(packets), d) + AmountOf(packet.coin, d)
  {
    TotalUpdate(PacketCoins(packets), PacketCoins(packets[p := packet]), p, packet.coin, d);
  }

  lemma SettledTotals(packets: Packets, p: PacketId, d: Denom)
    requires p in packets
    ensures Total(PacketCoins(packets), d) == Total(PacketCoins(packets - {p}), d) + AmountOf(packets[p].coin, d)
  {
    TotalUpdate(PacketCoins(packets), PacketCoins(packets - {p}), p, packets[p].coin, d);
  }

  lemma PendingTotals(pending: map<TransferId, Coin>, id: TransferId, d: Denom)
    requires id in pending
    ensures Total(pending, d) == Total(pending - {id}, d) + AmountOf(pending[id], d)
  {
    TotalRemove(pending, id, d);
  }
}
