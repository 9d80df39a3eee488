/**
  Coins and the places they can be in. The bank keeper, the escrow behind
  `LockFrom`/`UnlockTo` and the ICS-20 escrow are one double-entry ledger here:
  an operation either moves an amount between two places or fails and changes
  nothing.
 */
module Ledger {
  import opened Wrappers

  type Denom = string

  datatype Coin = Coin(denom: Denom, amount: nat)

  datatype Place = Locked | IbcAccount | InFlight | Delivered | Outside

  /** Balances; an absent entry is zero. */
  type Bank = map<(Place, Denom), nat>

  function Balance(b: Bank, p: Place, d: Denom): nat {
    if (p, d) in b then b[(p, d)] else 0
  }

  function Supply(b: Bank, d: Denom): nat {
    Balance(b, Locked, d) + Balance(b, IbcAccount, d) + Balance(b, InFlight, d)
    + Balance(b, Delivered, d) + Balance(b, Outside, d)
  }

  function AmountOf(c: Coin, d: Denom): nat {
    if c.denom == d then c.amount else 0
  }

  /** `bank.SendCoins`, `LockFrom`, `UnlockTo`: all or nothing. */
  function Move(b: Bank, from: Place, to: Place, c: Coin): (r: Option<Bank>)
    requires from != to
    ensures r.Some? <==> c.amount <= Balance(b, from, c.denom)
    ensures r.Some? ==> forall p, d ::
      Balance(r.value, p, d)
      == Balance(b, p, d) + (if p == to then AmountOf(c, d) else 0) - (if p == from then AmountOf(c, d) else 0)
  {
    if Balance(b, from, c.denom) < c.amount then None
    else Some(b[(from, c.denom) := Balance(b, from, c.denom) - c.amount]
               [(to, c.denom) := Balance(b, to, c.denom) + c.amount])
  }

  lemma MoveKeepsSupply(b: Bank, from: Place, to: Place, c: Coin, d: Denom)
    requires from != to && Move(b, from, to, c).Some?
    ensures Supply(Move(b, from, to, c).value, d) == Supply(b, d)
  {
    var r := Move(b, from, to, c).value;
    assert forall p :: p != from && p != to ==> Balance(r, p, d) == Balance(b, p, d);
    assert Balance(r, from, d) + Balance(r, to, d) == Balance(b, from, d) + Balance(b, to, d);
  }

  /** The amount of denom `d` that a table of coins adds up to. */
  ghost function Total<K>(m: map<K, Coin>, d: Denom): nat
    decreases |m|
  {
    if m == map[] then 0
    else
      var k :| k in m;
      assert |m - {k}| < |m| by { assert (m - {k}).Keys == m.Keys - {k}; }
      AmountOf(m[k], d) + Total(m - {k}, d)
  }

  /** Which entry is taken out first does not matter. */
  lemma {:induction false} TotalRemove<K>(m: map<K, Coin>, k: K, d: Denom)
    requires k in m
    ensures Total(m, d) == AmountOf(m[k], d) + Total(m - {k}, d)
    decreases |m|
  {
    var j :| j in m && Total(m, d) == AmountOf(m[j], d) + Total(m - {j}, d);
    if j != k {
      assert |m - {j}| < |m| by { assert (m - {j}).Keys == m.Keys - {j}; }
      assert |m - {k}| < |m| by { assert (m - {k}).Keys == m.Keys - {k}; }
      TotalRemove(m - {j}, k, d);
      TotalRemove(m - {k}, j, d);
      assert m - {j} - {k} == m - {k} - {j};
    }
  }

  lemma TotalInsert<K>(m: map<K, Coin>, k: K, c: Coin, d: Denom)
    requires k !in m
    ensures Total(m[k := c], d) == Total(m, d) + AmountOf(c, d)
  {
    TotalRemove(m[k := c], k, d);
    assert m[k := c] - {k} == m;
  }

  lemma TotalAtLeast<K>(m: map<K, Coin>, k: K)
    requires k in m
    ensures Total(m, m[k].denom) >= m[k].amount
  {
    TotalRemove(m, k, m[k].denom);
  }
}
