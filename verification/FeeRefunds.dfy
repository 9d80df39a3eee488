/** Splitting a transaction fee over its refund requests and recording the shares. */
module FeeRefunds {
  import opened Ledger
  import opened MessageTree

  /** Coin amounts by denom; a zero amount is not stored. */
  type Coins = map<Denom, nat>

  ghost predicate NoZero(c: Coins) {
    forall d :: d in c ==> c[d] > 0
  }

  function AmountIn(c: Coins, d: Denom): nat {
    if d in c then c[d] else 0
  }

  /** `Coins.Add`: the sum in every denom, zero amounts dropped. */
  function AddCoin(c: Coins, coin: Coin): (r: Coins)
    ensures NoZero(c) ==> NoZero(r)
    ensures forall d :: AmountIn(r, d) == AmountIn(c, d) + if d == coin.denom then coin.amount else 0
  {
    var sum := AmountIn(c, coin.denom) + coin.amount;
    if sum == 0 then c - {coin.denom} else c[coin.denom := sum]
  }

  /** The fee paid in one denom. */
  function Paid(fees: seq<Coin>, d: Denom): nat {
    if fees == [] then 0
    else Paid(fees[..|fees| - 1], d) + (var last := fees[|fees| - 1]; if last.denom == d then last.amount else 0)
  }

  function Shared(parts: seq<Coins>, d: Denom): nat {
    if parts == [] then 0 else Shared(parts[..|parts| - 1], d) + AmountIn(parts[|parts| - 1], d)
  }

  ghost predicate DistinctDenoms(fees: seq<Coin>) {
    forall i, j :: 0 <= i < j < |fees| ==> fees[i].denom != fees[j].denom
  }

  /** First share not below the others, and above them by less than `n`. */
  ghost predicate Even(parts: seq<Coins>, n: nat, d: Denom) {
    forall i :: 0 < i < |parts| ==>
      && AmountIn(parts[i], d) == AmountIn(parts[1], d)
      && AmountIn(parts[i], d) <= AmountIn(parts[0], d) < AmountIn(parts[i], d) + n
  }

  /** The shares that the split promises. */
  ghost predicate IsSplit(parts: seq<Coins>, n: nat, fees: seq<Coin>) {
    && |parts| == n && (forall d :: Shared(parts, d) == Paid(fees, d))
    && (DistinctDenoms(fees) ==> forall d :: Even(parts, n, d))
  }

  // Adding `first` to share 0 and `equal` to each of the shares 1 to k - 1.

  ghost predicate Raised(was: seq<Coins>, now: seq<Coins>, k: nat, coin: Denom, first: nat, equal: nat) {
    && |now| == |was|
    && forall i, d :: 0 <= i < |was| ==>
      AmountIn(now[i], d) == AmountIn(was[i], d) + if d != coin || i >= k then 0 else if i == 0 then first else equal
  }

  lemma {:induction false} RaisedShares(was: seq<Coins>, now: seq<Coins>, n: nat, coin: Denom, first: nat, equal: nat, d: Denom)
    requires 0 < n <= |was| && Raised(was, now, |was|, coin, first, equal)
    ensures Shared(now[..n], d) == Shared(was[..n], d) + if d == coin then first + (n - 1) * equal else 0
  {
    assert now[..n][..n - 1] == now[..n - 1] && was[..n][..n - 1] == was[..n - 1];
    assert AmountIn(now[n - 1], d) == AmountIn(was[n - 1], d) + if d != coin then 0 else if n == 1 then first else equal;
    if n > 1 {
      RaisedShares(was, now, n - 1, coin, first, equal, d);
      assert (n - 1) * equal == (n - 2) * equal + equal;
    }
  }

  lemma QuotientAndRemainder(a: nat, n: nat)
    requires n > 0
    ensures a / n + a % n + (n - 1) * (a / n) == a && a % n < n
  {
    assert n * (a / n) + a % n == a;
    assert (n - 1) * (a / n) == n * (a / n) - a / n;
  }

  lemma PaidNext(fees: seq<Coin>, k: nat, d: Denom)
    requires k < |fees|
    ensures Paid(fees[..k + 1], d) == Paid(fees[..k], d) + if fees[k].denom == d then fees[k].amount else 0
  {
    assert fees[..k + 1][..k] == fees[..k];
  }

  lemma {:induction false} UnpaidBefore(fees: seq<Coin>, k: nat, d: Denom)
    requires k <= |fees| && forall i :: 0 <= i < k ==> fees[i].denom != d
    ensures Paid(fees[..k], d) == 0
  {
    if k > 0 {
      UnpaidBefore(fees, k - 1, d);
      PaidNext(fees, k - 1, d);
    }
  }

  lemma {:induction false} NothingShared(parts: seq<Coins>, d: Denom)
    requires forall i :: 0 <= i < |parts| ==> parts[i] == map[]
    ensures Shared(parts, d) == 0
  {
    if parts != [] {
      NothingShared(parts[..|parts| - 1], d);
    }
  }

  /** Where the split stands after the first `k` fee coins. */
  ghost predicate Split(parts: seq<Coins>, n: nat, fees: seq<Coin>, k: nat)
    requires k <= |fees|
  {
    && |parts| == n
    && (forall i :: 0 <= i < n ==> NoZero(parts[i]))
    && (forall d :: Shared(parts, d) == Paid(fees[..k], d))
    && (DistinctDenoms(fees) ==> forall d :: Even(parts, n, d))
  }

  /** Nothing of a denom shared out yet means that no share holds any of it. */
  lemma {:induction false} NoShareYet(parts: seq<Coins>, d: Denom)
    requires Shared(parts, d) == 0
    ensures forall i :: 0 <= i < |parts| ==> AmountIn(parts[i], d) == 0
  {
    if parts != [] {
      NoShareYet(parts[..|parts| - 1], d);
      forall i | 0 <= i < |parts| ensures AmountIn(parts[i], d) == 0 {
        assert i < |parts| - 1 ==> parts[..|parts| - 1][i] == parts[i];
      }
    }
  }

  lemma SplitNext(was: seq<Coins>, now: seq<Coins>, n: nat, fees: seq<Coin>, k: nat)
    requires n > 0 && k < |fees| && Split(was, n, fees, k)
    requires var a := fees[k].amount; Raised(was, now, n, fees[k].denom, a / n + a % n, a / n)
    requires forall i :: 0 <= i < |now| ==> NoZero(now[i])
    ensures Split(now, n, fees, k + 1)
  {
    var coin, a := fees[k].denom, fees[k].amount;
    QuotientAndRemainder(a, n);
    forall d ensures Shared(now, d) == Paid(fees[..k + 1], d) {
      RaisedShares(was, now, n, coin, a / n + a % n, a / n, d);
      assert was[..n] == was && now[..n] == now;
      PaidNext(fees, k, d);
    }
    if DistinctDenoms(fees) {
      UnpaidBefore(fees, k, coin);
      NoShareYet(was, coin);
      forall d ensures Even(now, n, d) {
        assert Even(was, n, d);
      }
    }
  }

  method AddToEach(was: seq<Coins>, denom: Denom, first: nat, equal: nat) returns (parts: seq<Coins>)
    requires was != [] && forall j :: 0 <= j < |was| ==> NoZero(was[j])
    ensures Raised(was, parts, |was|, denom, first, equal)
    ensures forall j :: 0 <= j < |parts| ==> NoZero(parts[j])
  {
    parts := was[0 := AddCoin(was[0], Coin(denom, first))];
    for i := 1 to |was|
      invariant Raised(was, parts, i, denom, first, equal)
      invariant forall j :: 0 <= j < |parts| ==> NoZero(parts[j])
    {
      parts := parts[i := AddCoin(parts[i], Coin(denom, equal))];
    }
  }

  /**
    `splitFeesEvenly`: as many shares as refund requests, adding up to the fee in
    every denom; for a fee set, which names a denom once, any two shares differ by
    less than their number.
   */
  method SplitFeesEvenly(n: nat, fees: seq<Coin>) returns (parts: seq<Coins>)
    requires n > 0
    ensures IsSplit(parts, n, fees) && forall i :: 0 <= i < n ==> NoZero(parts[i])
  {
    parts := seq(n, _ => map[]);
    forall d ensures Shared(parts, d) == 0 {
      NothingShared(parts, d);
    }
    for k := 0 to |fees|
      invariant Split(parts, n, fees, k)
    {
      ghost var was := parts;
      var equal, remainder := fees[k].amount / n, fees[k].amount % n;
      parts := AddToEach(parts, fees[k].denom, equal + remainder, equal);
      SplitNext(was, parts, n, fees, k);
    }
    assert fees[..|fees|] == fees;
  }

  // The hand-out.

  type Key = seq<int>

  datatype PendingRefund = PendingRefund(payer: string, fees: Coins)

  function Refunds(ms: seq<Msg>): seq<Msg> {
    if ms == [] then []
    else
      var before, last := Refunds(ms[..|ms| - 1]), ms[|ms| - 1];
      if last.Refund? then before + [last] else before
  }

  lemma RefundsNext(ms: seq<Msg>, k: nat)
    requires k < |ms|
    ensures Refunds(ms[..k + 1]) == if ms[k].Refund? then Refunds(ms[..k]) + [ms[k]] else Refunds(ms[..k])
  {
    assert ms[..k + 1][..k] == ms[..k];
  }

  lemma {:induction false} RefundsGrow(ms: seq<Msg>, k: nat)
    requires k <= |ms|
    ensures Refunds(ms[..k]) <= Refunds(ms)
    decreases |ms| - k
  {
    if k == |ms| {
      assert ms[..k] == ms;
    } else {
      RefundsNext(ms, k);
      RefundsGrow(ms, k + 1);
    }
  }

  /** The index of the last of `reqs` that is stored under `key`. */
  ghost predicate IsLast(reqs: seq<Msg>, keyOf: Msg -> Key, key: Key, j: nat) {
    j < |reqs| && keyOf(reqs[j]) == key && forall i :: j < i < |reqs| ==> keyOf(reqs[i]) != key
  }

  /** What is stored after the hand-out: under each key the share of its last request, nothing else changed. */
  ghost predicate HandedOut(was: map<Key, PendingRefund>, now: map<Key, PendingRefund>,
                            reqs: seq<Msg>, parts: seq<Coins>, keyOf: Msg -> Key, payer: string)
    requires |reqs| <= |parts|
  {
    && (forall key, j: nat :: IsLast(reqs, keyOf, key, j) ==> key in now && now[key] == PendingRefund(payer, parts[j]))
    && (forall key :: !Requested(reqs, keyOf, key) ==> (key in now <==> key in was) && (key in was ==> now[key] == was[key]))
  }

  ghost predicate Requested(reqs: seq<Msg>, keyOf: Msg -> Key, key: Key) {
    exists j :: 0 <= j < |reqs| && keyOf(reqs[j]) == key
  }

  lemma HandOutNext(was: map<Key, PendingRefund>, now: map<Key, PendingRefund>, reqs: seq<Msg>, m: Msg,
                    parts: seq<Coins>, keyOf: Msg -> Key, payer: string)
    requires |reqs| < |parts| && HandedOut(was, now, reqs, parts, keyOf, payer)
    ensures HandedOut(was, now[keyOf(m) := PendingRefund(payer, parts[|reqs|])], reqs + [m], parts, keyOf, payer)
  {
    var all, next := reqs + [m], now[keyOf(m) := PendingRefund(payer, parts[|reqs|])];
    forall key, j: nat | IsLast(all, keyOf, key, j) ensures key in next && next[key] == PendingRefund(payer, parts[j]) {
      assert all[|reqs|] == m;
      if j < |reqs| {
        assert forall i :: j < i < |reqs| ==> all[i] == reqs[i];
        assert IsLast(reqs, keyOf, key, j);
      }
    }
    forall key | !Requested(all, keyOf, key)
      ensures (key in next <==> key in was) && (key in was ==> next[key] == was[key])
    {
      assert all[|reqs|] == m;
      assert forall j :: 0 <= j < |reqs| ==> all[j] == reqs[j];
    }
  }

  /** The requests before the first one whose record is not valid have got their shares. */
  ghost predicate StoppedAt(was: map<Key, PendingRefund>, now: map<Key, PendingRefund>, reqs: seq<Msg>,
                            parts: seq<Coins>, keyOf: Msg -> Key, payer: string, valid: PendingRefund -> bool)
    requires |reqs| <= |parts|
  {
    exists k :: 0 <= k < |reqs| && !valid(PendingRefund(payer, parts[k])) && HandedOut(was, now, reqs[..k], parts, keyOf, payer)
  }

  class RewardStore {
    var pending: map<Key, PendingRefund>

    /**
      The refund part of `AnteHandle`. The shares are handed out first to first and
      never run out; the store keeps one record per request key. A record that does
      not pass its own validation ends the loop with an error.
     */
    method RecordRefunds(ms: seq<Msg>, fees: seq<Coin>, payer: string, keyOf: Msg -> Key, valid: PendingRefund -> bool)
        returns (ok: bool, ghost parts: seq<Coins>)
      modifies this
      ensures fees == [] || Refunds(ms) == [] ==> ok && pending == old(pending)
      ensures fees != [] && Refunds(ms) != [] ==>
        && IsSplit(parts, |Refunds(ms)|, fees)
        && (ok <==> forall i :: 0 <= i < |parts| ==> valid(PendingRefund(payer, parts[i])))
        && (ok ==> HandedOut(old(pending), pending, Refunds(ms), parts, keyOf, payer))
        && (!ok ==> StoppedAt(old(pending), pending, Refunds(ms), parts, keyOf, payer, valid))
    {
      ok, parts := true, [];
      var n := CountRefunds(ms);
      if n == 0 || fees == [] {
        return;
      }
      var splitFees := SplitFeesEvenly(n, fees);
      parts := splitFees;
      assert ms[..0] == [];
      for k := 0 to |ms|
        invariant var done := |Refunds(ms[..k])|; done <= n && splitFees == parts[done..]
        invariant forall i :: 0 <= i < |Refunds(ms[..k])| ==> valid(PendingRefund(payer, parts[i]))
        invariant HandedOut(old(pending), pending, Refunds(ms[..k]), parts, keyOf, payer)
      {
        ghost var before, reqs := pending, Refunds(ms[..k]);
        assert Refunds(ms[..k + 1]) <= Refunds(ms) && Refunds(ms[..k + 1]) == (if ms[k].Refund? then reqs + [ms[k]] else reqs) by {
          RefundsNext(ms, k);
          RefundsGrow(ms, k + 1);
        }
        if ms[k].Refund? {
          var record := PendingRefund(payer, splitFees[0]);
          if !valid(record) {
            assert reqs == Refunds(ms)[..|reqs|];
            return false, parts;
          }
          pending := pending[keyOf(ms[k]) := record];
          splitFees := splitFees[1..];
          HandOutNext(old(pending), before, reqs, ms[k], parts, keyOf, payer);
        }
      }
      assert ms[..|ms|] == ms;
    }
  }

  method CountRefunds(ms: seq<Msg>) returns (n: nat)
    ensures n == |Refunds(ms)|
  {
    n := 0;
    assert ms[..0] == [];
    for k := 0 to |ms|
      invariant n == |Refunds(ms[..k])|
    {
      RefundsNext(ms, k);
      if ms[k].Refund? {
        n := n + 1;
      }
    }
    assert ms[..|ms|] == ms;
  }
}
