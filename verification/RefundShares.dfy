/** What becomes of the fee when refund requests share a key in the store. */
module RefundShares {
  import opened Ledger
  import opened MessageTree
  import opened FeeRefunds

  predicate DistinctKeys(reqs: seq<Msg>, keyOf: Msg -> Key) {
    forall i, j :: 0 <= i < j < |reqs| ==> keyOf(reqs[i]) != keyOf(reqs[j])
  }

  lemma {:induction false} LastWithKey(reqs: seq<Msg>, keyOf: Msg -> Key, i: nat) returns (last: nat)
    requires i < |reqs|
    ensures i <= last && IsLast(reqs, keyOf, keyOf(reqs[i]), last)
    decreases |reqs| - i
  {
    if j :| i < j < |reqs| && keyOf(reqs[j]) == keyOf(reqs[i]) {
      last := LastWithKey(reqs, keyOf, j);
    } else {
      last := i;
    }
  }

  /** With distinct keys every request finds its own share in the store. */
  lemma OwnShare(was: map<Key, PendingRefund>, now: map<Key, PendingRefund>, reqs: seq<Msg>,
                 parts: seq<Coins>, keyOf: Msg -> Key, payer: string, i: nat)
    requires |reqs| <= |parts| && HandedOut(was, now, reqs, parts, keyOf, payer)
    requires DistinctKeys(reqs, keyOf) && i < |reqs|
    ensures keyOf(reqs[i]) in now && now[keyOf(reqs[i])] == PendingRefund(payer, parts[i])
  {
    assert IsLast(reqs, keyOf, keyOf(reqs[i]), i);
  }

  // The amounts of one denom, by key.

  /** What the requests leave under their keys, the later one over the earlier one. */
  ghost function Records(reqs: seq<Msg>, parts: seq<Coins>, keyOf: Msg -> Key, d: Denom): map<Key, Coin>
    requires |reqs| <= |parts|
  {
    if reqs == [] then map[]
    else
      var n := |reqs| - 1;
      Records(reqs[..n], parts, keyOf, d)[keyOf(reqs[n]) := Coin(d, AmountIn(parts[n], d))]
  }

  /** What the store holds under the requests' keys. */
  ghost function Stored(now: map<Key, PendingRefund>, reqs: seq<Msg>, keyOf: Msg -> Key, d: Denom): map<Key, Coin> {
    map key | key in now && Requested(reqs, keyOf, key) :: Coin(d, AmountIn(now[key].fees, d))
  }

  lemma {:induction false} RecordAt(reqs: seq<Msg>, parts: seq<Coins>, keyOf: Msg -> Key, d: Denom, j: nat)
    requires |reqs| <= |parts| && j < |reqs| && IsLast(reqs, keyOf, keyOf(reqs[j]), j)
    ensures var r := Records(reqs, parts, keyOf, d);
      keyOf(reqs[j]) in r && r[keyOf(reqs[j])] == Coin(d, AmountIn(parts[j], d))
  {
    var n := |reqs| - 1;
    if j < n {
      var front := reqs[..n];
      assert keyOf(reqs[n]) != keyOf(reqs[j]);
      assert forall i :: j <= i < n ==> front[i] == reqs[i];
      RecordAt(front, parts, keyOf, d, j);
    }
  }

  lemma {:induction false} RecordedKeys(reqs: seq<Msg>, parts: seq<Coins>, keyOf: Msg -> Key, d: Denom, key: Key)
    requires |reqs| <= |parts|
    ensures key in Records(reqs, parts, keyOf, d) <==> Requested(reqs, keyOf, key)
  {
    if reqs != [] {
      var n := |reqs| - 1;
      RecordedKeys(reqs[..n], parts, keyOf, d, key);
      assert forall j :: 0 <= j < n ==> reqs[..n][j] == reqs[j];
    }
  }

  lemma StoredIsRecords(was: map<Key, PendingRefund>, now: map<Key, PendingRefund>, reqs: seq<Msg>,
                        parts: seq<Coins>, keyOf: Msg -> Key, payer: string, d: Denom)
    requires |reqs| <= |parts| && HandedOut(was, now, reqs, parts, keyOf, payer)
    ensures Stored(now, reqs, keyOf, d) == Records(reqs, parts, keyOf, d)
  {
    var stored, records := Stored(now, reqs, keyOf, d), Records(reqs, parts, keyOf, d);
    forall key ensures key in stored <==> key in records {
      RecordedKeys(reqs, parts, keyOf, d, key);
      if Requested(reqs, keyOf, key) {
        var i :| 0 <= i < |reqs| && keyOf(reqs[i]) == key;
        var last := LastWithKey(reqs, keyOf, i);
      }
    }
    forall key | key in records ensures stored[key] == records[key] {
      RecordedKeys(reqs, parts, keyOf, d, key);
      var i :| 0 <= i < |reqs| && keyOf(reqs[i]) == key;
      var last := LastWithKey(reqs, keyOf, i);
      RecordAt(reqs, parts, keyOf, d, last);
    }
  }

  /** A request whose key comes up again later had a share of nothing. */
  ghost predicate NothingLost(reqs: seq<Msg>, parts: seq<Coins>, keyOf: Msg -> Key, d: Denom)
    requires |reqs| <= |parts|
  {
    forall i, j :: 0 <= i < j < |reqs| && keyOf(reqs[i]) == keyOf(reqs[j]) ==> AmountIn(parts[i], d) == 0
  }

  lemma TotalReplace(m: map<Key, Coin>, key: Key, c: Coin, d: Denom)
    requires key in m
    ensures Total(m[key := c], d) + AmountOf(m[key], d) == Total(m, d) + AmountOf(c, d)
  {
    TotalRemove(m, key, d);
    TotalRemove(m[key := c], key, d);
    assert m[key := c] - {key} == m - {key};
  }

  lemma NothingLostNext(reqs: seq<Msg>, n: nat, parts: seq<Coins>, keyOf: Msg -> Key, d: Denom, last: nat)
    requires n < |reqs| <= |parts| && IsLast(reqs[..n], keyOf, keyOf(reqs[n]), last)
    ensures NothingLost(reqs[..n + 1], parts, keyOf, d)
            <==> NothingLost(reqs[..n], parts, keyOf, d) && AmountIn(parts[last], d) == 0
  {
    var front, all := reqs[..n], reqs[..n + 1];
    assert forall i :: 0 <= i < n ==> all[i] == front[i];
    assert all[n] == reqs[n] && keyOf(all[last]) == keyOf(all[n]);
    if NothingLost(front, parts, keyOf, d) && AmountIn(parts[last], d) == 0 {
      forall i, j | 0 <= i < j <= n && keyOf(all[i]) == keyOf(all[j]) ensures AmountIn(parts[i], d) == 0 {
        if j == n && i < last {
          assert keyOf(front[i]) == keyOf(front[last]);
        }
      }
    }
  }

  lemma NothingLostFresh(reqs: seq<Msg>, n: nat, parts: seq<Coins>, keyOf: Msg -> Key, d: Denom)
    requires n < |reqs| <= |parts| && !Requested(reqs[..n], keyOf, keyOf(reqs[n]))
    ensures NothingLost(reqs[..n + 1], parts, keyOf, d) <==> NothingLost(reqs[..n], parts, keyOf, d)
  {
    var front, all := reqs[..n], reqs[..n + 1];
    assert forall i :: 0 <= i < n ==> all[i] == front[i] && keyOf(front[i]) != keyOf(reqs[n]);
  }

  lemma RecordsNext(reqs: seq<Msg>, k: nat, parts: seq<Coins>, keyOf: Msg -> Key, d: Denom)
    requires k < |reqs| <= |parts|
    ensures Records(reqs[..k + 1], parts, keyOf, d)
            == Records(reqs[..k], parts, keyOf, d)[keyOf(reqs[k]) := Coin(d, AmountIn(parts[k], d))]
  {
    assert reqs[..k + 1][..k] == reqs[..k];
  }

  /** The amount that the `k`-th request writes over. */
  ghost function LostAt(reqs: seq<Msg>, k: nat, parts: seq<Coins>, keyOf: Msg -> Key, d: Denom): nat
    requires k < |reqs| <= |parts|
  {
    var before := Records(reqs[..k], parts, keyOf, d);
    if keyOf(reqs[k]) in before then before[keyOf(reqs[k])].amount else 0
  }

  ghost function Lost(reqs: seq<Msg>, n: nat, parts: seq<Coins>, keyOf: Msg -> Key, d: Denom): nat
    requires n <= |reqs| <= |parts|
  {
    if n == 0 then 0 else Lost(reqs, n - 1, parts, keyOf, d) + LostAt(reqs, n - 1, parts, keyOf, d)
  }

  lemma {:induction false} RecordsInDenom(reqs: seq<Msg>, parts: seq<Coins>, keyOf: Msg -> Key, d: Denom, key: Key)
    requires |reqs| <= |parts| && key in Records(reqs, parts, keyOf, d)
    ensures Records(reqs, parts, keyOf, d)[key].denom == d
  {
    var n := |reqs| - 1;
    if key != keyOf(reqs[n]) {
      RecordsInDenom(reqs[..n], parts, keyOf, d, key);
    }
  }

  /** One more request adds its share, and takes away what it writes over. */
  lemma TotalNext(reqs: seq<Msg>, k: nat, parts: seq<Coins>, keyOf: Msg -> Key, d: Denom)
    requires k < |reqs| <= |parts|
    ensures Total(Records(reqs[..k + 1], parts, keyOf, d), d) + LostAt(reqs, k, parts, keyOf, d)
            == Total(Records(reqs[..k], parts, keyOf, d), d) + AmountIn(parts[k], d)
  {
    var key, c := keyOf(reqs[k]), Coin(d, AmountIn(parts[k], d));
    var before := Records(reqs[..k], parts, keyOf, d);
    RecordsNext(reqs, k, parts, keyOf, d);
    if key in before {
      RecordsInDenom(reqs[..k], parts, keyOf, d, key);
      TotalReplace(before, key, c, d);
    } else {
      TotalInsert(before, key, c, d);
    }
  }

  lemma {:induction false} RecordsTotal(reqs: seq<Msg>, n: nat, parts: seq<Coins>, keyOf: Msg -> Key, d: Denom)
    requires n <= |reqs| <= |parts|
    ensures Total(Records(reqs[..n], parts, keyOf, d), d) + Lost(reqs, n, parts, keyOf, d) == Shared(parts[..n], d)
  {
    if n > 0 {
      RecordsTotal(reqs, n - 1, parts, keyOf, d);
      TotalNext(reqs, n - 1, parts, keyOf, d);
      assert parts[..n][..n - 1] == parts[..n - 1];
    }
  }

  lemma NothingLostStep(reqs: seq<Msg>, k: nat, parts: seq<Coins>, keyOf: Msg -> Key, d: Denom)
    requires k < |reqs| <= |parts|
    ensures NothingLost(reqs[..k + 1], parts, keyOf, d)
            <==> NothingLost(reqs[..k], parts, keyOf, d) && LostAt(reqs, k, parts, keyOf, d) == 0
  {
    var front, key := reqs[..k], keyOf(reqs[k]);
    RecordedKeys(front, parts, keyOf, d, key);
    if Requested(front, keyOf, key) {
      var i :| 0 <= i < k && keyOf(front[i]) == key;
      var last := LastWithKey(front, keyOf, i);
      RecordAt(front, parts, keyOf, d, last);
      NothingLostNext(reqs, k, parts, keyOf, d, last);
    } else {
      NothingLostFresh(reqs, k, parts, keyOf, d);
    }
  }

  lemma {:induction false} NothingLostIff(reqs: seq<Msg>, n: nat, parts: seq<Coins>, keyOf: Msg -> Key, d: Denom)
    requires n <= |reqs| <= |parts|
    ensures Lost(reqs, n, parts, keyOf, d) == 0 <==> NothingLost(reqs[..n], parts, keyOf, d)
  {
    if n > 0 {
      NothingLostIff(reqs, n - 1, parts, keyOf, d);
      NothingLostStep(reqs, n - 1, parts, keyOf, d);
    }
  }

  /** The stored refunds never exceed the fee, and fall short of it exactly if a share that was not zero is overwritten. */
  lemma StoredAtMostPaid(was: map<Key, PendingRefund>, now: map<Key, PendingRefund>, reqs: seq<Msg>, parts: seq<Coins>,
                         fees: seq<Coin>, keyOf: Msg -> Key, payer: string, d: Denom)
    requires |reqs| == |parts| && Shared(parts, d) == Paid(fees, d) && HandedOut(was, now, reqs, parts, keyOf, payer)
    ensures Total(Stored(now, reqs, keyOf, d), d) <= Paid(fees, d)
    ensures Total(Stored(now, reqs, keyOf, d), d) == Paid(fees, d) <==> NothingLost(reqs, parts, keyOf, d)
  {
    StoredIsRecords(was, now, reqs, parts, keyOf, payer, d);
    RecordsTotal(reqs, |reqs|, parts, keyOf, d);
    NothingLostIff(reqs, |reqs|, parts, keyOf, d);
    assert reqs[..|reqs|] == reqs && parts[..|reqs|] == parts;
  }

  // The condition in terms of the fee and the keys.

  lemma {:induction false} EvenSum(parts: seq<Coins>, k: nat, d: Denom, n: nat)
    requires 2 <= |parts| && 1 <= k <= |parts| && Even(parts, n, d)
    ensures Shared(parts[..k], d) == AmountIn(parts[0], d) + (k - 1) * AmountIn(parts[1], d)
  {
    assert parts[..k][..k - 1] == parts[..k - 1];
    var e := AmountIn(parts[1], d);
    if k > 1 {
      EvenSum(parts, k - 1, d, n);
      assert AmountIn(parts[k - 1], d) == e && (k - 1) * e == (k - 2) * e + e;
    }
  }

  /** With a fee of at least one unit per request every share is positive; with less, only the first is. */
  lemma WhichArePositive(parts: seq<Coins>, d: Denom, paid: nat)
    requires 2 <= |parts| && Even(parts, |parts|, d) && Shared(parts, d) == paid
    ensures AmountIn(parts[0], d) > 0 <==> paid > 0
    ensures forall i :: 0 < i < |parts| ==> (AmountIn(parts[i], d) > 0 <==> paid >= |parts|)
  {
    var n, first, e := |parts|, AmountIn(parts[0], d), AmountIn(parts[1], d);
    EvenSum(parts, n, d, n);
    assert parts[..n] == parts;
    TimesPositive(n - 1, e);
  }

  lemma {:induction false} TimesPositive(m: nat, e: nat)
    ensures if e == 0 then m * e == 0 else m * e >= m
  {
    if m > 0 {
      TimesPositive(m - 1, e);
      assert m * e == (m - 1) * e + e;
    }
  }

  /**
    For a fee set, the stored refunds of a denom add up to the fee if and only if no two
    requests share a key, or, when there is not a unit for each, no later request shares
    the key of the first.
   */
  lemma ConservedIff(was: map<Key, PendingRefund>, now: map<Key, PendingRefund>, reqs: seq<Msg>, parts: seq<Coins>,
                     fees: seq<Coin>, keyOf: Msg -> Key, payer: string, d: Denom)
    requires IsSplit(parts, |reqs|, fees) && DistinctDenoms(fees) && HandedOut(was, now, reqs, parts, keyOf, payer)
    ensures Total(Stored(now, reqs, keyOf, d), d) == Paid(fees, d)
      <==> if Paid(fees, d) >= |reqs| then DistinctKeys(reqs, keyOf)
           else Paid(fees, d) == 0 || forall j :: 0 < j < |reqs| ==> keyOf(reqs[0]) != keyOf(reqs[j])
  {
    StoredAtMostPaid(was, now, reqs, parts, fees, keyOf, payer, d);
    if |reqs| >= 2 {
      WhichArePositive(parts, d, Paid(fees, d));
      LossCondition(reqs, parts, keyOf, d, Paid(fees, d));
    }
  }

  lemma LossCondition(reqs: seq<Msg>, parts: seq<Coins>, keyOf: Msg -> Key, d: Denom, paid: nat)
    requires 2 <= |reqs| == |parts|
    requires AmountIn(parts[0], d) > 0 <==> paid > 0
    requires forall i :: 0 < i < |parts| ==> (AmountIn(parts[i], d) > 0 <==> paid >= |parts|)
    ensures NothingLost(reqs, parts, keyOf, d)
      <==> if paid >= |reqs| then DistinctKeys(reqs, keyOf)
           else paid == 0 || forall j :: 0 < j < |reqs| ==> keyOf(reqs[0]) != keyOf(reqs[j])
  {
  }

  lemma FiveInTwo(parts: seq<Coins>, d: Denom)
    requires IsSplit(parts, 2, [Coin(d, 5)])
    ensures AmountIn(parts[0], d) == 3 && AmountIn(parts[1], d) == 2 && Paid([Coin(d, 5)], d) == 5
  {
    assert Paid([Coin(d, 5)], d) == Paid([], d) + 5;
    assert Even(parts, 2, d);
    EvenSum(parts, 2, d, 2);
    assert parts[..2] == parts;
  }

  /** Two requests that encode alike, for a fee of 5: shares of 3 and 2, and one record of 2. */
  lemma SharedKeyLoses(was: map<Key, PendingRefund>, now: map<Key, PendingRefund>, reqs: seq<Msg>, parts: seq<Coins>,
                       keyOf: Msg -> Key, payer: string, d: Denom)
    requires |reqs| == 2 && keyOf(reqs[0]) == keyOf(reqs[1])
    requires IsSplit(parts, 2, [Coin(d, 5)]) && HandedOut(was, now, reqs, parts, keyOf, payer)
    ensures Total(Stored(now, reqs, keyOf, d), d) == 2 && Paid([Coin(d, 5)], d) == 5
  {
    assert AmountIn(parts[1], d) == 2 && Paid([Coin(d, 5)], d) == 5 by { FiveInTwo(parts, d); }
    StoredIsRecords(was, now, reqs, parts, keyOf, payer, d);
    TwoRecords(reqs, parts, keyOf, d);
  }

  lemma TwoRecords(reqs: seq<Msg>, parts: seq<Coins>, keyOf: Msg -> Key, d: Denom)
    requires |reqs| == 2 <= |parts| && keyOf(reqs[0]) == keyOf(reqs[1])
    ensures Total(Records(reqs, parts, keyOf, d), d) == AmountIn(parts[1], d)
  {
    var key, records := keyOf(reqs[0]), Records(reqs, parts, keyOf, d);
    assert reqs[..1][..0] == [] && Records(reqs[..1], parts, keyOf, d).Keys == {key};
    TotalRemove(records, key, d);
    assert records - {key} == map[];
  }
}
