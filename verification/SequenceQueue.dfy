/**
  `SequenceKVQueue`: a bounded list in a store of its own, kept under ascending
  sequence numbers, with the length and the next number stored beside it.
 */
module SequenceQueues {
  import opened Wrappers
  import opened ByteStrings
  import opened ByteOrder
  import opened StoreKeys

  datatype Stored<V> = Raw(bytes: Bytes) | Val(value: V)

  type Store<V> = map<Bytes, Stored<V>>

  // "size", "sequence", "queue"
  const SIZE_KEY: Bytes := [0x73, 0x69, 0x7a, 0x65]
  const SEQUENCE_KEY: Bytes := [0x73, 0x65, 0x71, 0x75, 0x65, 0x6e, 0x63, 0x65]
  const QUEUE_KEY: Bytes := [0x71, 0x75, 0x65, 0x75, 0x65]

  /** What `Iterator(queueKey)` iterates over. */
  const QUEUE_PREFIX: Bytes := QUEUE_KEY + [DELIMITER]

  function SeqKey(n: nat): Bytes {
    QUEUE_PREFIX + Be8(n)
  }

  function Number<V>(s: Store<V>, k: Bytes): nat {
    if k in s && s[k].Raw? then FromBigEndian(s[k].bytes) else 0
  }

  ghost function QueueKeys<V>(s: Store<V>): set<Bytes> {
    set k | k in s && HasPrefix(k, QUEUE_PREFIX)
  }

  ghost function Queue<V>(s: Store<V>): seq<Bytes> {
    Listing(QueueKeys(s))
  }

  ghost predicate IsSeqKey(k: Bytes, below: nat) {
    exists n :: 0 <= n < below && k == SeqKey(n)
  }

  /**
    Queue keys carry values under numbers below `seqNo`; both counters are stored. One
    equation, which the verifier takes as a whole.
   */
  ghost predicate ValidStore<V>(s: Store<V>, seqNo: nat, size: nat) {
    (&& seqNo < UINT64 && size < UINT64
     && (forall k :: k in s && HasPrefix(k, QUEUE_PREFIX) ==> s[k].Val? && IsSeqKey(k, seqNo))
     && size == |Queue(s)|
     && Number(s, SIZE_KEY) == size && Number(s, SEQUENCE_KEY) == seqNo) == true
  }

  /** The list the queue stands for, oldest first. */
  ghost function Contents<V>(s: Store<V>): (r: seq<V>)
    requires forall k :: k in s && HasPrefix(k, QUEUE_PREFIX) ==> s[k].Val?
    ensures |r| == |Queue(s)|
  {
    var q := Queue(s);
    seq(|q|, i requires 0 <= i < |q| => assert q[i] in q; s[q[i]].value)
  }

  lemma KeysAreApart()
    ensures SIZE_KEY != SEQUENCE_KEY && !HasPrefix(SIZE_KEY, QUEUE_PREFIX) && !HasPrefix(SEQUENCE_KEY, QUEUE_PREFIX)
  {
    assert QUEUE_PREFIX[0] == 0x71 && SIZE_KEY[0] == 0x73 && SEQUENCE_KEY[0] == 0x73;
    assert |SEQUENCE_KEY| >= |QUEUE_PREFIX| && SEQUENCE_KEY[..|QUEUE_PREFIX|][0] == 0x73;
  }

  lemma SeqKeyOrder(n: nat, m: nat)
    requires n < UINT64 && m < UINT64
    ensures Less(SeqKey(n), SeqKey(m)) <==> n < m
    ensures HasPrefix(SeqKey(n), QUEUE_PREFIX)
  {
    LessTotal(QUEUE_PREFIX, QUEUE_PREFIX);
    LessOfConcat(QUEUE_PREFIX, QUEUE_PREFIX, Be8(n), Be8(m));
    Be8Order(n, m);
  }

  /** The store after `Enqueue` wrote the value and the two counters. */
  function Enqueued<V>(s: Store<V>, seqNo: nat, v: V, size': nat, seqNo': nat): Store<V>
  {
    s[SeqKey(seqNo) := Val(v)][SIZE_KEY := Raw(Be8(size'))][SEQUENCE_KEY := Raw(Be8(seqNo'))]
  }

  /** Among the queue keys, only the new one changed. */
  lemma EnqueuedEntry<V>(s: Store<V>, seqNo: nat, v: V, size': nat, seqNo': nat, k: Bytes)
    requires HasPrefix(k, QUEUE_PREFIX)
    ensures var s' := Enqueued(s, seqNo, v, size', seqNo');
      && (k in s' <==> k in s || k == SeqKey(seqNo))
      && (k in s' ==> s'[k] == if k == SeqKey(seqNo) then Val(v) else s[k])
  {
    KeysAreApart();
  }

  lemma NewKeyIsLast<V>(s: Store<V>, seqNo: nat, size: nat, x: Bytes)
    requires ValidStore(s, seqNo, size) && x in Queue(s)
    ensures Less(x, SeqKey(seqNo)) && x != SeqKey(seqNo)
  {
    assert IsSeqKey(x, seqNo);
    var n :| 0 <= n < seqNo && x == SeqKey(n);
    SeqKeyOrder(n, seqNo);
    LessTotal(x, x);
  }

  lemma EnqueuedQueue<V>(s: Store<V>, seqNo: nat, size: nat, v: V, size': nat, seqNo': nat)
    requires ValidStore(s, seqNo, size)
    ensures SeqKey(seqNo) !in Queue(s) && Queue(Enqueued(s, seqNo, v, size', seqNo')) == Queue(s) + [SeqKey(seqNo)]
  {
    var s', q, k := Enqueued(s, seqNo, v, size', seqNo'), Queue(s), SeqKey(seqNo);
    SeqKeyOrder(seqNo, seqNo);
    forall x | x in q ensures Less(x, k) && x != k {
      NewKeyIsLast(s, seqNo, size, x);
    }
    AppendSorted(q, k);
    forall x ensures x in Queue(s') <==> x in q + [k] {
      if HasPrefix(x, QUEUE_PREFIX) {
        EnqueuedEntry(s, seqNo, v, size', seqNo', x);
      }
    }
    SortedUnique(Queue(s'), q + [k]);
  }

  /** The new key is greater than all others: the value goes to the end of the list. */
  lemma EnqueueAppends<V>(s: Store<V>, seqNo: nat, size: nat, v: V, size': nat, seqNo': nat)
    requires ValidStore(s, seqNo, size) && size' < UINT64 && seqNo' < UINT64
    ensures var s' := Enqueued(s, seqNo, v, size', seqNo');
      && (forall k :: k in s' && HasPrefix(k, QUEUE_PREFIX) ==> s'[k].Val?)
      && Queue(s') == Queue(s) + [SeqKey(seqNo)]
      && Contents(s') == Contents(s) + [v]
  {
    var s', q, k := Enqueued(s, seqNo, v, size', seqNo'), Queue(s), SeqKey(seqNo);
    EnqueuedQueue(s, seqNo, size, v, size', seqNo');
    forall x | HasPrefix(x, QUEUE_PREFIX)
      ensures (x in s' <==> x in s || x == k) && (x in s' ==> s'[x] == if x == k then Val(v) else s[x])
    {
      EnqueuedEntry(s, seqNo, v, size', seqNo', x);
    }
    forall i | 0 <= i <= |q| ensures (q + [k])[i] in s' && HasPrefix((q + [k])[i], QUEUE_PREFIX) {
      assert (q + [k])[i] in Queue(s');
    }
    assert Contents(s') == Contents(s) + [v];
  }

  /** `seqNo++` on a uint64. */
  function NextNo(n: nat): nat {
    if n + 1 == UINT64 then 0 else n + 1
  }

  lemma EnqueuedNumbers<V>(s: Store<V>, seqNo: nat, v: V, size': nat, seqNo': nat)
    requires size' < UINT64 && seqNo' < UINT64
    ensures var s' := Enqueued(s, seqNo, v, size', seqNo');
      Number(s', SIZE_KEY) == size' && Number(s', SEQUENCE_KEY) == seqNo'
  {
    KeysAreApart();
    Be8Order(size', seqNo');
    Be8Order(seqNo', size');
  }

  lemma EnqueuedKeys<V>(s: Store<V>, seqNo: nat, v: V, size': nat, k: Bytes)
    requires forall x :: x in s && HasPrefix(x, QUEUE_PREFIX) ==> IsSeqKey(x, seqNo)
    requires k in Enqueued(s, seqNo, v, size', seqNo + 1) && HasPrefix(k, QUEUE_PREFIX)
    ensures IsSeqKey(k, seqNo + 1)
  {
    KeysAreApart();
    if k != SeqKey(seqNo) {
      assert IsSeqKey(k, seqNo);
    }
  }

  lemma EnqueuedSize<V>(s: Store<V>, seqNo: nat, size: nat, v: V, s': Store<V>)
    requires ValidStore(s, seqNo, size) && size + 1 < UINT64 && seqNo + 1 < UINT64
    requires s' == Enqueued(s, seqNo, v, size + 1, seqNo + 1)
    ensures |Queue(s')| == size + 1 && forall k :: k in s' && HasPrefix(k, QUEUE_PREFIX) ==> s'[k].Val?
  {
    EnqueueAppends(s, seqNo, size, v, size + 1, seqNo + 1);
  }

  lemma EnqueueStaysValid<V>(s: Store<V>, seqNo: nat, size: nat, v: V, s': Store<V>)
    requires ValidStore(s, seqNo, size) && size + 1 < UINT64 && seqNo + 1 < UINT64
    requires s' == Enqueued(s, seqNo, v, size + 1, seqNo + 1)
    ensures ValidStore(s', seqNo + 1, size + 1)
  {
    EnqueuedSize(s, seqNo, size, v, s');
    assert Number(s', SIZE_KEY) == size + 1 && Number(s', SEQUENCE_KEY) == seqNo + 1 by {
      EnqueuedNumbers(s, seqNo, v, size + 1, seqNo + 1);
    }
    forall k | k in s' && HasPrefix(k, QUEUE_PREFIX) ensures IsSeqKey(k, seqNo + 1) {
      EnqueuedKeys(s, seqNo, v, size + 1, k);
    }
  }

  /** The stored counters are right, and stay so unless the sequence number wraps to zero. */
  lemma EnqueueKeepsValid<V>(s: Store<V>, seqNo: nat, size: nat, v: V)
    requires ValidStore(s, seqNo, size) && size + 1 < UINT64
    ensures ValidStore(Enqueued(s, seqNo, v, size + 1, NextNo(seqNo)), NextNo(seqNo), size + 1) <==> seqNo + 1 < UINT64
  {
    if seqNo + 1 < UINT64 {
      EnqueueStaysValid(s, seqNo, size, v, Enqueued(s, seqNo, v, size + 1, NextNo(seqNo)));
    } else {
      WrapBreaks(s, seqNo, v, size + 1);
    }
  }

  lemma WrapBreaks<V>(s: Store<V>, seqNo: nat, v: V, size': nat)
    requires seqNo < UINT64
    ensures !ValidStore(Enqueued(s, seqNo, v, size', 0), 0, size')
  {
    KeysAreApart();
    SeqKeyOrder(seqNo, seqNo);
    var s' := Enqueued(s, seqNo, v, size', 0);
    assert SeqKey(seqNo) in s' && !IsSeqKey(SeqKey(seqNo), 0);
  }

  /** The store after `Dequeue` deleted a key and wrote the length. */
  function Dequeued<V>(s: Store<V>, k: Bytes, size': nat): Store<V>
  {
    (s - {k})[SIZE_KEY := Raw(Be8(size'))]
  }

  lemma DequeuedQueue<V>(s: Store<V>, n: nat, size': nat)
    requires n < |Queue(s)|
    ensures Queue(Dequeued(s, Queue(s)[n], size')) == RemoveAt(Queue(s), n)
  {
    var q := Queue(s);
    var s' := Dequeued(s, q[n], size');
    KeysAreApart();
    forall k ensures k in Queue(s') <==> k in RemoveAt(q, n) {
      InRemoveAt(q, n, k);
    }
    InRemoveAt(q, n, q[n]);
    SortedUnique(Queue(s'), RemoveAt(q, n));
  }

  lemma DequeuedSize<V>(s: Store<V>, n: nat, size': nat)
    requires n < |Queue(s)|
    ensures |Queue(Dequeued(s, Queue(s)[n], size'))| == |Queue(s)| - 1
  {
    DequeuedQueue(s, n, size');
  }

  lemma DequeuedNumbers<V>(s: Store<V>, k: Bytes, size': nat)
    requires size' < UINT64 && HasPrefix(k, QUEUE_PREFIX)
    ensures var s' := Dequeued(s, k, size'); Number(s', SIZE_KEY) == size' && Number(s', SEQUENCE_KEY) == Number(s, SEQUENCE_KEY)
  {
    KeysAreApart();
    Be8Order(size', 0);
  }

  lemma DequeuedEntry<V>(s: Store<V>, k: Bytes, size': nat, x: Bytes)
    requires x in Dequeued(s, k, size') && HasPrefix(x, QUEUE_PREFIX)
    ensures x in s && Dequeued(s, k, size')[x] == s[x]
  {
    KeysAreApart();
  }

  lemma DequeueKeepsValid<V>(s: Store<V>, seqNo: nat, size: nat, n: nat)
    requires ValidStore(s, seqNo, size) && n < size
    ensures ValidStore(Dequeued(s, Queue(s)[n], size - 1), seqNo, size - 1)
  {
    var k := Queue(s)[n];
    var s' := Dequeued(s, k, size - 1);
    DequeuedSize(s, n, size - 1);
    assert Number(s', SIZE_KEY) == size - 1 && Number(s', SEQUENCE_KEY) == seqNo by {
      assert k in Queue(s);
      DequeuedNumbers(s, k, size - 1);
    }
    forall x | x in s' && HasPrefix(x, QUEUE_PREFIX) ensures s'[x].Val? && IsSeqKey(x, seqNo) {
      DequeuedEntry(s, k, size - 1, x);
    }
  }

  lemma DequeuedKey<V>(s: Store<V>, n: nat, size': nat, i: nat) returns (j: nat)
    requires n < |Queue(s)| && i < |Queue(s)| - 1
    ensures j == (if i < n then i else i + 1)
    ensures var s', q := Dequeued(s, Queue(s)[n], size'), Queue(s);
      && |Queue(s')| == |q| - 1 && Queue(s')[i] == q[j] && HasPrefix(q[j], QUEUE_PREFIX)
      && q[j] in s && q[j] in s' && s'[q[j]] == s[q[j]]
  {
    var s', q := Dequeued(s, Queue(s)[n], size'), Queue(s);
    j := if i < n then i else i + 1;
    DequeuedQueue(s, n, size');
    assert RemoveAt(q, n)[i] == q[j] && q[j] in q;
    assert Queue(s')[i] in Queue(s');
    KeysAreApart();
  }

  /** The n-th oldest element goes, all others keep their order. */
  lemma DequeueRemoves<V>(s: Store<V>, seqNo: nat, size: nat, n: nat)
    requires ValidStore(s, seqNo, size) && n < size
    ensures var s' := Dequeued(s, Queue(s)[n], size - 1);
      && ValidStore(s', seqNo, size - 1)
      && Contents(s') == Contents(s)[..n] + Contents(s)[n + 1..]
  {
    var s' := Dequeued(s, Queue(s)[n], size - 1);
    DequeueKeepsValid(s, seqNo, size, n);
    var c, c' := Contents(s), Contents(s');
    forall i | 0 <= i < size - 1 ensures c'[i] == c[if i < n then i else i + 1] {
      DequeuedValue(s, n, size - 1, i, s');
    }
    assert c' == c[..n] + c[n + 1..];
  }

  lemma DequeuedValue<V>(s: Store<V>, n: nat, size': nat, i: nat, s': Store<V>)
    requires n < |Queue(s)| && i < |Queue(s)| - 1 && s' == Dequeued(s, Queue(s)[n], size')
    requires forall k :: k in s && HasPrefix(k, QUEUE_PREFIX) ==> s[k].Val?
    requires forall k :: k in s' && HasPrefix(k, QUEUE_PREFIX) ==> s'[k].Val?
    ensures |Contents(s')| == |Contents(s)| - 1 && Contents(s')[i] == Contents(s)[if i < n then i else i + 1]
  {
    var j := DequeuedKey(s, n, size', i);
  }

  class SequenceKVQueue<V(!new)> {
    var store: Store<V>
    const maxSize: nat
    var seqNo: nat
    var size: nat

    ghost predicate Valid()
      reads this
    {
      maxSize < UINT64 && ValidStore(store, seqNo, size)
    }

    /** `NewSequenceKVQueue`: the counters come from the store. */
    constructor (prefixStore: Store<V>, maxSize: nat)
      requires maxSize < UINT64
      requires ValidStore(prefixStore, Number(prefixStore, SEQUENCE_KEY), Number(prefixStore, SIZE_KEY))
      ensures Valid() && store == prefixStore && this.maxSize == maxSize
    {
      store, this.maxSize := prefixStore, maxSize;
      seqNo := Number(prefixStore, SEQUENCE_KEY);
      size := Number(prefixStore, SIZE_KEY);
    }

    /** Appends the value, or reports a full queue. */
    method Enqueue(value: V) returns (ok: bool)
      requires Valid()
      modifies this
      ensures ok <==> old(size) < maxSize
      ensures !ok ==> store == old(store) && seqNo == old(seqNo) && size == old(size)
      ensures ok ==> (Valid() <==> old(seqNo) + 1 < UINT64)
      ensures ok ==> (forall k :: k in store && HasPrefix(k, QUEUE_PREFIX) ==> store[k].Val?)
                     && Contents(store) == old(Contents(store)) + [value]
    {
      if size >= maxSize {
        return false;
      }
      store := store[SeqKey(seqNo) := Val(value)];
      size := size + 1;
      store := store[SIZE_KEY := Raw(Be8(size))];
      seqNo := NextNo(seqNo);
      store := store[SEQUENCE_KEY := Raw(Be8(seqNo))];
      assert store == Enqueued(old(store), old(seqNo), value, size, seqNo);
      EnqueueAppends(old(store), old(seqNo), old(size), value, size, seqNo);
      EnqueueKeepsValid(old(store), old(seqNo), old(size), value);
      return true;
    }

    /** `Iterator(queueKey)`, least key first. */
    method Iterate() returns (keys: seq<Bytes>)
      ensures keys == Queue(store)
    {
      var rest := set k | k in store && HasPrefix(k, QUEUE_PREFIX);
      keys := Ascending(rest);
    }

    /** The n-th oldest element and its key; out of range gives nothing. */
    method Peek(n: nat) returns (r: Option<(Bytes, V)>)
      requires Valid()
      ensures r.Some? <==> n < |Contents(store)|
      ensures r.Some? ==> r.value == (Queue(store)[n], Contents(store)[n])
    {
      if n >= size {
        return None;
      }
      var keys := Iterate();
      var i := 0;
      while i < |keys| && i < n
        invariant i <= n
      {
        i := i + 1;
      }
      assert keys[n] in keys;
      return Some((keys[i], store[keys[i]].value));
    }

    /** Removes the n-th oldest element. */
    method Dequeue(n: nat) returns (r: Option<V>)
      requires Valid()
      modifies this
      ensures Valid() && seqNo == old(seqNo)
      ensures r.Some? <==> n < old(|Contents(store)|)
      ensures r.None? ==> store == old(store)
      ensures r.Some? ==> r.value == old(Contents(store))[n]
                          && Contents(store) == old(Contents(store))[..n] + old(Contents(store))[n + 1..]
    {
      var found := Peek(n);
      if found.None? {
        return None;
      }
      store := store - {found.value.0};
      size := size - 1;
      store := store[SIZE_KEY := Raw(Be8(size))];
      assert store == Dequeued(old(store), Queue(old(store))[n], size);
      DequeueRemoves(old(store), seqNo, old(size), n);
      return Some(found.value.1);
    }
  }
}
