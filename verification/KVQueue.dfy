/**
  `GeneralKVQueue`: a queue in a byte-ordered store. A queue entry is stored under
  name_priority_key and refers to the value stored under key.
 */
module KVQueues {
  import opened Wrappers
  import opened ByteStrings
  import opened ByteOrder
  import opened StoreKeys

  /** What the store holds: a reference written by a queue, or a value. */
  datatype Entry<V> = Ref(key: Bytes) | Val(value: V)

  type Store<V> = map<Bytes, Entry<V>>

  function QueueKey(name: Bytes, priority: Bytes, key: Bytes): Bytes {
    name + [DELIMITER] + priority + [DELIMITER] + key
  }

  ghost function WithPrefix<V>(s: Store<V>, prefix: Bytes): set<Bytes> {
    set k | k in s && HasPrefix(k, prefix)
  }

  /** The queue as the iterator sees it: its keys in ascending order. */
  ghost function Queue<V>(s: Store<V>, name: Bytes): seq<Bytes> {
    Listing(WithPrefix(s, name))
  }

  /** Only queue entries start with the queue's name, and what they refer to does not. */
  ghost predicate Clean<V>(s: Store<V>, name: Bytes) {
    forall k :: k in s && HasPrefix(k, name) ==> s[k].Ref? && !HasPrefix(s[k].key, name)
  }

  /** The value behind a queue key. */
  function Lookup<V>(s: Store<V>, k: Bytes): Option<V>
    requires k in s && s[k].Ref?
  {
    if s[k].key in s && s[s[k].key].Val? then Some(s[s[k].key].value) else None
  }

  /** Every key of a listing is a queue entry. */
  ghost predicate Entries<V>(s: Store<V>, q: seq<Bytes>) {
    forall i :: 0 <= i < |q| ==> q[i] in s && s[q[i]].Ref?
  }

  lemma QueueEntries<V>(s: Store<V>, name: Bytes)
    requires Clean(s, name)
    ensures Entries(s, Queue(s, name))
  {
    var q := Queue(s, name);
    forall i | 0 <= i < |q| ensures q[i] in s && s[q[i]].Ref? {
      assert q[i] in q;
    }
  }

  // ------------------------------------------------- changes of the listing

  /** Deleting a queue key takes that entry out and leaves the order of the others. */
  lemma DeleteFromQueue<V>(s: Store<V>, name: Bytes, i: nat)
    requires i < |Queue(s, name)|
    ensures Queue(s - {Queue(s, name)[i]}, name) == RemoveAt(Queue(s, name), i)
  {
    var q := Queue(s, name);
    var q' := Queue(s - {q[i]}, name);
    forall k ensures k in q' <==> k in RemoveAt(q, i) {
      InRemoveAt(q, i, k);
    }
    InRemoveAt(q, i, q[i]);
    SortedUnique(q', RemoveAt(q, i));
  }

  function InsertKey(q: seq<Bytes>, k: Bytes): (r: seq<Bytes>)
    ensures forall x :: x in r <==> x in q || x == k
  {
    if q == [] || Less(k, q[0]) then [k] + q
    else if q[0] == k then q
    else
      var r := [q[0]] + InsertKey(q[1..], k);
      assert q == [q[0]] + q[1..];
      r
  }

  lemma {:induction false} InsertKeepsSorted(q: seq<Bytes>, k: Bytes)
    requires Sorted(q)
    ensures Sorted(InsertKey(q, k))
    decreases |q|
  {
    if q == [] || Less(k, q[0]) {
      forall x | x in q ensures Less(k, x) {
        var i :| 0 <= i < |q| && q[i] == x;
        if i > 0 {
          LessTransitive(k, q[0], x);
        }
      }
      SortedCons(k, q);
    } else if q[0] != k {
      LessTotal(k, q[0]);
      InsertKeepsSorted(q[1..], k);
      SortedCons(q[0], InsertKey(q[1..], k));
    }
  }

  /** Enqueueing puts the new key at its place and leaves the order of the others. */
  lemma EnqueueInQueue<V>(s: Store<V>, name: Bytes, qk: Bytes, key: Bytes, value: V)
    requires HasPrefix(qk, name) && !HasPrefix(key, name)
    ensures Queue(s[qk := Ref(key)][key := Val(value)], name) == InsertKey(Queue(s, name), qk)
  {
    var q, q' := Queue(s, name), Queue(s[qk := Ref(key)][key := Val(value)], name);
    InsertKeepsSorted(q, qk);
    SortedUnique(q', InsertKey(q, qk));
  }

  // ---------------------------------------------------- height-ordered keys

  /** Queue keys with priorities of one width compare by priority first, then by key. */
  lemma QueueKeyOrder(name: Bytes, p: Bytes, p': Bytes, key: Bytes, key': Bytes)
    requires |p| == |p'|
    ensures Less(QueueKey(name, p, key), QueueKey(name, p', key')) <==> Less(p, p') || (p == p' && Less(key, key'))
  {
    var head := name + [DELIMITER];
    var x, y := p + [DELIMITER], p' + [DELIMITER];
    assert QueueKey(name, p, key) == head + (x + key) && QueueKey(name, p', key') == head + (y + key');
    LessTotal(head, head);
    LessOfConcat(head, head, x + key, y + key');
    LessOfConcat(x, y, key, key');
    LessOfConcat(p, p', [DELIMITER], [DELIMITER]);
    SameHalves(p, p', DELIMITER, DELIMITER);
  }

  /** `BlockHeightKVQueue`, the poll queue and the transfer queue: numeric order first. */
  lemma HeightOrder(name: Bytes, h: nat, h': nat, key: Bytes, key': Bytes)
    requires h < UINT64 && h' < UINT64
    ensures Less(QueueKey(name, Be8(h), key), QueueKey(name, Be8(h'), key'))
            <==> h < h' || (h == h' && Less(key, key'))
  {
    Be8Order(h, h');
    QueueKeyOrder(name, Be8(h), Be8(h'), key, key');
  }

  // ------------------------------------------------------------ dequeueing

  /** The entry that `dequeue` picks from position `i` on; a missing value ends the search. */
  ghost function FindFrom<V>(s: Store<V>, q: seq<Bytes>, i: nat, filter: V -> bool, goOn: bool): Option<nat>
    requires forall k :: k in q ==> k in s && s[k].Ref?
    decreases |q| - i
  {
    if i >= |q| then None
    else
      match Lookup(s, q[i])
      case None => None
      case Some(v) => if filter(v) then Some(i) else if goOn then FindFrom(s, q, i + 1, filter, goOn) else None
  }

  ghost predicate Complete<V>(s: Store<V>, q: seq<Bytes>)
    requires forall k :: k in q ==> k in s && s[k].Ref?
  {
    forall i :: 0 <= i < |q| ==> Lookup(s, q[i]).Some?
  }

  /** The entries from `i` up to `n` have values, and none passes the filter. */
  ghost predicate PassedOver<V>(s: Store<V>, q: seq<Bytes>, i: nat, n: nat, filter: V -> bool)
    requires (forall k :: k in q ==> k in s && s[k].Ref?) && n <= |q|
  {
    forall j :: i <= j < n ==> Lookup(s, q[j]).Some? && !filter(Lookup(s, q[j]).value)
  }

  /**
    `DequeueUntil` finds the least entry that passes the filter; it gives up exactly at
    the end or at an entry without a value.
   */
  lemma {:induction false} FindsLeastMatch<V>(s: Store<V>, q: seq<Bytes>, i: nat, filter: V -> bool) returns (n: nat)
    requires (forall k :: k in q ==> k in s && s[k].Ref?) && i <= |q|
    ensures i <= n <= |q| && PassedOver(s, q, i, n, filter)
    ensures match FindFrom(s, q, i, filter, true)
      case Some(m) => m == n < |q| && Lookup(s, q[n]).Some? && filter(Lookup(s, q[n]).value)
      case None => n == |q| || Lookup(s, q[n]).None?
    decreases |q| - i
  {
    n := i;
    if i < |q| && Lookup(s, q[i]).Some? && !filter(Lookup(s, q[i]).value) {
      n := FindsLeastMatch(s, q, i + 1, filter);
    }
  }

  class GeneralKVQueue<V(!new)> {
    const name: Bytes
    const prioritizer: V -> Bytes
    var store: Store<V>

    constructor (name: Bytes, prioritizer: V -> Bytes, store: Store<V>)
      ensures this.name == name && this.prioritizer == prioritizer && this.store == store
    {
      this.name, this.prioritizer, this.store := name, prioritizer, store;
    }

    ghost predicate Valid()
      reads this
    {
      Clean(store, name)
    }

    /** `KVStorePrefixIterator`: the keys under the name, least first. */
    method Iterate() returns (keys: seq<Bytes>)
      ensures keys == Queue(store, name)
    {
      var under := set k | k in store && HasPrefix(k, name);
      keys := Ascending(under);
    }

    /** The queue stays in order unless the value's key looks like a queue key. */
    method Enqueue(key: Bytes, value: V)
      requires Valid()
      modifies this
      ensures Valid() <==> !HasPrefix(key, name)
      ensures var qk := QueueKey(name, prioritizer(value), key);
        && store == old(store)[qk := Ref(key)][key := Val(value)]
        && qk in store && store[qk].Ref? && Lookup(store, qk) == Some(value)
        && (!HasPrefix(key, name) ==> Queue(store, name) == InsertKey(old(Queue(store, name)), qk))
    {
      var qk := QueueKey(name, prioritizer(value), key);
      assert |qk| > |key|;
      assert HasPrefix(qk, name) by { assert qk[..|name|] == name; }
      if !HasPrefix(key, name) {
        EnqueueInQueue(store, name, qk, key, value);
      }
      store := store[qk := Ref(key)];
      store := store[key := Val(value)];
    }

    /** The private `dequeue`: walks the iterator and deletes the entry it picks. */
    method DequeueFirst(filter: V -> bool, goOn: bool) returns (r: Option<V>)
      requires Valid()
      modifies this
      ensures Valid()
      ensures var s := old(store);
        var q := Queue(s, name);
        match FindFrom(s, q, 0, filter, goOn)
        case None => r == None && store == s
        case Some(i) => i < |q| && r == Lookup(s, q[i]) && r.Some? && filter(r.value)
                        && store == s - {q[i]} && Queue(store, name) == RemoveAt(q, i)
    {
      var q := Iterate();
      var i := 0;
      while i < |q|
        invariant i <= |q| && FindFrom(store, q, 0, filter, goOn) == FindFrom(store, q, i, filter, goOn)
      {
        assert q[i] in q;
        var v := Lookup(store, q[i]);
        if v.None? {
          return None;
        }
        if filter(v.value) {
          DeleteFromQueue(store, name, i);
          store := store - {q[i]};
          return v;
        }
        if !goOn {
          return None;
        }
        i := i + 1;
      }
      return None;
    }

    /** Pops the least entry. */
    method Dequeue() returns (r: Option<V>)
      requires Valid()
      modifies this
      ensures Valid()
      ensures var s := old(store);
        var q := Queue(s, name);
        if q != [] && Lookup(s, q[0]).Some?
        then r == Lookup(s, q[0]) && store == s - {q[0]} && Queue(store, name) == q[1..]
        else r == None && store == s
    {
      r := DequeueFirst(_ => true, false);
    }

    /** Pops the least entry if it passes the filter. */
    method DequeueIf(filter: V -> bool) returns (r: Option<V>)
      requires Valid()
      modifies this
      ensures Valid()
      ensures var s := old(store);
        var q := Queue(s, name);
        if q != [] && Lookup(s, q[0]).Some? && filter(Lookup(s, q[0]).value)
        then r == Lookup(s, q[0]) && store == s - {q[0]} && Queue(store, name) == q[1..]
        else r == None && store == s
    {
      r := DequeueFirst(filter, false);
    }

    /** Pops the least entry that passes the filter, if no entry without a value stands before it. */
    method DequeueUntil(filter: V -> bool) returns (r: Option<V>)
      requires Valid()
      modifies this
      ensures Valid()
      ensures var s := old(store);
        var q := Queue(s, name);
        exists n: nat :: n <= |q| && PassedOver(s, q, 0, n, filter) &&
          if r.None? then store == s && (n == |q| || Lookup(s, q[n]).None?)
          else n < |q| && r == Lookup(s, q[n]) && filter(r.value) && store == s - {q[n]} && Queue(store, name) == RemoveAt(q, n)
    {
      ghost var n := FindsLeastMatch(store, Queue(store, name), 0, filter);
      r := DequeueFirst(filter, true);
    }

    method IsEmpty() returns (empty: bool)
      ensures empty <==> Queue(store, name) == []
    {
      var q := Iterate();
      empty := q == [];
    }

    /** `ImportState` visits the items in an order that Go does not fix. */
    method ImportState(items: map<Bytes, Item<V>>) returns (panicked: bool, ghost order: seq<Bytes>)
      modifies this
      ensures forall k :: k in order ==> k in items
      ensures if panicked then Import(old(store), name, items, order) == Panic
              else Import(old(store), name, items, order) == Done(store) && forall k :: k in items ==> k in order
    {
      order := [];
      var rest := items.Keys;
      while rest != {}
        invariant rest <= items.Keys && (forall k :: k in order <==> k in items && k !in rest)
        invariant Import(old(store), name, items, order) == Done(store)
        decreases |rest|
      {
        var k :| k in rest;
        ghost var before := order;
        order := order + [k];
        assert order[..|before|] == before;
        if !HasPrefix(k, name + [DELIMITER]) {
          return true, order;
        }
        store := store[k := Ref(items[k].key)];
        if items[k].value.None? {
          return true, order;
        }
        store := store[items[k].key := Val(items[k].value.value)];
        rest := rest - {k};
      }
      return false, order;
    }
  }

  // ------------------------------------------------------ export and import

  /** A missing value is exported as nil. */
  datatype Item<V> = Item(key: Bytes, value: Option<V>)

  /** `ExportState`: queue key to item key and value. */
  ghost function Export<V>(s: Store<V>, name: Bytes): map<Bytes, Item<V>>
    requires Clean(s, name)
  {
    map k | k in s && HasPrefix(k, name) :: assert k in Queue(s, name); Item(s[k].key, Lookup(s, k))
  }

  predicate Importable<V>(name: Bytes, items: map<Bytes, Item<V>>, k: Bytes)
    requires k in items
  {
    HasPrefix(k, name + [DELIMITER]) && items[k].value.Some?
  }

  /** The import of the items in a given order; a queue key of another queue panics, and so does storing nil. */
  ghost function Import<V>(s: Store<V>, name: Bytes, items: map<Bytes, Item<V>>, order: seq<Bytes>): Outcome<Store<V>>
    requires forall k :: k in order ==> k in items
  {
    if order == [] then Done(s)
    else
      var k := order[|order| - 1];
      var before :- Import(s, name, items, order[..|order| - 1]);
      if !Importable(name, items, k) then Panic
      else Done(before[k := Ref(items[k].key)][items[k].key := Val(items[k].value.value)])
  }

  ghost predicate Enumerates<V>(order: seq<Bytes>, items: map<Bytes, Item<V>>) {
    forall k :: k in order <==> k in items
  }

  /** No item is stored under a queue key, and items stored under one key agree. */
  ghost predicate Consistent<V>(items: map<Bytes, Item<V>>) {
    && (forall k :: k in items ==> items[k].key !in items)
    && (forall k, l :: k in items && l in items && items[k].key == items[l].key ==> items[k].value == items[l].value)
  }

  /** Whatever the order, the import panics exactly if some queue key is of another queue or a value is missing. */
  lemma {:induction false} ImportPanics<V>(s: Store<V>, name: Bytes, items: map<Bytes, Item<V>>, order: seq<Bytes>)
    requires forall k :: k in order ==> k in items
    ensures var r := Import(s, name, items, order);
      r != Error && (r == Panic <==> exists k :: k in order && !Importable(name, items, k))
  {
    if order != [] {
      var n := |order| - 1;
      assert order == order[..n] + [order[n]];
      ImportPanics(s, name, items, order[..n]);
    }
  }

  /** What an import of the items in `order` leaves under the key `x`. */
  ghost predicate WrittenAt<V>(s: Store<V>, items: map<Bytes, Item<V>>, order: seq<Bytes>, r: Store<V>, x: Bytes)
    requires forall k :: k in order ==> k in items
  {
    && (x in order ==> x in r && r[x] == Ref(items[x].key))
    && (forall k :: k in order && items[k].key == x ==>
          x in r && items[k].value.Some? && r[x] == Val(items[k].value.value))
    && (x !in order && (forall k :: k in order ==> items[k].key != x) ==> (x in r <==> x in s) && (x in s ==> r[x] == s[x]))
  }

  lemma {:induction false} ImportWrites<V>(s: Store<V>, name: Bytes, items: map<Bytes, Item<V>>, order: seq<Bytes>, x: Bytes)
    requires (forall k :: k in order ==> k in items) && Consistent(items) && Import(s, name, items, order).Done?
    ensures WrittenAt(s, items, order, Import(s, name, items, order).value, x)
  {
    if order != [] {
      var n := |order| - 1;
      var front, k := order[..n], order[n];
      assert order == front + [k];
      ImportWrites(s, name, items, front, x);
      var before := Import(s, name, items, front).value;
      assert WrittenAt(s, items, front, before, x);
      assert Import(s, name, items, order).value == before[k := Ref(items[k].key)][items[k].key := Val(items[k].value.value)];
    }
  }

  /** The order in which the items are imported does not matter. */
  lemma ImportAnyOrder<V>(s: Store<V>, name: Bytes, items: map<Bytes, Item<V>>, order: seq<Bytes>, other: seq<Bytes>)
    requires Consistent(items) && Enumerates(order, items) && Enumerates(other, items)
    ensures Import(s, name, items, order) == Import(s, name, items, other)
  {
    ImportPanics(s, name, items, order);
    ImportPanics(s, name, items, other);
    if Import(s, name, items, order).Done? {
      var r, r' := Import(s, name, items, order).value, Import(s, name, items, other).value;
      forall x ensures (x in r <==> x in r') && (x in r ==> r[x] == r'[x]) {
        ImportWrites(s, name, items, order, x);
        ImportWrites(s, name, items, other, x);
      }
      assert r == r';
    }
  }

  lemma ExportIsConsistent<V>(s: Store<V>, name: Bytes)
    requires Clean(s, name)
    ensures Consistent(Export(s, name))
  {
    var items := Export(s, name);
    forall k | k in items ensures items[k].key !in items {
      assert !HasPrefix(s[k].key, name);
    }
  }

  /**
    Importing an exported queue into an empty store, in any order, panics exactly if an
    entry lacks the delimiter after the queue name or its value, and otherwise gives the
    same queue with the same values.
   */
  lemma ExportImport<V>(s: Store<V>, name: Bytes, order: seq<Bytes>)
    requires Clean(s, name) && Enumerates(order, Export(s, name))
    ensures var r := Import(map[], name, Export(s, name), order);
      && (r.Done? <==> Complete(s, Queue(s, name)) && forall k :: k in Queue(s, name) ==> HasPrefix(k, name + [DELIMITER]))
      && (r.Done? ==> Clean(r.value, name) && Queue(r.value, name) == Queue(s, name)
                      && forall k :: k in Queue(s, name) ==> Lookup(r.value, k) == Lookup(s, k))
  {
    var items := Export(s, name);
    ImportPanics(map[], name, items, order);
    ExportIsConsistent(s, name);
    assert forall k :: k in Queue(s, name) <==> k in items;
    if Import(map[], name, items, order).Done? {
      ImportedQueue(s, name, order);
    }
  }

  /** One entry of a queue whose name only starts with `name`: it is exported with the queue, and the import panics. */
  lemma LongerNameStopsImport<V>(name: Bytes, suffix: Bytes, key: Bytes, v: V)
    requires !HasPrefix(suffix, [DELIMITER]) && !HasPrefix(key, name)
    ensures var k := name + suffix;
      var s: Store<V> := map[k := Ref(key), key := Val(v)];
      && Clean(s, name) && Queue(s, name) == [k] && Complete(s, [k])
      && Import(map[], name, Export(s, name), [k]) == Panic
  {
    var k := name + suffix;
    var s: Store<V> := map[k := Ref(key), key := Val(v)];
    assert HasPrefix(k, name) && WithPrefix(s, name) == {k};
    assert Queue(s, name) == [k] by { SortedUnique(Queue(s, name), [k]); }
    assert suffix != [] ==> suffix[..1] == [suffix[0]] && k[|name|] == suffix[0];
    ImportPanics(map[], name, Export(s, name), [k]);
  }

  lemma ImportedQueue<V>(s: Store<V>, name: Bytes, order: seq<Bytes>)
    requires Clean(s, name) && Enumerates(order, Export(s, name))
    requires Consistent(Export(s, name)) && Import(map[], name, Export(s, name), order).Done?
    ensures var r := Import(map[], name, Export(s, name), order).value;
      && Clean(r, name) && Queue(r, name) == Queue(s, name)
      && forall k :: k in Queue(s, name) ==> Lookup(r, k) == Lookup(s, k)
  {
    var items := Export(s, name);
    var r := Import(map[], name, items, order).value;
    forall x ensures WrittenAt(map[], items, order, r, x) {
      ImportWrites(map[], name, items, order, x);
    }
    forall k ensures k in WithPrefix(r, name) <==> k in WithPrefix(s, name) {
      assert WrittenAt(map[], items, order, r, k);
    }
    assert WithPrefix(r, name) == WithPrefix(s, name);
    forall k | k in WithPrefix(s, name)
      ensures r[k].Ref? && !HasPrefix(r[k].key, name) && Lookup(r, k) == Lookup(s, k)
    {
      assert k in items && k in order && WrittenAt(map[], items, order, r, k) && WrittenAt(map[], items, order, r, items[k].key);
    }
  }
}
