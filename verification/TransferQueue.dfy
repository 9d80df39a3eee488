/** The queue of transfer IDs as it lies in the store. */
module TransferQueue {
  import opened ByteStrings
  import opened ByteOrder
  import opened KVQueues
  import TransferProtocol

  type TransferId = TransferProtocol.TransferId

  /** The queue key of a transfer: its ID in eight bytes, then the key under which the transfer is stored. */
  function TransferKey(name: Bytes, keyOf: TransferId -> Bytes, id: TransferId): Bytes
    requires id < UINT64
  {
    QueueKey(name, Be8(id), keyOf(id))
  }

  ghost predicate Fits(ids: seq<TransferId>) {
    forall i :: 0 <= i < |ids| ==> ids[i] < UINT64
  }

  ghost function Listed(name: Bytes, keyOf: TransferId -> Bytes, ids: seq<TransferId>): seq<Bytes>
    requires Fits(ids)
  {
    seq(|ids|, i requires 0 <= i < |ids| => TransferKey(name, keyOf, ids[i]))
  }

  lemma TransferKeyOrder(name: Bytes, keyOf: TransferId -> Bytes, x: TransferId, y: TransferId)
    requires x < UINT64 && y < UINT64
    ensures Less(TransferKey(name, keyOf, x), TransferKey(name, keyOf, y)) <==> x < y
    ensures TransferKey(name, keyOf, x) == TransferKey(name, keyOf, y) <==> x == y
  {
    HeightOrder(name, x, y, keyOf(x), keyOf(y));
    HeightOrder(name, y, x, keyOf(y), keyOf(x));
    LessTotal(keyOf(x), keyOf(x));
    LessTotal(TransferKey(name, keyOf, x), TransferKey(name, keyOf, y));
  }

  lemma {:induction false} InsertFits(ids: seq<TransferId>, id: TransferId)
    requires Fits(ids) && id < UINT64
    ensures Fits(TransferProtocol.InsertSorted(ids, id))
  {
    var r := TransferProtocol.InsertSorted(ids, id);
    forall i | 0 <= i < |r| ensures r[i] < UINT64 {
      assert r[i] in r;
    }
  }

  /** Inserting a transfer's queue key into the store listing is inserting its ID into the queue of IDs. */
  lemma {:induction false} InsertKeyIsInsertSorted(name: Bytes, keyOf: TransferId -> Bytes, ids: seq<TransferId>, id: TransferId)
    requires Fits(ids) && id < UINT64
    ensures Fits(TransferProtocol.InsertSorted(ids, id))
    ensures InsertKey(Listed(name, keyOf, ids), TransferKey(name, keyOf, id))
            == Listed(name, keyOf, TransferProtocol.InsertSorted(ids, id))
  {
    InsertFits(ids, id);
    var q, k := Listed(name, keyOf, ids), TransferKey(name, keyOf, id);
    if ids != [] {
      TransferKeyOrder(name, keyOf, id, ids[0]);
      TransferKeyOrder(name, keyOf, ids[0], id);
      if id > ids[0] {
        assert q[1..] == Listed(name, keyOf, ids[1..]);
        InsertKeyIsInsertSorted(name, keyOf, ids[1..], id);
        assert Listed(name, keyOf, [ids[0]] + TransferProtocol.InsertSorted(ids[1..], id))
            == [q[0]] + Listed(name, keyOf, TransferProtocol.InsertSorted(ids[1..], id));
      }
    }
  }

  /** `EnqueueIBCTransfer`: the store lists the transfers in the order of the model's queue, before and after. */
  lemma EnqueuedTransferIsListed<V>(s: Store<V>, name: Bytes, keyOf: TransferId -> Bytes, ids: seq<TransferId>, id: TransferId, value: V)
    requires Fits(ids) && id < UINT64 && !HasPrefix(keyOf(id), name) && Queue(s, name) == Listed(name, keyOf, ids)
    ensures Fits(TransferProtocol.InsertSorted(ids, id))
    ensures Queue(s[TransferKey(name, keyOf, id) := Ref(keyOf(id))][keyOf(id) := Val(value)], name)
            == Listed(name, keyOf, TransferProtocol.InsertSorted(ids, id))
  {
    var qk := TransferKey(name, keyOf, id);
    assert HasPrefix(qk, name) by { assert qk[..|name|] == name; }
    EnqueueInQueue(s, name, qk, keyOf(id), value);
    InsertKeyIsInsertSorted(name, keyOf, ids, id);
  }
}
