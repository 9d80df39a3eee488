/**
  The entry points of x/axelarnet that loop, as they run: on one store that is
  written step by step, with a copy taken wherever the code opens a cached
  context. Each is proved to commit exactly what the step function says.
 */
module AxelarnetKeeper {
  import opened Wrappers
  import opened Ledger
  import opened TransferProtocol

  /** What is left of the first loop after some iterations: `failed` so far, then the rest from `s`. */
  ghost predicate Resumes(whole: (State, seq<TransferId>), failed: seq<TransferId>, s: State, left: nat, send: Sender) {
    whole.0 == SendQueued(s, left, send).0 && whole.1 == failed + SendQueued(s, left, send).1
  }

  lemma NextSend(whole: (State, seq<TransferId>), failed: seq<TransferId>, s: State, left: nat, send: Sender, s1: State, sent: bool)
    requires left > 0 && s.queue != [] && Resumes(whole, failed, s, left, send)
    requires (s1, sent) == send(s.(queue := s.queue[1..]), s.queue[0])
    ensures Resumes(whole, if sent then failed else failed + [s.queue[0]], s1, left - 1, send)
  {
    var rest := SendQueued(s1, left - 1, send).1;
    assert !sent ==> failed + ([s.queue[0]] + rest) == failed + [s.queue[0]] + rest;
  }

  lemma FirstSend(s: State, limit: nat, send: Sender)
    ensures Resumes(SendQueued(s, limit, send), [], s, limit, send)
  {
    assert [] + SendQueued(s, limit, send).1 == SendQueued(s, limit, send).1;
  }

  lemma LastSend(whole: (State, seq<TransferId>), failed: seq<TransferId>, s: State, left: nat, send: Sender)
    requires Resumes(whole, failed, s, left, send) && (left == 0 || s.queue == [])
    ensures whole == (s, failed)
  {
    assert failed + [] == failed;
  }

  lemma CachedSenderIs(nets: TransferId -> Net, s: State, id: TransferId)
    ensures CachedSender(nets)(s, id) == SendCached(s, id, nets(id))
  {
  }

  lemma NextRelock(s: State, failed: seq<TransferId>, i: nat, relockOk: TransferId -> bool)
    requires i < |failed|
    ensures var one, all := RelockOne(s, failed[i], relockOk(failed[i])), RelockAll(s, failed[i..], relockOk);
      if one.Done? then all == RelockAll(one.value, failed[i + 1..], relockOk) else !all.Done?
  {
    assert failed[i..][0] == failed[i] && failed[i..][1..] == failed[i + 1..];
  }

  class Keeper {
    var store: State

    constructor (s: State)
      ensures store == s
    {
      store := s;
    }

    /** `RunCached` around `SendIBCTransfer`; tells whether the writes were committed. */
    method SendInCache(id: TransferId, net: Net) returns (succeeded: bool)
      modifies this
      ensures (store, succeeded) == SendCached(old(store), id, net)
    {
      succeeded := false;
      if id in store.transfers {
        var out := SendIBCTransfer(store, id, store.transfers[id], net);
        if out.Done? {
          store := out.value;
          succeeded := true;
        }
      }
    }

    /** First loop of `EndBlocker`. */
    method SendPending(limit: nat, nets: TransferId -> Net) returns (failed: seq<TransferId>)
      modifies this
      ensures (store, failed) == SendQueued(old(store), limit, CachedSender(nets))
    {
      failed := [];
      var count := 0;
      ghost var send := CachedSender(nets);
      ghost var whole := SendQueued(store, limit, send);
      FirstSend(store, limit, send);
      while count < limit && store.queue != []
        invariant count <= limit && Resumes(whole, failed, store, limit - count, send)
      {
        var id := store.queue[0];
        ghost var before := store;
        store := store.(queue := store.queue[1..]);
        count := count + 1;
        var succeeded := SendInCache(id, nets(id));
        CachedSenderIs(nets, before.(queue := before.queue[1..]), id);
        NextSend(whole, failed, before, limit - count + 1, send, store, succeeded);
        if !succeeded {
          failed := failed + [id];
        }
      }
      LastSend(whole, failed, store, limit - count, send);
    }

    /** Second loop of `EndBlocker`; stops at the first panic. */
    method RelockFailed(failed: seq<TransferId>, relockOk: TransferId -> bool) returns (panicked: bool)
      modifies this
      ensures var r := RelockAll(old(store), failed, relockOk);
        if panicked then !r.Done? else r == Done(store)
    {
      panicked := false;
      ghost var whole := RelockAll(store, failed, relockOk);
      var i := 0;
      while i < |failed| && !panicked
        invariant i <= |failed|
        invariant if panicked then !whole.Done? else whole == RelockAll(store, failed[i..], relockOk)
      {
        var out := RelockOne(store, failed[i], relockOk(failed[i]));
        NextRelock(store, failed, i, relockOk);
        if out.Done? {
          store := out.value;
        } else {
          panicked := true;
        }
        i := i + 1;
      }
    }

    /** `AppModule.EndBlock`: the whole end-blocker in a cached context. */
    method EndBlock(limit: nat, nets: TransferId -> Net, relockOk: TransferId -> bool)
      modifies this
      ensures store == Step(old(store), Event.EndBlock(limit, nets, relockOk))
    {
      var saved := store;
      var failed := SendPending(limit, nets);
      var panicked := RelockFailed(failed, relockOk);
      if panicked {
        store := saved;
      }
    }

    /** `RouteIBCTransfers`; a panic reverts the transaction. */
    method RouteTransfers(items: seq<RouteItem>)
      modifies this
      ensures store == Step(old(store), Event.RouteTransfers(items))
    {
      var saved := store;
      ghost var whole := RouteIBCTransfers(store, items);
      var i := 0;
      while i < |items|
        invariant i <= |items|
        invariant whole == RouteIBCTransfers(store, items[i..])
      {
        var out := RouteOne(store, items[i]);
        assert items[i..][0] == items[i] && items[i..][1..] == items[i + 1..];
        if !out.Done? {
          store := saved;
          return;
        }
        store := out.value;
        i := i + 1;
      }
    }

    /** `getSeqIDMapping`: reads the mapping and deletes it. */
    method TakeSeqId(p: PacketId) returns (id: Option<TransferId>)
      modifies this
      ensures id == if p in old(store).seqIds then Some(old(store).seqIds[p]) else None
      ensures store == old(store).(seqIds := old(store).seqIds - {p})
    {
      id := if p in store.seqIds then Some(store.seqIds[p]) else None;
      store := store.(seqIds := store.seqIds - {p});
    }

    /** `getSeqMessageIDMapping`. */
    method TakeSeqMsg(p: PacketId) returns (id: Option<MessageId>)
      modifies this
      ensures id == if p in old(store).seqMsgs then Some(old(store).seqMsgs[p]) else None
      ensures store == old(store).(seqMsgs := old(store).seqMsgs - {p})
    {
      id := if p in store.seqMsgs then Some(store.seqMsgs[p]) else None;
      store := store.(seqMsgs := store.seqMsgs - {p});
    }

    /** `setRoutedPacketCompleted`; on failure the caller discards the writes. */
    method PacketCompleted(p: PacketId) returns (ok: bool)
      modifies this
      ensures var r := SetRoutedPacketCompleted(old(store), p);
        if ok then r == Done(store) else !r.Done?
    {
      var id := TakeSeqId(p);
      var out := Done(store);
      if id.Some? {
        out := SetTransferStatus(store, id.value, Completed);
      } else {
        assert store == old(store);
        var msg := TakeSeqMsg(p);
        assert msg.None? ==> store == old(store);
        out := if msg.Some? then SetMessageStatus(store, msg.value, Executed) else Done(store);
      }
      ok := out.Done?;
      if ok {
        store := out.value;
      }
    }

    /** `setRoutedPacketFailed`. */
    method PacketFailed(p: PacketId, c: Coin, assetOk: bool) returns (ok: bool)
      modifies this
      ensures var r := SetRoutedPacketFailed(old(store), p, c, assetOk);
        if ok then r == Done(store) else !r.Done?
    {
      var id := TakeSeqId(p);
      if id.Some? {
        if id.value !in store.transfers || !assetOk {
          return false;
        }
        var locked := MoveCoin(store, IbcAccount, Locked, store.transfers[id.value].coin);
        if !locked.Done? {
          return false;
        }
        var out := SetTransferStatus(locked.value, id.value, Failed);
        if out.Done? {
          store := out.value;
        }
        return out.Done?;
      }
      assert store == old(store);
      var msg := TakeSeqMsg(p);
      if msg.Some? {
        if !assetOk {
          return false;
        }
        var locked := MoveCoin(store, IbcAccount, Locked, c);
        if !locked.Done? {
          return false;
        }
        var out := SetMessageStatus(locked.value, msg.value, NotExecuted);
        if out.Done? {
          store := out.value;
        }
        return out.Done?;
      }
      assert store == old(store);
      return true;
    }

    /** `OnAcknowledgementPacket`, and with `success` false also `OnTimeoutPacket`. */
    method OnSettlement(p: PacketId, success: bool, assetOk: bool)
      modifies this
      ensures store == Step(old(store), SettlePacket(p, success, assetOk))
    {
      if p !in store.packets || store.packets[p].sender == InFlight {
        return;
      }
      var saved, packet := store, store.packets[p];
      // the ICS-20 module delivers or refunds before the hook runs
      var moved := MoveCoin(store.(packets := store.packets - {p}), InFlight, if success then Delivered else packet.sender, packet.coin);
      if !moved.Done? {
        return;
      }
      store := moved.value;
      var ok;
      if success {
        ok := PacketCompleted(p);
      } else {
        ok := PacketFailed(p, packet.coin, assetOk);
      }
      if !ok {
        store := saved;
      }
    }
  }
}
