/**
  `handlePollsAtExpiry` on the store of x/vote. A poll and its queue entry share a
  store: the entry refers to the key under which the poll itself is kept.
 */
module PollExpiry {
  import opened Wrappers
  import opened ByteStrings
  import opened ByteOrder
  import opened KVQueues

  type PollId = nat

  datatype PollState = Pending | Completed | Failed | NonExistent

  datatype Poll = Poll(id: PollId, expiresAt: int, state: PollState)

  type VoteHandler<!S> = (S, PollId, PollState) -> Outcome<S>

  // The queue of a store.

  /** Every entry refers to the key of the poll it stands for. */
  ghost predicate OwnKeys(s: Store<Poll>, q: seq<Bytes>, keyOf: PollId -> Bytes)
    requires Entries(s, q)
  {
    forall k :: k in q && Lookup(s, k).Some? ==> s[k].key == keyOf(Lookup(s, k).value.id)
  }

  /** The poll of the `i`-th entry is there, has expired, and does not come up before. */
  ghost predicate Takes(s: Store<Poll>, q: seq<Bytes>, i: nat, height: int)
    requires Entries(s, q) && i < |q|
  {
    && Lookup(s, q[i]).Some? && Lookup(s, q[i]).value.expiresAt <= height
    && forall j :: 0 <= j < i ==> s[q[j]].key != s[q[i]].key
  }

  ghost predicate TakesAll(s: Store<Poll>, q: seq<Bytes>, k: nat, height: int)
    requires Entries(s, q) && k <= |q|
  {
    forall i :: 0 <= i < k ==> Takes(s, q, i, height)
  }

  /** How far the dequeueing goes from entry `k` on. */
  ghost function Reach(s: Store<Poll>, q: seq<Bytes>, height: int, k: nat): (n: nat)
    requires Entries(s, q) && k <= |q|
    ensures k <= n <= |q| && (forall i :: k <= i < n ==> Takes(s, q, i, height))
    ensures n < |q| ==> !Takes(s, q, n, height)
    decreases |q| - k
  {
    if k < |q| && Takes(s, q, k, height) then Reach(s, q, height, k + 1) else k
  }

  ghost predicate IsCount(s: Store<Poll>, q: seq<Bytes>, n: nat, height: int, limit: int)
    requires Entries(s, q)
  {
    && n <= |q| && n <= (if limit < 0 then 0 else limit) && TakesAll(s, q, n, height)
    && (n < limit ==> n == |q| || !Takes(s, q, n, height))
  }

  ghost function HandledCount(s: Store<Poll>, q: seq<Bytes>, height: int, limit: int): (n: nat)
    requires Entries(s, q)
    ensures IsCount(s, q, n, height, limit)
  {
    var n := Reach(s, q, height, 0);
    if limit <= 0 then 0 else if limit < n then limit else n
  }

  /** The polls of the first `k` entries. */
  ghost function Polls(s: Store<Poll>, q: seq<Bytes>, k: nat, height: int): seq<Poll>
    requires Entries(s, q) && k <= |q| && TakesAll(s, q, k, height)
  {
    seq(k, i requires 0 <= i < k => assert Takes(s, q, i, height); Lookup(s, q[i]).value)
  }

  ghost predicate ByExpiry(s: Store<Poll>, q: seq<Bytes>)
    requires Entries(s, q)
  {
    && Complete(s, q)
    && (forall i, j :: 0 <= i < j < |q| ==> Lookup(s, q[i]).value.expiresAt <= Lookup(s, q[j]).value.expiresAt)
    && (forall i, j :: 0 <= i < j < |q| ==> s[q[i]].key != s[q[j]].key)
  }

  /** The queue is prioritised by the expiry height in big-endian bytes, so the store lists it by expiry. */
  lemma PollQueueIsByExpiry(s: Store<Poll>, name: Bytes)
    requires Clean(s, name) && Complete(s, Queue(s, name))
    requires forall i, j :: 0 <= i < j < |Queue(s, name)| ==> s[Queue(s, name)[i]].key != s[Queue(s, name)[j]].key
    requires forall i :: 0 <= i < |Queue(s, name)| ==>
      var k := Queue(s, name)[i];
      var p := Lookup(s, k).value;
      0 <= p.expiresAt < UINT64 && k == QueueKey(name, Be8(p.expiresAt), s[k].key)
    ensures ByExpiry(s, Queue(s, name))
  {
    var q := Queue(s, name);
    QueueEntries(s, name);
    forall i, j | 0 <= i < j < |q| ensures Lookup(s, q[i]).value.expiresAt <= Lookup(s, q[j]).value.expiresAt {
      HeightOrder(name, Lookup(s, q[i]).value.expiresAt, Lookup(s, q[j]).value.expiresAt, s[q[i]].key, s[q[j]].key);
      assert Less(q[i], q[j]);
    }
  }

  ghost predicate NoneExpired(s: Store<Poll>, q: seq<Bytes>, n: nat, height: int)
    requires Entries(s, q)
  {
    forall i :: n <= i < |q| ==> Lookup(s, q[i]).Some? && Lookup(s, q[i]).value.expiresAt > height
  }

  /** In such a queue the expired polls are all at the front: fewer than the limit means all of them. */
  lemma NoExpiredLeft(s: Store<Poll>, q: seq<Bytes>, height: int, limit: int)
    requires Entries(s, q) && ByExpiry(s, q) && HandledCount(s, q, height, limit) < limit
    ensures NoneExpired(s, q, HandledCount(s, q, height, limit), height)
  {
    var n := HandledCount(s, q, height, limit);
    if n < |q| {
      assert !Takes(s, q, n, height);
      assert Lookup(s, q[n]).Some? && Lookup(s, q[n]).value.expiresAt > height;
    }
  }

  // Handling polls in order.

  /** The vote handlers, one after the other, each by the state of its poll. */
  function Fold<S>(s: S, ps: seq<Poll>, handle: VoteHandler<S>): Outcome<S> {
    if ps == [] then Done(s)
    else
      var before :- Fold(s, ps[..|ps| - 1], handle);
      handle(before, ps[|ps| - 1].id, ps[|ps| - 1].state)
  }

  /** All polls have a state, and none of their handlers fails. */
  ghost predicate Handleable<S>(s: S, ps: seq<Poll>, handle: VoteHandler<S>) {
    (forall i :: 0 <= i < |ps| ==> ps[i].state != NonExistent) && Fold(s, ps, handle).Done?
  }

  /** The polls before the `k`-th are handled; that one has no state, or its handler fails. */
  ghost predicate FailsAt<S>(s: S, ps: seq<Poll>, k: nat, handle: VoteHandler<S>, panics: bool) {
    && k < |ps| && Handleable(s, ps[..k], handle)
    && if ps[k].state == NonExistent then panics
       else handle(Fold(s, ps[..k], handle).value, ps[k].id, ps[k].state) == if panics then Panic else Error
  }

  ghost predicate Fails<S>(s: S, ps: seq<Poll>, handle: VoteHandler<S>, panics: bool) {
    exists k: nat :: FailsAt(s, ps, k, handle, panics)
  }

  lemma HandleableNext<S>(s: S, ps: seq<Poll>, k: nat, handle: VoteHandler<S>)
    requires k < |ps| && Handleable(s, ps[..k], handle)
    ensures var out := handle(Fold(s, ps[..k], handle).value, ps[k].id, ps[k].state);
      && Fold(s, ps[..k + 1], handle) == out
      && (Handleable(s, ps[..k + 1], handle) <==> ps[k].state != NonExistent && out.Done?)
  {
    var front, all := ps[..k], ps[..k + 1];
    assert all[..k] == front && all[k] == ps[k];
    assert forall i :: 0 <= i < k ==> all[i] == front[i];
  }

  lemma {:induction false} HandleablePrefix<S>(s: S, ps: seq<Poll>, k: nat, handle: VoteHandler<S>)
    requires k <= |ps| && Handleable(s, ps, handle)
    ensures Handleable(s, ps[..k], handle)
  {
    if k == |ps| {
      assert ps[..k] == ps;
    } else {
      var front := ps[..|ps| - 1];
      assert forall i :: 0 <= i < |front| ==> front[i] == ps[i];
      HandleablePrefix(s, front, k, handle);
      assert front[..k] == ps[..k];
    }
  }

  lemma FailureIsFinal<S>(s: S, ps: seq<Poll>, k: nat, handle: VoteHandler<S>, panics: bool)
    requires FailsAt(s, ps, k, handle, panics)
    ensures Fails(s, ps, handle, panics) && !Handleable(s, ps, handle)
  {
    HandleableNext(s, ps, k, handle);
    if Handleable(s, ps, handle) {
      HandleablePrefix(s, ps, k + 1, handle);
    }
  }

  // The store after some polls.

  /** The entries and the polls of the first `k` entries. */
  ghost function Gone(s: Store<Poll>, q: seq<Bytes>, k: nat): set<Bytes>
    requires Entries(s, q) && k <= |q|
  {
    (set i | 0 <= i < k :: q[i]) + (set i | 0 <= i < k :: s[q[i]].key)
  }

  lemma GoneNext(s: Store<Poll>, q: seq<Bytes>, k: nat)
    requires Entries(s, q) && k < |q|
    ensures s - Gone(s, q, k + 1) == s - Gone(s, q, k) - {q[k]} - {s[q[k]].key}
  {
    assert Gone(s, q, k + 1) == Gone(s, q, k) + {q[k]} + {s[q[k]].key};
  }

  lemma OtherKeyInQueue<V>(s: Store<V>, name: Bytes, x: Bytes)
    requires !HasPrefix(x, name)
    ensures Queue(s - {x}, name) == Queue(s, name)
  {
    assert WithPrefix(s - {x}, name) == WithPrefix(s, name);
  }

  /** What the queue finds at its front after `k` polls: the `k`-th entry, with its poll unless that is gone. */
  lemma FrontAfter(s: Store<Poll>, name: Bytes, k: nat)
    requires Clean(s, name) && k < |Queue(s, name)| && Entries(s, Queue(s, name))
    ensures var q, now := Queue(s, name), s - Gone(s, Queue(s, name), k);
      && q[k] in now && now[q[k]] == s[q[k]] && !HasPrefix(s[q[k]].key, name)
      && Lookup(now, q[k]) == if exists j :: 0 <= j < k && s[q[j]].key == s[q[k]].key then None else Lookup(s, q[k])
  {
    var q := Queue(s, name);
    QueueEntries(s, name);
    assert q[k] in q;
    forall j | 0 <= j < k ensures q[j] != q[k] && s[q[j]].key != q[k] && q[j] != s[q[k]].key {
      assert q[j] in q && Less(q[j], q[k]);
      LessTotal(q[k], q[k]);
    }
  }

  class Keeper<S> {
    const queue: GeneralKVQueue<Poll>
    const keyOf: PollId -> Bytes
    var rest: S

    constructor (queue: GeneralKVQueue<Poll>, keyOf: PollId -> Bytes, rest: S)
      ensures this.queue == queue && this.keyOf == keyOf && this.rest == rest
    {
      this.queue, this.keyOf, this.rest := queue, keyOf, rest;
    }

    /** Where the loop stands after `k` polls; one equation, which the verifier takes as a whole. */
    ghost predicate Handled(s: Store<Poll>, q: seq<Bytes>, k: nat, height: int, was: S, handle: VoteHandler<S>)
      requires Entries(s, q)
      reads this, queue
    {
      (&& k <= |q| && TakesAll(s, q, k, height) && Handleable(was, Polls(s, q, k, height), handle)
       && queue.store == s - Gone(s, q, k) && Queue(queue.store, queue.name) == q[k..]
       && rest == Fold(was, Polls(s, q, k, height), handle).value) == true
    }

    /** One turn of the loop: the entry at the front is left alone, or its poll is handled and both are deleted. */
    method HandleNext(height: int, handle: VoteHandler<S>, ghost s: Store<Poll>, ghost k: nat, ghost was: S)
        returns (out: Option<Outcome<S>>)
      requires Clean(s, queue.name) && Entries(s, Queue(s, queue.name)) && OwnKeys(s, Queue(s, queue.name), keyOf)
      requires queue.Valid() && Handled(s, Queue(s, queue.name), k, height, was, handle)
      modifies this, queue
      ensures var q := Queue(s, queue.name);
        match out
        case None => Handled(s, q, k, height, was, handle) && queue.Valid() && (k == |q| || !Takes(s, q, k, height))
        case Some(o) =>
          && k < |q| && Takes(s, q, k, height)
          && if o.Done? then queue.Valid() && Handled(s, q, k + 1, height, was, handle)
             else Refused(s, q, k, height, was, handle, o.Panic?)
    {
      ghost var q := Queue(s, queue.name);
      if k < |q| {
        FrontAfter(s, queue.name, k);
      }
      var next := queue.DequeueIf((p: Poll) => height >= p.expiresAt);
      if next.None? {
        return None;
      }
      assert Takes(s, q, k, height) && next == Lookup(s, q[k]);
      var id := next.value.id;
      assert q[k] in q && keyOf(id) == s[q[k]].key;
      var poll := queue.store[keyOf(id)].value;
      if poll.state == NonExistent {
        return Some(Panic);
      }
      out := Some(handle(rest, id, poll.state));
      if out.value.Done? {
        PollsNext(s, q, k, height, was, handle);
        GoneNext(s, q, k);
        OtherKeyInQueue(queue.store, queue.name, keyOf(id));
        rest := out.value.value;
        queue.store := queue.store - {keyOf(id)};
      }
    }

    /**
      The end of a run over the first `n` polls. It succeeds exactly if they all have a
      state and no vote handler fails; then the handlers have run in order and exactly
      these entries and polls are deleted. Otherwise the first poll in the way decides.
     */
    ghost predicate Ends(r: Outcome<nat>, s: Store<Poll>, q: seq<Bytes>, n: nat, height: int, was: S, handle: VoteHandler<S>)
      requires Entries(s, q) && n <= |q| && TakesAll(s, q, n, height)
      reads this, queue
    {
      (&& (r.Done? <==> Handleable(was, Polls(s, q, n, height), handle))
       && (r.Done? ==> r.value == n && Handled(s, q, n, height, was, handle))
       && (r.IsFailure() ==> Fails(was, Polls(s, q, n, height), handle, r.Panic?))) == true
    }

    lemma StartsHandled(height: int, handle: VoteHandler<S>)
      requires Entries(queue.store, Queue(queue.store, queue.name))
      ensures Handled(queue.store, Queue(queue.store, queue.name), 0, height, rest, handle)
    {
      var s, q := queue.store, Queue(queue.store, queue.name);
      assert s - Gone(s, q, 0) == s && q[0..] == q;
    }

    lemma EndsWell(s: Store<Poll>, q: seq<Bytes>, n: nat, height: int, was: S, handle: VoteHandler<S>)
      requires Entries(s, q) && n <= |q| && TakesAll(s, q, n, height) && Handled(s, q, n, height, was, handle)
      ensures Ends(Done(n), s, q, n, height, was, handle)
    {
    }

    lemma EndsBadly(s: Store<Poll>, q: seq<Bytes>, k: nat, n: nat, height: int, was: S, handle: VoteHandler<S>, r: Outcome<nat>)
      requires Entries(s, q) && k < n <= |q| && TakesAll(s, q, n, height)
      requires r.IsFailure() && Refused(s, q, k, height, was, handle, r.Panic?)
      ensures Ends(r, s, q, n, height, was, handle)
    {
      Stop(s, q, k, n, height, was, handle, r.Panic?);
    }

    /**
      Handles expired polls, oldest first, at most `limit` of them; an entry whose poll is
      gone ends the loop. The poll of a dequeued entry is always found.
     */
    method HandlePollsAtExpiry(height: int, limit: int, handle: VoteHandler<S>) returns (r: Outcome<nat>)
      requires queue.Valid() && Entries(queue.store, Queue(queue.store, queue.name))
      requires OwnKeys(queue.store, Queue(queue.store, queue.name), keyOf)
      modifies this, queue
      ensures var s := old(queue.store);
        var q := Queue(s, queue.name);
        var n := HandledCount(s, q, height, limit);
        && Ends(r, s, q, n, height, old(rest), handle)
        && (n < limit && ByExpiry(s, q) ==> NoneExpired(s, q, n, height))
    {
      ghost var s := queue.store;
      ghost var q := Queue(s, queue.name);
      ghost var n := HandledCount(s, q, height, limit);
      if n < limit && ByExpiry(s, q) {
        NoExpiredLeft(s, q, height, limit);
      }
      r := HandleTaken(height, limit, handle, s, n);
    }

    /** One turn of the loop, for the number of polls that it takes. */
    method HandleOne(height: int, limit: int, handle: VoteHandler<S>, ghost s: Store<Poll>, k: nat, ghost n: nat, ghost was: S)
        returns (out: Option<Outcome<nat>>)
      requires Clean(s, queue.name) && Entries(s, Queue(s, queue.name)) && OwnKeys(s, Queue(s, queue.name), keyOf)
      requires IsCount(s, Queue(s, queue.name), n, height, limit) && k <= n && k < limit
      requires queue.Valid() && Handled(s, Queue(s, queue.name), k, height, was, handle)
      modifies this, queue
      ensures out.None? ==> k == n && queue.Valid() && Handled(s, Queue(s, queue.name), n, height, was, handle)
      ensures out.Some? && out.value.Done? ==>
        k < n && queue.Valid() && Handled(s, Queue(s, queue.name), k + 1, height, was, handle)
      ensures out.Some? && !out.value.Done? ==> Ends(out.value, s, Queue(s, queue.name), n, height, was, handle)
    {
      ghost var q := Queue(s, queue.name);
      MoreToTake(s, q, k, n, height, limit);
      var next := HandleNext(height, handle, s, k, was);
      if next.None? {
        return None;
      }
      if next.value.Done? {
        return Some(Done(k + 1));
      }
      EndsBadly(s, q, k, n, height, was, handle, next.value.PropagateFailure());
      return Some(next.value.PropagateFailure());
    }

    /** The loop, for the number of polls that it takes. */
    method HandleTaken(height: int, limit: int, handle: VoteHandler<S>, ghost s: Store<Poll>, ghost n: nat) returns (r: Outcome<nat>)
      requires queue.Valid() && queue.store == s && Entries(s, Queue(s, queue.name)) && OwnKeys(s, Queue(s, queue.name), keyOf)
      requires IsCount(s, Queue(s, queue.name), n, height, limit)
      modifies this, queue
      ensures Ends(r, s, Queue(s, queue.name), n, height, old(rest), handle)
    {
      ghost var q := Queue(s, queue.name);
      var handled := 0;
      StartsHandled(height, handle);
      while handled < limit
        invariant 0 <= handled <= n && queue.Valid() && Handled(s, q, handled, height, old(rest), handle)
      {
        var out := HandleOne(height, limit, handle, s, handled, n, old(rest));
        if out.None? {
          break;
        }
        if !out.value.Done? {
          return out.value;
        }
        handled := handled + 1;
      }
      EndsWell(s, q, n, height, old(rest), handle);
      return Done(handled);
    }
  }

  /** The `k`-th poll has no state, or its handler fails on what the polls before it left. */
  ghost predicate Refused<S>(s: Store<Poll>, q: seq<Bytes>, k: nat, height: int, was: S, handle: VoteHandler<S>, panics: bool)
    requires Entries(s, q) && k < |q|
  {
    && TakesAll(s, q, k, height) && Handleable(was, Polls(s, q, k, height), handle) && Lookup(s, q[k]).Some?
    && var p := Lookup(s, q[k]).value;
       if p.state == NonExistent then panics
       else handle(Fold(was, Polls(s, q, k, height), handle).value, p.id, p.state) == if panics then Panic else Error
  }

  lemma MoreToTake(s: Store<Poll>, q: seq<Bytes>, k: nat, n: nat, height: int, limit: int)
    requires Entries(s, q) && k <= n && k < limit && IsCount(s, q, n, height, limit)
    ensures k < n <==> k < |q| && Takes(s, q, k, height)
  {
  }

  lemma PollsNext<S>(s: Store<Poll>, q: seq<Bytes>, k: nat, height: int, was: S, handle: VoteHandler<S>)
    requires Entries(s, q) && k < |q| && TakesAll(s, q, k + 1, height) && Handleable(was, Polls(s, q, k, height), handle)
    requires var p := Lookup(s, q[k]);
      p.Some? && p.value.state != NonExistent
      && handle(Fold(was, Polls(s, q, k, height), handle).value, p.value.id, p.value.state).Done?
    ensures Handleable(was, Polls(s, q, k + 1, height), handle)
    ensures var p := Lookup(s, q[k]).value;
      Fold(was, Polls(s, q, k + 1, height), handle) == handle(Fold(was, Polls(s, q, k, height), handle).value, p.id, p.state)
  {
    var ps := Polls(s, q, k + 1, height);
    assert ps[..k] == Polls(s, q, k, height) && ps[..k + 1] == ps;
    HandleableNext(was, ps, k, handle);
  }

  lemma Stop<S>(s: Store<Poll>, q: seq<Bytes>, k: nat, n: nat, height: int, was: S, handle: VoteHandler<S>, panics: bool)
    requires Entries(s, q) && k < n <= |q| && TakesAll(s, q, n, height) && Refused(s, q, k, height, was, handle, panics)
    ensures Fails(was, Polls(s, q, n, height), handle, panics) && !Handleable(was, Polls(s, q, n, height), handle)
  {
    var ps := Polls(s, q, n, height);
    assert ps[..k] == Polls(s, q, k, height);
    FailureIsFinal(was, ps, k, handle, panics);
  }
}
