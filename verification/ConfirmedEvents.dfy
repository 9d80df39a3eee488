/** One pass of x/evm over the confirmed events of a chain, and the batch message of x/auxiliary. */
module ConfirmedEvents {
  import opened Wrappers
  import opened ByteStrings
  import opened ByteOrder
  import opened CachedFold
  import opened KVQueues

  type EventId = string

  datatype EventStatus = NonExistent | Confirmed | Completed | Failed

  /** An event, kept under the key that its queue entry refers to. */
  datatype Event = Event(id: EventId, status: EventStatus)

  type EventHandler<!S> = Handler<S, Event, ()>

  function MarkFor<S>(answer: Outcome<(S, ())>): EventStatus {
    if answer.Done? then Completed else Failed
  }

  /** `SetEventCompleted` and `SetEventFailed`: only a confirmed event can be marked. */
  function Mark(t: Store<Event>, key: Bytes, to: EventStatus): Outcome<Store<Event>> {
    if key in t && t[key].Val? && t[key].value.status == Confirmed then Done(t[key := Val(t[key].value.(status := to))])
    else Error
  }

  // The events that a pass takes.

  /** Every entry refers to the key of the event it stands for. */
  ghost predicate OwnKeys(s: Store<Event>, q: seq<Bytes>, keyOf: EventId -> Bytes)
    requires Entries(s, q)
  {
    forall i :: 0 <= i < |q| && Lookup(s, q[i]).Some? ==> s[q[i]].key == keyOf(Lookup(s, q[i]).value.id)
  }

  ghost predicate AllPresent(s: Store<Event>, q: seq<Bytes>, k: nat)
    requires Entries(s, q) && k <= |q|
  {
    forall i :: 0 <= i < k ==> Lookup(s, q[i]).Some?
  }

  /** The number of entries that are dequeued: up to the limit, the end, or an entry without its event. */
  ghost predicate IsTaken(s: Store<Event>, q: seq<Bytes>, n: nat, limit: int)
    requires Entries(s, q)
  {
    && n <= |q| && n <= (if limit < 0 then 0 else limit) && AllPresent(s, q, n)
    && (n < limit ==> n == |q| || Lookup(s, q[n]).None?)
  }

  ghost function Events(s: Store<Event>, q: seq<Bytes>, n: nat): seq<Event>
    requires Entries(s, q) && n <= |q| && AllPresent(s, q, n)
  {
    seq(n, i requires 0 <= i < n => Lookup(s, q[i]).value)
  }

  ghost function FirstKeys(q: seq<Bytes>, n: nat): set<Bytes>
    requires n <= |q|
  {
    set i | 0 <= i < n :: q[i]
  }

  /** `now` is `s` after the entries of `events` were dequeued; one equation, which the verifier takes as a whole. */
  ghost predicate TookFirst(now: Store<Event>, s: Store<Event>, name: Bytes, events: seq<Event>)
    requires Entries(s, Queue(s, name))
  {
    var q, n := Queue(s, name), |events|;
    (&& n <= |q| && AllPresent(s, q, n) && events == Events(s, q, n)
     && now == s - FirstKeys(q, n) && Queue(now, name) == q[n..]) == true
  }

  lemma TookNone(s: Store<Event>, name: Bytes)
    requires Entries(s, Queue(s, name))
    ensures TookFirst(s, s, name, [])
  {
    assert s - FirstKeys(Queue(s, name), 0) == s && Queue(s, name)[0..] == Queue(s, name);
  }

  /** What `Dequeue` finds at the front. */
  lemma FrontIs(now: Store<Event>, s: Store<Event>, name: Bytes, events: seq<Event>)
    requires Clean(s, name) && Entries(s, Queue(s, name)) && TookFirst(now, s, name, events)
    ensures var q, q', n := Queue(s, name), Queue(now, name), |events|;
      && (q' == [] <==> n == |q|)
      && (n < |q| ==> q'[0] == q[n] && q[n] in now && now[q[n]].Ref? && Lookup(now, q[n]) == Lookup(s, q[n]))
  {
    if |events| < |Queue(s, name)| {
      EventsStay(s, name, |events|, |events|);
    }
  }

  lemma TookNext(now: Store<Event>, next: Store<Event>, s: Store<Event>, name: Bytes, events: seq<Event>, e: Event)
    requires Entries(s, Queue(s, name)) && TookFirst(now, s, name, events) && |events| < |Queue(s, name)|
    requires var k := Queue(s, name)[|events|];
      Lookup(s, k) == Some(e) && next == now - {k} && Queue(next, name) == Queue(now, name)[1..]
    ensures TookFirst(next, s, name, events + [e])
  {
    var q, n := Queue(s, name), |events|;
    assert AllPresent(s, q, n + 1);
    EventsNext(s, q, n);
    KeysNext(s, q, n);
    assert q[n..][1..] == q[n + 1..];
  }

  lemma EventsNext(s: Store<Event>, q: seq<Bytes>, n: nat)
    requires Entries(s, q) && n < |q| && AllPresent(s, q, n + 1)
    ensures Events(s, q, n + 1) == Events(s, q, n) + [Lookup(s, q[n]).value]
  {
  }

  lemma KeysNext(s: Store<Event>, q: seq<Bytes>, n: nat)
    requires n < |q|
    ensures s - FirstKeys(q, n + 1) == s - FirstKeys(q, n) - {q[n]}
  {
    assert FirstKeys(q, n + 1) == FirstKeys(q, n) + {q[n]};
  }

  lemma TookIsTaken(now: Store<Event>, s: Store<Event>, name: Bytes, events: seq<Event>)
    requires Entries(s, Queue(s, name)) && TookFirst(now, s, name, events)
    ensures |events| <= |Queue(s, name)| && AllPresent(s, Queue(s, name), |events|)
  {
  }

  /** Dequeueing entries takes no event away. */
  lemma EventsStay(s: Store<Event>, name: Bytes, k: nat, i: nat)
    requires Clean(s, name) && Entries(s, Queue(s, name)) && k <= |Queue(s, name)| && k <= i < |Queue(s, name)|
    ensures var q, now := Queue(s, name), s - FirstKeys(Queue(s, name), k);
      q[i] in now && now[q[i]] == s[q[i]] && Lookup(now, q[i]) == Lookup(s, q[i])
  {
    var q := Queue(s, name);
    assert q[i] in q;
    forall j | 0 <= j < k ensures q[j] != q[i] && q[j] != s[q[i]].key {
      assert q[j] in q && Less(q[j], q[i]);
      LessTotal(q[i], q[i]);
    }
  }

  // The marks of a pass.

  ghost predicate DistinctKeys(es: seq<Event>, keyOf: EventId -> Bytes) {
    forall i, j :: 0 <= i < j < |es| ==> keyOf(es[i].id) != keyOf(es[j].id)
  }

  ghost predicate KeyAmong(es: seq<Event>, keyOf: EventId -> Bytes, x: Bytes) {
    exists i :: 0 <= i < |es| && keyOf(es[i].id) == x
  }

  /** Every event is confirmed, and none comes up twice. */
  ghost predicate Markable(es: seq<Event>, keyOf: EventId -> Bytes) {
    (forall i :: 0 <= i < |es| ==> es[i].status == Confirmed) && DistinctKeys(es, keyOf)
  }

  /** The store after the first `n` events were marked by their answers. */
  ghost function Marked<S>(t: Store<Event>, s: S, es: seq<Event>, keyOf: EventId -> Bytes, f: EventHandler<S>, n: nat): Store<Event>
    requires n <= |es|
  {
    if n == 0 then t
    else
      var e := es[n - 1];
      Marked(t, s, es, keyOf, f, n - 1)[keyOf(e.id) := Val(e.(status := MarkFor(AnswerAt(s, es, f, n - 1))))]
  }

  /** Nothing is written but the events of the pass. */
  lemma {:induction false} MarkedElsewhere<S>(t: Store<Event>, s: S, es: seq<Event>, keyOf: EventId -> Bytes, f: EventHandler<S>, n: nat, x: Bytes)
    requires n <= |es| && forall i :: 0 <= i < n ==> keyOf(es[i].id) != x
    ensures var m := Marked(t, s, es, keyOf, f, n); (x in m <==> x in t) && (x in t ==> m[x] == t[x])
  {
    if n > 0 {
      MarkedElsewhere(t, s, es, keyOf, f, n - 1, x);
    }
  }

  /** Each event of the pass is marked by its own answer. */
  lemma {:induction false} MarkedAt<S>(t: Store<Event>, s: S, es: seq<Event>, keyOf: EventId -> Bytes, f: EventHandler<S>, n: nat, i: nat)
    requires i < n <= |es| && forall j :: i < j < n ==> keyOf(es[j].id) != keyOf(es[i].id)
    ensures var m := Marked(t, s, es, keyOf, f, n);
      keyOf(es[i].id) in m && m[keyOf(es[i].id)] == Val(es[i].(status := MarkFor(AnswerAt(s, es, f, i))))
  {
    if i < n - 1 {
      MarkedAt(t, s, es, keyOf, f, n - 1, i);
    }
  }

  lemma MarkableNext(es: seq<Event>, keyOf: EventId -> Bytes, k: nat)
    requires k < |es| && Markable(es[..k], keyOf)
    ensures Markable(es[..k + 1], keyOf) <==> es[k].status == Confirmed && !KeyAmong(es[..k], keyOf, keyOf(es[k].id))
    ensures !Markable(es[..k + 1], keyOf) ==> !Markable(es, keyOf)
  {
    var front, all := es[..k], es[..k + 1];
    assert forall i :: 0 <= i < k ==> all[i] == front[i] == es[i];
    assert all[k] == es[k];
  }

  /** The next mark succeeds exactly if the event is confirmed and has not come up before. */
  lemma MarkNext<S>(t: Store<Event>, s: S, es: seq<Event>, keyOf: EventId -> Bytes, f: EventHandler<S>, k: nat, to: EventStatus)
    requires k < |es| && Markable(es[..k], keyOf) && to == MarkFor(AnswerAt(s, es, f, k))
    requires keyOf(es[k].id) in t && t[keyOf(es[k].id)] == Val(es[k])
    ensures var out := Mark(Marked(t, s, es, keyOf, f, k), keyOf(es[k].id), to);
      if Markable(es[..k + 1], keyOf) then out == Done(Marked(t, s, es, keyOf, f, k + 1)) else out == Error
  {
    var key := keyOf(es[k].id);
    MarkableNext(es, keyOf, k);
    if KeyAmong(es[..k], keyOf, key) {
      var i :| 0 <= i < k && keyOf(es[..k][i].id) == key;
      assert es[..k][i] == es[i];
      forall j | i < j < k ensures keyOf(es[j].id) != key {
        assert es[..k][j] == es[j];
      }
      MarkedAt(t, s, es, keyOf, f, k, i);
    } else {
      forall i | 0 <= i < k ensures keyOf(es[i].id) != key {
        assert es[..k][i] == es[i];
      }
      MarkedElsewhere(t, s, es, keyOf, f, k, key);
    }
  }

  class Keeper<S> {
    const queue: GeneralKVQueue<Event>
    const keyOf: EventId -> Bytes
    var rest: S

    constructor (queue: GeneralKVQueue<Event>, keyOf: EventId -> Bytes, rest: S)
      ensures this.queue == queue && this.keyOf == keyOf && this.rest == rest
    {
      this.queue, this.keyOf, this.rest := queue, keyOf, rest;
    }

    /** The first loop: entries are dequeued, the events stay in the store. */
    method TakeEvents(limit: int) returns (events: seq<Event>)
      requires queue.Valid() && Entries(queue.store, Queue(queue.store, queue.name))
      modifies queue
      ensures var s := old(queue.store);
        IsTaken(s, Queue(s, queue.name), |events|, limit) && TookFirst(queue.store, s, queue.name, events)
    {
      ghost var s := queue.store;
      events := [];
      TookNone(s, queue.name);
      while |events| < limit
        invariant queue.Valid() && TookFirst(queue.store, s, queue.name, events) && |events| <= (if limit < 0 then 0 else limit)
        decreases limit - |events|
      {
        FrontIs(queue.store, s, queue.name, events);
        ghost var now := queue.store;
        var event := queue.Dequeue();
        if event.None? {
          break;
        }
        TookNext(now, queue.store, s, queue.name, events, event.value);
        events := events + [event.value];
      }
      TookIsTaken(queue.store, s, queue.name, events);
    }

    /** The second loop: every event runs in a cached context and is marked; the first that cannot be marked panics. */
    method MarkEvents(events: seq<Event>, handler: EventHandler<S>) returns (panicked: bool)
      requires forall i :: 0 <= i < |events| ==>
        keyOf(events[i].id) in queue.store && queue.store[keyOf(events[i].id)] == Val(events[i])
      modifies this, queue
      ensures panicked <==> !Markable(events, keyOf)
      ensures !panicked ==> queue.store == Marked(old(queue.store), old(rest), events, keyOf, handler, |events|)
      ensures !panicked ==> rest == After(old(rest), events, handler)
    {
      ghost var t, was := queue.store, rest;
      var i := 0;
      while i < |events|
        invariant i <= |events| && Markable(events[..i], keyOf)
        invariant queue.store == Marked(t, was, events, keyOf, handler, i) && rest == After(was, events[..i], handler)
      {
        var e := events[i];
        var out := handler(rest, e);
        AfterNext(was, events, handler, i);
        MarkableNext(events, keyOf, i);
        MarkNext(t, was, events, keyOf, handler, i, MarkFor(out));
        if out.Done? {
          rest := out.value.0;
        }
        var marked := Mark(queue.store, keyOf(e.id), MarkFor(out));
        if !marked.Done? {
          return true;
        }
        queue.store := marked.value;
        i := i + 1;
      }
      assert events[..i] == events;
      return false;
    }

    /**
      `processConfirmedEventsForChain`: takes the first events off the queue and handles
      them in order. It panics exactly if one of them is not confirmed or comes up twice;
      otherwise each is marked once by its own outcome, and failing handlers leave no trace.
     */
    method ProcessConfirmedEvents(limit: int, handler: EventHandler<S>) returns (panicked: bool, events: seq<Event>)
      requires queue.Valid() && Entries(queue.store, Queue(queue.store, queue.name))
      requires OwnKeys(queue.store, Queue(queue.store, queue.name), keyOf)
      modifies this, queue
      ensures var s := old(queue.store);
        var q, n := Queue(s, queue.name), |events|;
        && IsTaken(s, q, n, limit) && events == Events(s, q, n)
        && (panicked <==> !Markable(events, keyOf))
        && (!panicked ==>
             && queue.store == Marked(s - FirstKeys(q, n), old(rest), events, keyOf, handler, n)
             && rest == After(old(rest), events, handler))
    {
      ghost var s := queue.store;
      ghost var q := Queue(s, queue.name);
      events := TakeEvents(limit);
      TookIsTaken(queue.store, s, queue.name, events);
      forall i | 0 <= i < |events|
        ensures keyOf(events[i].id) in queue.store && queue.store[keyOf(events[i].id)] == Val(events[i])
      {
        TakenIsStored(s, queue.name, keyOf, |events|, i);
      }
      panicked := MarkEvents(events, handler);
    }
  }

  lemma TakenIsStored(s: Store<Event>, name: Bytes, keyOf: EventId -> Bytes, n: nat, i: nat)
    requires Clean(s, name) && Entries(s, Queue(s, name)) && OwnKeys(s, Queue(s, name), keyOf)
    requires i < n <= |Queue(s, name)| && AllPresent(s, Queue(s, name), n)
    ensures var e, now := Events(s, Queue(s, name), n)[i], s - FirstKeys(Queue(s, name), n);
      keyOf(e.id) in now && now[keyOf(e.id)] == Val(e)
  {
    var q := Queue(s, name);
    assert Lookup(s, q[i]).Some? && q[i] in q;
    forall j | 0 <= j < n ensures q[j] != s[q[i]].key {
      assert q[j] in q;
    }
  }

  // ----------------------------------------------------------------- batch

  datatype Response<T> = Result(value: T) | Err

  /** What `Batch` answers for the messages before `n`: one response each. */
  function Responses<S, M, T>(s: S, msgs: seq<M>, f: Handler<S, M, T>, n: nat): (r: seq<Response<T>>)
    requires n <= |msgs|
    ensures |r| == n
    ensures forall i :: 0 <= i < n ==>
      r[i] == match AnswerAt(s, msgs, f, i) case Done((_, t)) => Result(t) case _ => Err
  {
    if n == 0 then []
    else Responses(s, msgs, f, n - 1) + [match AnswerAt(s, msgs, f, n - 1) case Done((_, t)) => Result(t) case _ => Err]
  }

  /** All signers agree and no execution panics, among the first `n` messages. */
  ghost predicate NoneStops<S, M, T>(s: S, msgs: seq<M>, signersOk: M -> bool, f: Handler<S, M, T>, n: nat)
    requires n <= |msgs|
  {
    forall i :: 0 <= i < n ==> signersOk(msgs[i]) && AnswerAt(s, msgs, f, i) != Panic
  }

  /** What one more message does to the state and to the responses. */
  lemma OneMoreMessage<S, M, T>(s: S, msgs: seq<M>, f: Handler<S, M, T>, i: nat, out: Outcome<(S, T)>)
    requires i < |msgs| && out == AnswerAt(s, msgs, f, i)
    ensures After(s, msgs[..i + 1], f) == if out.Done? then out.value.0 else After(s, msgs[..i], f)
    ensures Responses(s, msgs, f, i + 1) == Responses(s, msgs, f, i) + [if out.Done? then Result(out.value.1) else Err]
  {
    AfterNext(s, msgs, f, i);
  }

  lemma StopsOrNot<S, M, T>(s: S, msgs: seq<M>, signersOk: M -> bool, f: Handler<S, M, T>, i: nat)
    requires i < |msgs| && NoneStops(s, msgs, signersOk, f, i)
    ensures if signersOk(msgs[i]) && AnswerAt(s, msgs, f, i) != Panic then NoneStops(s, msgs, signersOk, f, i + 1)
            else !NoneStops(s, msgs, signersOk, f, |msgs|)
  {
  }

  /**
    `Batch`: a message whose signers differ stops the batch with an error, a panic
    is not caught; a failing message only gets an error response.
   */
  method Batch<S, M, T>(s: S, msgs: seq<M>, signersOk: M -> bool, f: Handler<S, M, T>) returns (r: Outcome<(S, seq<Response<T>>)>)
    ensures r.Done? <==> NoneStops(s, msgs, signersOk, f, |msgs|)
    ensures r.Done? ==> r.value == (After(s, msgs, f), Responses(s, msgs, f, |msgs|))
  {
    var state, results := s, [];
    var i := 0;
    while i < |msgs|
      invariant i <= |msgs| && state == After(s, msgs[..i], f) && results == Responses(s, msgs, f, i)
      invariant NoneStops(s, msgs, signersOk, f, i)
    {
      StopsOrNot(s, msgs, signersOk, f, i);
      if !signersOk(msgs[i]) {
        return Error;
      }
      var out := f(state, msgs[i]);
      if out.Panic? {
        return Panic;
      }
      OneMoreMessage(s, msgs, f, i, out);
      if out.Done? {
        state := out.value.0;
        results := results + [Result(out.value.1)];
      } else {
        results := results + [Err];
      }
      i := i + 1;
    }
    assert msgs[..i] == msgs;
    return Done((state, results));
  }
}
