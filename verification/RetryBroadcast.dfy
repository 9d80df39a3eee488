/** The retrying broadcaster: a bounded retry loop that drops the message an error points at. */
module RetryBroadcast {
  import opened Wrappers

  type Message = nat
  type Response = nat

  /**
    A failed broadcast: the message index read from its text, if any, whether it is a
    registered SDK error, and whether it is one of the two SDK errors worth a retry.
   */
  datatype Fault = Fault(index: Option<int>, registered: bool, transient: bool)

  datatype Reply = Sent(response: Response) | Failed(fault: Fault)

  /** The inner broadcaster: attempt number and messages to reply. */
  type Network = (nat, seq<Message>) -> Reply

  /** What the call ends with; `Nothing` is neither a response nor an error. */
  datatype Final = Answer(response: Response) | Abort(fault: Fault) | Crash | Nothing

  datatype Next = Again(msgs: seq<Message>) | Stop | Broken

  function Without(ms: seq<Message>, i: nat): seq<Message>
    requires i < |ms|
  {
    ms[..i] + ms[i + 1..]
  }

  /** The decision after a failed attempt with `ms`. */
  function Decide(ms: seq<Message>, f: Fault): Next {
    if f.index.Some? && |ms| > 1 then
      var i := f.index.value;
      if 0 <= i < |ms| then Again(Without(ms, i)) else Broken
    else if !f.registered || f.transient then Again(ms)
    else Stop
  }

  /** The attempts made with at most `left` more retries, and the end. */
  function Attempts(ms: seq<Message>, done: nat, left: nat, net: Network): (seq<seq<Message>>, Final)
    decreases left
  {
    match net(done, ms)
    case Sent(response) => ([ms], Answer(response))
    case Failed(fault) =>
      match Decide(ms, fault)
      case Stop => ([ms], Abort(fault))
      case Broken => ([ms], Crash)
      case Again(next) =>
        if left == 0 then ([ms], Abort(fault))
        else
          var rest := Attempts(next, done + 1, left - 1, net);
          ([ms] + rest.0, rest.1)
  }

  function Outcomes(ms: seq<Message>, maxRetries: int, net: Network): (seq<seq<Message>>, Final) {
    if maxRetries < 0 then ([], Nothing) else Attempts(ms, 0, maxRetries, net)
  }

  // The loop, working on a copy of the caller's slice.

  /** Shifts the messages after `i` one place down. */
  method RemoveAt(a: array<Message>, n: nat, i: nat)
    requires i < n <= a.Length
    modifies a
    ensures a[..n - 1] == Without(old(a[..n]), i)
  {
    ghost var ms := a[..n];
    var k := i;
    while k < n - 1
      invariant i <= k <= n - 1
      invariant forall j :: 0 <= j < i ==> a[j] == ms[j]
      invariant forall j :: i <= j < k ==> a[j] == ms[j + 1]
      invariant forall j :: k < j < n ==> a[j] == ms[j]
    {
      a[k] := a[k + 1];
      k := k + 1;
    }
    assert forall j :: 0 <= j < n - 1 ==> a[..n - 1][j] == Without(ms, i)[j];
  }

  /** After the attempts in `before`, the loop goes on with `ms` towards the same end. */
  ghost predicate GoesOn(total: (seq<seq<Message>>, Final), before: seq<seq<Message>>, ms: seq<Message>, left: nat, net: Network) {
    var rest := Attempts(ms, |before|, left, net);
    total == (before + rest.0, rest.1)
  }

  lemma Unroll(total: (seq<seq<Message>>, Final), before: seq<seq<Message>>, ms: seq<Message>, left: nat, net: Network)
    requires GoesOn(total, before, ms, left, net)
    ensures var reply := net(|before|, ms);
      if reply.Sent? then total == (before + [ms], Answer(reply.response))
      else
        match Decide(ms, reply.fault)
        case Stop => total == (before + [ms], Abort(reply.fault))
        case Broken => total == (before + [ms], Crash)
        case Again(next) =>
          if left == 0 then total == (before + [ms], Abort(reply.fault)) else GoesOn(total, before + [ms], next, left - 1, net)
  {
    var reply := net(|before|, ms);
    if reply.Failed? && Decide(ms, reply.fault).Again? && left > 0 {
      var rest := Attempts(Decide(ms, reply.fault).msgs, |before| + 1, left - 1, net);
      assert before + ([ms] + rest.0) == before + [ms] + rest.0;
    }
  }

  lemma Begin(ms: seq<Message>, maxRetries: nat, net: Network)
    ensures GoesOn(Outcomes(ms, maxRetries, net), [], ms, maxRetries, net)
  {
    var all := Attempts(ms, 0, maxRetries, net).0;
    assert [] + all == all;
  }

  /** The error callback: drops the message the error points at, in place, and decides whether to go on. */
  method OnError(a: array<Message>, n: nat, f: Fault) returns (v: Next, m: nat)
    requires n <= a.Length
    modifies a
    ensures v == Decide(old(a[..n]), f) && m <= n && (v.Again? ==> a[..m] == v.msgs)
  {
    m := n;
    if f.index.Some? && n > 1 {
      var i := f.index.value;
      if !(0 <= i < n) {
        return Broken, n;
      }
      RemoveAt(a, n, i);
      m := n - 1;
    } else if f.registered && !f.transient {
      return Stop, n;
    }
    v := Again(a[..m]);
  }

  /** `Broadcast` of the pipelined broadcaster, with the retry loop it runs in. */
  method Broadcast(msgs: array<Message>, maxRetries: int, net: Network) returns (r: Final, attempts: seq<seq<Message>>)
    ensures (attempts, r) == Outcomes(msgs[..], maxRetries, net)
    ensures msgs[..] == old(msgs[..])
  {
    ghost var total := Outcomes(msgs[..], maxRetries, net);
    var retry := new Message[msgs.Length](i requires 0 <= i < msgs.Length reads msgs => msgs[i]);
    var n: nat := msgs.Length;
    assert retry[..n] == msgs[..];
    attempts, r := [], Nothing;
    if maxRetries >= 0 {
      Begin(msgs[..], maxRetries, net);
    }
    var i := 0;
    while i <= maxRetries
      invariant 0 <= i && n <= retry.Length && fresh(retry) && |attempts| == i && msgs[..] == old(msgs[..])
      invariant if i <= maxRetries then GoesOn(total, attempts, retry[..n], maxRetries - i, net) else (attempts, r) == total
    {
      var current := retry[..n];
      Unroll(total, attempts, current, maxRetries - i, net);
      attempts := attempts + [current];
      var reply := net(i, current);
      if reply.Sent? {
        return Answer(reply.response), attempts;
      }
      r := Abort(reply.fault);
      var next;
      next, n := OnError(retry, n, reply.fault);
      if next.Broken? {
        return Crash, attempts;
      }
      if next.Stop? {
        return r, attempts;
      }
      i := i + 1;
    }
  }

  // What holds of every run.

  /** `a` is `b` with some entries left out, in order. */
  ghost predicate Subsequence(a: seq<Message>, b: seq<Message>) {
    a == [] || (b != [] && ((a[0] == b[0] && Subsequence(a[1..], b[1..])) || Subsequence(a, b[1..])))
  }

  lemma {:induction false} SubsequenceSelf(a: seq<Message>)
    ensures Subsequence(a, a)
  {
    if a != [] {
      SubsequenceSelf(a[1..]);
    }
  }

  lemma {:induction false} SubsequenceTrans(a: seq<Message>, b: seq<Message>, c: seq<Message>)
    requires Subsequence(a, b) && Subsequence(b, c)
    ensures Subsequence(a, c)
    decreases |b| + |c|
  {
    if a != [] {
      if b[0] == c[0] && Subsequence(b[1..], c[1..]) {
        if a[0] == b[0] && Subsequence(a[1..], b[1..]) {
          SubsequenceTrans(a[1..], b[1..], c[1..]);
        } else {
          SubsequenceTrans(a, b[1..], c[1..]);
        }
      } else {
        SubsequenceTrans(a, b, c[1..]);
      }
    }
  }

  lemma {:induction false} RemovedIsSubsequence(ms: seq<Message>, i: nat)
    requires i < |ms|
    ensures Subsequence(Without(ms, i), ms)
  {
    var out := Without(ms, i);
    if i == 0 {
      assert out == ms[1..];
      SubsequenceSelf(ms[1..]);
    } else {
      RemovedIsSubsequence(ms[1..], i - 1);
      assert out[1..] == Without(ms[1..], i - 1);
      assert out[0] == ms[0];
    }
  }

  /** Every attempt sends a non-empty in-order selection of the messages, never more than its predecessor. */
  lemma {:induction false} AttemptsSelect(ms: seq<Message>, done: nat, left: nat, net: Network, k: nat)
    requires k < |Attempts(ms, done, left, net).0|
    ensures Subsequence(Attempts(ms, done, left, net).0[k], ms)
    ensures ms != [] ==> Attempts(ms, done, left, net).0[k] != []
    decreases left
  {
    SubsequenceSelf(ms);
    if k > 0 {
      var f := net(done, ms).fault;
      var next := Decide(ms, f).msgs;
      AttemptsSelect(next, done + 1, left - 1, net, k - 1);
      if next != ms {
        RemovedIsSubsequence(ms, f.index.value);
        SubsequenceTrans(Attempts(next, done + 1, left - 1, net).0[k - 1], next, ms);
      }
    }
  }

  /** Indices reported for a list of several messages lie in that list. */
  ghost predicate IndicesInRange(net: Network) {
    forall k, ms :: |ms| > 1 && net(k, ms).Failed? && net(k, ms).fault.index.Some? ==> 0 <= net(k, ms).fault.index.value < |ms|
  }

  /**
    Between one and `left + 1` attempts; all but the last failed; the end is the last
    attempt's response exactly when that attempt succeeded.
   */
  lemma {:induction false} AttemptsEnd(ms: seq<Message>, done: nat, left: nat, net: Network)
    ensures var (all, end) := Attempts(ms, done, left, net);
      && 1 <= |all| <= left + 1 && all[0] == ms
      && (forall k :: 0 <= k < |all| - 1 ==> net(done + k, all[k]).Failed?)
      && var last := net(done + |all| - 1, all[|all| - 1]);
         (last.Sent? ==> end == Answer(last.response)) &&
         (last.Failed? ==> end == if Decide(all[|all| - 1], last.fault).Broken? then Crash else Abort(last.fault))
    decreases left
  {
    var all := Attempts(ms, done, left, net).0;
    if |all| > 1 {
      var next := Decide(ms, net(done, ms).fault).msgs;
      AttemptsEnd(next, done + 1, left - 1, net);
      var rest := Attempts(next, done + 1, left - 1, net).0;
      assert all == [ms] + rest;
      forall k | 0 <= k < |all| - 1 ensures net(done + k, all[k]).Failed? {
        if k > 0 {
          assert all[k] == rest[k - 1] && net(done + 1 + (k - 1), rest[k - 1]).Failed?;
        }
      }
    }
  }

  /** It crashes only on an index outside the list. */
  lemma {:induction false} AttemptsDoNotCrash(ms: seq<Message>, done: nat, left: nat, net: Network)
    requires IndicesInRange(net)
    ensures Attempts(ms, done, left, net).1 != Crash
    decreases left
  {
    if net(done, ms).Failed? && Decide(ms, net(done, ms).fault).Again? && left > 0 {
      AttemptsDoNotCrash(Decide(ms, net(done, ms).fault).msgs, done + 1, left - 1, net);
    }
  }

  /** It gives up before the last retry only on an error that is not worth one. */
  lemma {:induction false} AttemptsPersist(ms: seq<Message>, done: nat, left: nat, net: Network)
    requires Attempts(ms, done, left, net).1.Abort?
    ensures var (all, end) := Attempts(ms, done, left, net);
      |all| == left + 1 || (1 <= |all| && Decide(all[|all| - 1], end.fault).Stop?)
    decreases left
  {
    if Decide(ms, net(done, ms).fault).Again? && left > 0 {
      AttemptsPersist(Decide(ms, net(done, ms).fault).msgs, done + 1, left - 1, net);
    }
  }

  /** The whole call, for a non-negative retry count. */
  lemma BroadcastRetries(ms: seq<Message>, maxRetries: nat, net: Network)
    ensures var (all, end) := Outcomes(ms, maxRetries, net);
      && 1 <= |all| <= maxRetries + 1
      && (forall k :: 0 <= k < |all| ==> Subsequence(all[k], ms) && (ms != [] ==> all[k] != []))
      && (end.Answer? <==> net(|all| - 1, all[|all| - 1]).Sent?)
      && end != Nothing && (IndicesInRange(net) ==> end != Crash)
  {
    var all := Outcomes(ms, maxRetries, net).0;
    AttemptsEnd(ms, 0, maxRetries, net);
    forall k | 0 <= k < |all| ensures Subsequence(all[k], ms) && (ms != [] ==> all[k] != []) {
      AttemptsSelect(ms, 0, maxRetries, net, k);
    }
    if IndicesInRange(net) {
      AttemptsDoNotCrash(ms, 0, maxRetries, net);
    }
  }

  /** A negative retry count sends nothing and reports neither a response nor an error; an index outside the list crashes. */
  lemma EdgeCases(ms: seq<Message>, net: Network, i: int, fault: Fault)
    requires |ms| > 1 && net(0, ms) == Failed(fault) && fault.index == Some(i) && !(0 <= i < |ms|)
    ensures forall retries: int :: Outcomes(ms, retries, net) == if retries < 0 then ([], Nothing) else ([ms], Crash)
  {
  }
}
