/** The batching broadcaster: its backlog, and its loop as a state machine over every interleaving. */
module Batcher {
  import opened Wrappers

  type Message = nat

  datatype Task = Task(id: nat, msgs: seq<Message>)

  const NO_TASK := Task(0, [])

  /**
    The backlog. The channel is `tail`; `head` holds a task already read from it,
    which counts as loaded when it has messages.
   */
  class Backlog {
    var head: Task
    var tail: seq<Task>

    /** Only tasks with messages are pushed. */
    ghost predicate Valid()
      reads this
    {
      forall t :: t in tail ==> t.msgs != []
    }

    ghost function Contents(): seq<Task>
      reads this
    {
      (if head.msgs == [] then [] else [head]) + tail
    }

    constructor ()
      ensures Valid() && Contents() == []
    {
      head, tail := NO_TASK, [];
    }

    method Push(t: Task) returns (queued: bool)
      requires Valid()
      modifies this
      ensures Valid() && (queued <==> t.msgs != [])
      ensures Contents() == old(Contents()) + if queued then [t] else []
    {
      queued := t.msgs != [];
      if queued {
        tail := tail + [t];
      }
      assert Contents() == old(Contents()) + if queued then [t] else [];
    }

    /** Reading an empty channel blocks, so the caller waits until there is something. */
    method LoadHead()
      requires Valid() && Contents() != []
      modifies this
      ensures Valid() && Contents() == old(Contents()) && head == Contents()[0]
    {
      if head.msgs == [] {
        head, tail := tail[0], tail[1..];
        assert [head] + tail == old(tail);
      }
    }

    method Peek() returns (t: Task)
      requires Valid() && Contents() != []
      modifies this
      ensures Valid() && Contents() == old(Contents()) && t == Contents()[0]
    {
      LoadHead();
      t := head;
    }

    method Pop() returns (t: Task)
      requires Valid() && Contents() != []
      modifies this
      ensures Valid() && [t] + Contents() == old(Contents())
    {
      LoadHead();
      t := head;
      head := NO_TASK;
      assert [t] + Contents() == [t] + tail;
    }

    method Len() returns (n: nat)
      ensures n == |Contents()|
    {
      n := if head.msgs == [] then |tail| else 1 + |tail|;
    }
  }

  // The loop.

  /** `Top` before the length test, `Low` before a single send, `Fill` and `Check` in the filling loop. */
  datatype Control = Top | Low | Fill | Check

  /**
    A task taken from the backlog, whether it was discarded as expired, and whether
    messages had been collected for a batch by then.
   */
  datatype Taken = Taken(task: Task, expired: bool, batchOpen: bool)

  /** One broadcast: the tasks whose callbacks got its result, and the messages it carried. */
  datatype Sent = Sent(tasks: seq<Task>, msgs: seq<Message>, merged: bool, result: nat)

  /**
    `msgs` and `callbacks` are the two lists the filling loop appends to; a callback
    is named by its task. The last three fields are the history.
   */
  datatype State = State(
    backlog: seq<Task>, at: Control, msgs: seq<Message>, callbacks: seq<Task>,
    arrived: seq<Task>, taken: seq<Taken>, sent: seq<Sent>)

  datatype Action =
    | Arrive(task: Task)
    | Go(expired: bool, result: nat)

  function Start(): State {
    State([], Top, [], [], [], [], [])
  }

  function Broadcast(s: State, result: nat): State {
    s.(at := Top, msgs := [], callbacks := [], sent := s.sent + [Sent(s.callbacks, s.msgs, true, result)])
  }

  function Pop(s: State, expired: bool): State
    requires s.backlog != []
  {
    s.(backlog := s.backlog[1..], taken := s.taken + [Taken(s.backlog[0], expired, |s.msgs| > 0)])
  }

  function SendAlone(s: State, result: nat): State
    requires s.backlog != []
  {
    var t := s.backlog[0];
    Pop(s, false).(at := Top, sent := s.sent + [Sent([t], t.msgs, false, result)])
  }

  function Collect(s: State): State
    requires s.backlog != []
  {
    var t := s.backlog[0];
    Pop(s, false).(at := Check, msgs := s.msgs + t.msgs, callbacks := s.callbacks + [t])
  }

  /** One step of the loop; None when it waits for a task to arrive. */
  function Advance(s: State, threshold: int, limit: int, expired: bool, result: nat): Option<State> {
    match s.at
    case Top => Some(s.(at := if |s.backlog| < threshold then Low else Fill))
    case Low => if s.backlog == [] then None else Some(SendAlone(s, result))
    case Fill =>
      if s.backlog == [] then None
      else if |s.msgs| > 0 && |s.msgs| + |s.backlog[0].msgs| > limit then Some(Broadcast(s, result))
      else if expired then Some(Pop(s, true))
      else Some(Collect(s))
    case Check => Some(if s.backlog == [] then Broadcast(s, result) else s.(at := Fill))
  }

  function Step(s: State, threshold: int, limit: int, a: Action): Option<State> {
    match a
    case Arrive(t) => Some(if t.msgs == [] then s else s.(backlog := s.backlog + [t], arrived := s.arrived + [t]))
    case Go(expired, result) => Advance(s, threshold, limit, expired, result)
  }

  /** A run: a step that is not enabled does not happen. */
  function Run(s: State, threshold: int, limit: int, actions: seq<Action>): State {
    if actions == [] then s
    else
      var before := Run(s, threshold, limit, actions[..|actions| - 1]);
      var next := Step(before, threshold, limit, actions[|actions| - 1]);
      if next.Some? then next.value else before
  }

  // What every run keeps.

  function TasksOf(taken: seq<Taken>): seq<Task> {
    seq(|taken|, i requires 0 <= i < |taken| => taken[i].task)
  }

  function MsgsOf(ts: seq<Task>): seq<Message> {
    if ts == [] then [] else MsgsOf(ts[..|ts| - 1]) + ts[|ts| - 1].msgs
  }

  /** The tasks that were taken and not discarded, in the order they were taken. */
  function Kept(taken: seq<Taken>): seq<Task> {
    if taken == [] then []
    else
      var before, last := Kept(taken[..|taken| - 1]), taken[|taken| - 1];
      if last.expired then before else before + [last.task]
  }

  /** The tasks that got a result, in the order of the broadcasts. */
  function Answered(sent: seq<Sent>): seq<Task> {
    if sent == [] then [] else Answered(sent[..|sent| - 1]) + sent[|sent| - 1].tasks
  }

  /** The task taken last was discarded as expired while a batch was open. */
  predicate LateInBatch(taken: seq<Taken>) {
    taken != [] && taken[|taken| - 1].expired && taken[|taken| - 1].batchOpen
  }

  ghost predicate InOrder(s: State) {
    && s.arrived == TasksOf(s.taken) + s.backlog
    && Kept(s.taken) == Answered(s.sent) + s.callbacks
  }

  ghost predicate GoodBroadcast(b: Sent, limit: int) {
    && b.tasks != [] && b.msgs != [] && b.msgs == MsgsOf(b.tasks)
    && (if b.merged then |b.tasks| == 1 || |b.msgs| <= limit else |b.tasks| == 1)
  }

  ghost predicate NoneEmpty(ts: seq<Task>) {
    forall i :: 0 <= i < |ts| ==> ts[i].msgs != []
  }

  /** The two lists of the filling loop belong together. */
  ghost predicate Batched(s: State, limit: int) {
    && NoneEmpty(s.backlog) && NoneEmpty(s.callbacks) && s.msgs == MsgsOf(s.callbacks)
    && (|s.callbacks| <= 1 || |s.msgs| <= limit)
  }

  ghost predicate Controlled(s: State) {
    && (s.at == Top || s.at == Low ==> s.callbacks == [])
    && (s.at == Check ==> s.callbacks != [] && !LateInBatch(s.taken))
    && (s.at != Check && s.backlog == [] ==> (s.callbacks != [] <==> LateInBatch(s.taken)))
  }

  ghost predicate Inv(s: State, limit: int) {
    && InOrder(s) && Batched(s, limit) && Controlled(s)
    && forall i :: 0 <= i < |s.sent| ==> GoodBroadcast(s.sent[i], limit)
  }

  lemma TasksOfNext(taken: seq<Taken>, t: Taken)
    ensures TasksOf(taken + [t]) == TasksOf(taken) + [t.task]
    ensures Kept(taken + [t]) == if t.expired then Kept(taken) else Kept(taken) + [t.task]
  {
    assert (taken + [t])[..|taken|] == taken;
  }

  lemma AnsweredNext(sent: seq<Sent>, b: Sent)
    ensures Answered(sent + [b]) == Answered(sent) + b.tasks
  {
    assert (sent + [b])[..|sent|] == sent;
  }

  lemma MsgsOfNext(ts: seq<Task>, t: Task)
    ensures MsgsOf(ts + [t]) == MsgsOf(ts) + t.msgs
  {
    assert (ts + [t])[..|ts|] == ts;
  }

  lemma MsgsOfSome(ts: seq<Task>)
    requires NoneEmpty(ts)
    ensures MsgsOf(ts) == [] <==> ts == []
  {
  }

  // Order.

  lemma MoveFirst(front: seq<Task>, rest: seq<Task>)
    requires rest != []
    ensures front + rest == front + [rest[0]] + rest[1..]
  {
  }

  lemma PopOrder(s: State, expired: bool)
    requires s.backlog != [] && s.arrived == TasksOf(s.taken) + s.backlog
    ensures var n := Pop(s, expired); n.arrived == TasksOf(n.taken) + n.backlog
    ensures Kept(Pop(s, expired).taken) == if expired then Kept(s.taken) else Kept(s.taken) + [s.backlog[0]]
  {
    TasksOfNext(s.taken, Taken(s.backlog[0], expired, |s.msgs| > 0));
    MoveFirst(TasksOf(s.taken), s.backlog);
  }

  lemma BroadcastOrder(s: State, result: nat)
    requires InOrder(s)
    ensures InOrder(Broadcast(s, result))
  {
    AnsweredNext(s.sent, Sent(s.callbacks, s.msgs, true, result));
    assert Answered(s.sent) + s.callbacks + [] == Answered(s.sent) + s.callbacks;
  }

  lemma AloneOrder(s: State, result: nat)
    requires InOrder(s) && s.backlog != [] && s.callbacks == []
    ensures InOrder(SendAlone(s, result))
  {
    var t := s.backlog[0];
    PopOrder(s, false);
    AnsweredNext(s.sent, Sent([t], t.msgs, false, result));
    assert Answered(s.sent) + [] + [t] == Answered(s.sent) + [t] + [];
  }

  lemma CollectOrder(s: State)
    requires InOrder(s) && s.backlog != []
    ensures InOrder(Collect(s))
  {
    PopOrder(s, false);
    assert Answered(s.sent) + s.callbacks + [s.backlog[0]] == Answered(s.sent) + (s.callbacks + [s.backlog[0]]);
  }

  lemma ArriveOrder(s: State, t: Task)
    requires InOrder(s)
    ensures InOrder(s.(backlog := s.backlog + [t], arrived := s.arrived + [t]))
  {
    assert TasksOf(s.taken) + s.backlog + [t] == TasksOf(s.taken) + (s.backlog + [t]);
  }

  // Steps.

  lemma BroadcastKeeps(s: State, limit: int, result: nat)
    requires Inv(s, limit) && s.callbacks != [] && (s.at == Check || s.backlog != [])
    ensures Inv(Broadcast(s, result), limit)
  {
    BroadcastOrder(s, result);
    MsgsOfSome(s.callbacks);
    assert GoodBroadcast(Sent(s.callbacks, s.msgs, true, result), limit);
  }

  lemma AloneKeeps(s: State, limit: int, result: nat)
    requires Inv(s, limit) && s.at == Low && s.backlog != []
    ensures Inv(SendAlone(s, result), limit)
  {
    AloneOrder(s, result);
    AloneIsGood(s.backlog[0], limit, result);
  }

  lemma AloneIsGood(t: Task, limit: int, result: nat)
    requires t.msgs != []
    ensures GoodBroadcast(Sent([t], t.msgs, false, result), limit)
  {
    MsgsOfNext([], t);
    assert [] + [t] == [t] && [] + t.msgs == t.msgs;
  }

  lemma DiscardKeeps(s: State, limit: int)
    requires Inv(s, limit) && s.at == Fill && s.backlog != []
    ensures Inv(Pop(s, true), limit)
  {
    PopOrder(s, true);
    MsgsOfSome(s.callbacks);
  }

  lemma CollectKeeps(s: State, limit: int)
    requires Inv(s, limit) && s.at == Fill && s.backlog != []
    requires |s.msgs| == 0 || |s.msgs| + |s.backlog[0].msgs| <= limit
    ensures Inv(Collect(s), limit)
  {
    CollectOrder(s);
    MsgsOfSome(s.callbacks);
    MsgsOfNext(s.callbacks, s.backlog[0]);
  }

  lemma AdvanceKeeps(s: State, threshold: int, limit: int, expired: bool, result: nat)
    requires Inv(s, limit) && Advance(s, threshold, limit, expired, result).Some?
    ensures Inv(Advance(s, threshold, limit, expired, result).value, limit)
  {
    match s.at {
      case Top =>
      case Low => AloneKeeps(s, limit, result);
      case Fill =>
        MsgsOfSome(s.callbacks);
        if |s.msgs| > 0 && |s.msgs| + |s.backlog[0].msgs| > limit {
          BroadcastKeeps(s, limit, result);
        } else if expired {
          DiscardKeeps(s, limit);
        } else {
          CollectKeeps(s, limit);
        }
      case Check =>
        if s.backlog == [] {
          BroadcastKeeps(s, limit, result);
        }
    }
  }

  lemma ArriveKeeps(s: State, threshold: int, limit: int, t: Task)
    requires Inv(s, limit)
    ensures Inv(Step(s, threshold, limit, Arrive(t)).value, limit)
  {
    ArriveOrder(s, t);
  }

  lemma {:induction false} RunKeepsInv(threshold: int, limit: int, actions: seq<Action>)
    ensures Inv(Run(Start(), threshold, limit, actions), limit)
  {
    if actions != [] {
      var a := actions[|actions| - 1];
      var before := Run(Start(), threshold, limit, actions[..|actions| - 1]);
      RunKeepsInv(threshold, limit, actions[..|actions| - 1]);
      if a.Go? {
        if Step(before, threshold, limit, a).Some? {
          AdvanceKeeps(before, threshold, limit, a.expired, a.result);
        }
      } else {
        ArriveKeeps(before, threshold, limit, a.task);
      }
    }
  }

  // What that says of results.

  /** The position of broadcast `b`'s task `j` among all answered tasks. */
  function PositionOf(sent: seq<Sent>, b: nat, j: nat): nat
    requires b < |sent|
  {
    |Answered(sent[..b])| + j
  }

  lemma {:induction false} FindAnswer(sent: seq<Sent>, p: nat) returns (b: nat, j: nat)
    requires p < |Answered(sent)|
    ensures b < |sent| && j < |sent[b].tasks| && PositionOf(sent, b, j) == p && sent[b].tasks[j] == Answered(sent)[p]
  {
    var front := sent[..|sent| - 1];
    if p < |Answered(front)| {
      b, j := FindAnswer(front, p);
      assert front[..b] == sent[..b];
    } else {
      b, j := |sent| - 1, p - |Answered(front)|;
    }
  }

  lemma {:induction false} AnsweredGrows(sent: seq<Sent>, b: nat, c: nat)
    requires b < c <= |sent|
    ensures |Answered(sent[..b])| + |sent[b].tasks| <= |Answered(sent[..c])|
  {
    assert sent[..c][..c - 1] == sent[..c - 1];
    if c > b + 1 {
      AnsweredGrows(sent, b, c - 1);
    }
  }

  lemma PositionIsUnique(sent: seq<Sent>, b: nat, j: nat, c: nat, k: nat)
    requires b < |sent| && j < |sent[b].tasks| && c < |sent| && k < |sent[c].tasks|
    requires PositionOf(sent, b, j) == PositionOf(sent, c, k)
    ensures b == c && j == k
  {
    if b < c {
      AnsweredGrows(sent, b, c);
    } else if c < b {
      AnsweredGrows(sent, c, b);
    }
  }

  lemma {:induction false} AnsweredAt(sent: seq<Sent>, b: nat, j: nat)
    requires b < |sent| && j < |sent[b].tasks|
    ensures PositionOf(sent, b, j) < |Answered(sent)| && Answered(sent)[PositionOf(sent, b, j)] == sent[b].tasks[j]
  {
    var front := sent[..|sent| - 1];
    if b < |front| {
      AnsweredAt(front, b, j);
      assert front[..b] == sent[..b];
    }
  }

  /** Tasks are told apart by their callback, here by `id`. */
  ghost predicate DistinctIds(ts: seq<Task>) {
    forall i, j :: 0 <= i < j < |ts| ==> ts[i].id != ts[j].id
  }

  lemma {:induction false} KeptIsTaken(taken: seq<Taken>, p: nat) returns (i: nat)
    requires p < |Kept(taken)|
    ensures i < |taken| && taken[i].task == Kept(taken)[p] && !taken[i].expired
  {
    var front := taken[..|taken| - 1];
    if p < |Kept(front)| {
      i := KeptIsTaken(front, p);
    } else {
      i := |taken| - 1;
    }
  }

  lemma {:induction false} KeptIsDistinct(taken: seq<Taken>)
    requires DistinctIds(TasksOf(taken))
    ensures DistinctIds(Kept(taken))
  {
    if taken != [] {
      var n := |taken| - 1;
      var front, last := taken[..n], taken[n].task;
      assert forall i :: 0 <= i < n ==> TasksOf(front)[i] == TasksOf(taken)[i];
      KeptIsDistinct(front);
      forall p | 0 <= p < |Kept(front)| ensures Kept(front)[p].id != last.id {
        var i := KeptIsTaken(front, p);
        assert TasksOf(taken)[i] == Kept(front)[p] && TasksOf(taken)[n] == last;
      }
    }
  }

  /**
    In every run, the tasks taken and not discarded are in arrival order, and each but
    those of the open batch has its result: from one broadcast, which carried exactly
    its tasks' messages.
   */
  lemma ServedInOrder(threshold: int, limit: int, actions: seq<Action>, p: nat) returns (b: nat, j: nat)
    requires var s := Run(Start(), threshold, limit, actions); p < |Kept(s.taken)| - |s.callbacks|
    ensures var s := Run(Start(), threshold, limit, actions);
      && TasksOf(s.taken) <= s.arrived
      && b < |s.sent| && j < |s.sent[b].tasks| && PositionOf(s.sent, b, j) == p && s.sent[b].tasks[j] == Kept(s.taken)[p]
      && GoodBroadcast(s.sent[b], limit)
  {
    RunKeepsInv(threshold, limit, actions);
    var s := Run(Start(), threshold, limit, actions);
    b, j := FindAnswer(s.sent, p);
  }

  lemma AnswersAreDistinct(s: State, b: nat, j: nat, c: nat, k: nat)
    requires InOrder(s) && DistinctIds(s.arrived)
    requires b < |s.sent| && j < |s.sent[b].tasks| && c < |s.sent| && k < |s.sent[c].tasks|
    requires s.sent[b].tasks[j].id == s.sent[c].tasks[k].id
    ensures b == c && j == k
  {
    assert DistinctIds(TasksOf(s.taken)) by {
      assert forall i :: 0 <= i < |s.taken| ==> TasksOf(s.taken)[i] == s.arrived[i];
    }
    KeptIsDistinct(s.taken);
    AnsweredAt(s.sent, b, j);
    AnsweredAt(s.sent, c, k);
    var kept, p, q := Kept(s.taken), PositionOf(s.sent, b, j), PositionOf(s.sent, c, k);
    assert kept[p] == s.sent[b].tasks[j] && kept[q] == s.sent[c].tasks[k];
    PositionIsUnique(s.sent, b, j, c, k);
  }

  /** In every run no task gets two results. */
  lemma AnsweredOnce(threshold: int, limit: int, actions: seq<Action>, b: nat, j: nat, c: nat, k: nat)
    requires var s := Run(Start(), threshold, limit, actions);
      && DistinctIds(s.arrived)
      && b < |s.sent| && j < |s.sent[b].tasks| && c < |s.sent| && k < |s.sent[c].tasks|
      && s.sent[b].tasks[j].id == s.sent[c].tasks[k].id
    ensures b == c && j == k
  {
    RunKeepsInv(threshold, limit, actions);
    AnswersAreDistinct(Run(Start(), threshold, limit, actions), b, j, c, k);
  }

  /** The loop has nothing to receive, with or without an open batch. */
  predicate Waiting(s: State) {
    s.backlog == [] && (s.at == Low || s.at == Fill)
  }

  lemma UnansweredIs(s: State)
    requires InOrder(s)
    ensures Answered(s.sent) == Kept(s.taken) <==> s.callbacks == []
    ensures s.backlog == [] ==> TasksOf(s.taken) == s.arrived
  {
    assert |Kept(s.taken)| == |Answered(s.sent)| + |s.callbacks|;
    assert Answered(s.sent) + [] == Answered(s.sent) && TasksOf(s.taken) + [] == TasksOf(s.taken);
  }

  /**
    A run waits exactly if no step of the loop is possible, whatever the clock says and a
    broadcast returns, so that only an arrival helps. Then all arrived tasks have been
    taken, and all that were not discarded have a result if and only if the task taken
    last was not discarded while a batch was open. Otherwise exactly the tasks of that
    batch have none.
   */
  lemma WaitingAnswers(threshold: int, limit: int, actions: seq<Action>)
    ensures var s := Run(Start(), threshold, limit, actions);
      && (Waiting(s) ==> forall expired, result :: Advance(s, threshold, limit, expired, result).None?)
      && (!Waiting(s) ==> forall expired, result :: Advance(s, threshold, limit, expired, result).Some?)
    ensures var s := Run(Start(), threshold, limit, actions);
      Waiting(s) ==>
      && TasksOf(s.taken) == s.arrived
      && Kept(s.taken) == Answered(s.sent) + s.callbacks
      && (Answered(s.sent) == Kept(s.taken) <==> !LateInBatch(s.taken))
  {
    RunKeepsInv(threshold, limit, actions);
    UnansweredIs(Run(Start(), threshold, limit, actions));
  }

  /** Two tasks, the second expired: the first is not answered until a third arrives. */
  lemma ExpiredTaskStrands(first: Task, second: Task, limit: int, result: nat) returns (actions: seq<Action>)
    requires first.msgs != [] && second.msgs != [] && |first.msgs| + |second.msgs| <= limit
    ensures var s := Run(Start(), 1, limit, actions);
      && Waiting(s) && s.taken == [Taken(first, false, false), Taken(second, true, true)]
      && s.callbacks == [first] && s.sent == []
  {
    var go, late := Go(false, result), Go(true, result);
    var s := Start();
    actions := [];
    actions, s := Then(actions, s, limit, Arrive(first));
    actions, s := Then(actions, s, limit, Arrive(second));
    actions, s := Then(actions, s, limit, go);
    actions, s := Then(actions, s, limit, go);
    actions, s := Then(actions, s, limit, go);
    assert s.callbacks == [first] && s.msgs == first.msgs && s.at == Fill;
    actions, s := Then(actions, s, limit, late);
  }

  lemma Then(before: seq<Action>, s: State, limit: int, a: Action) returns (actions: seq<Action>, next: State)
    requires Run(Start(), 1, limit, before) == s && Step(s, 1, limit, a).Some?
    ensures next == Step(s, 1, limit, a).value && Run(Start(), 1, limit, actions) == next
  {
    actions, next := before + [a], Step(s, 1, limit, a).value;
    assert actions[..|before|] == before;
  }
}
