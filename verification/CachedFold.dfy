/**
  Runs of cached executions: every element runs on a copy of the state that is
  written back only if nothing failed (`utils.RunCached`, `ctx.CacheContext`).
 */
module CachedFold {
  import opened Wrappers

  /** What a handler makes of a state and an element. */
  type Handler<!S, !E, T> = (S, E) -> Outcome<(S, T)>

  /** The state after the elements ran one after the other; a failed one is not written back. */
  function After<S, E, T>(s: S, es: seq<E>, f: Handler<S, E, T>): S {
    if es == [] then s
    else
      var before := After(s, es[..|es| - 1], f);
      match f(before, es[|es| - 1])
      case Done((s1, _)) => s1
      case _ => before
  }

  /** What the handler answered for element `i`, on the state its predecessors left. */
  function AnswerAt<S, E, T>(s: S, es: seq<E>, f: Handler<S, E, T>, i: nat): Outcome<(S, T)>
    requires i < |es|
  {
    f(After(s, es[..i], f), es[i])
  }

  /** The elements that succeeded at their turn, in order. */
  function Succeeded<S, E, T>(s: S, es: seq<E>, f: Handler<S, E, T>): seq<E> {
    if es == [] then []
    else
      var front := es[..|es| - 1];
      Succeeded(s, front, f) + if f(After(s, front, f), es[|es| - 1]).Done? then [es[|es| - 1]] else []
  }

  /** Leaving the failed elements out altogether gives the same state, and then nothing fails. */
  lemma {:induction false} FailuresLeaveNoTrace<S, E, T>(s: S, es: seq<E>, f: Handler<S, E, T>)
    ensures After(s, Succeeded(s, es, f), f) == After(s, es, f)
    ensures Succeeded(s, Succeeded(s, es, f), f) == Succeeded(s, es, f)
    decreases |es|
  {
    if es != [] {
      var front, e := es[..|es| - 1], es[|es| - 1];
      var kept := Succeeded(s, front, f);
      FailuresLeaveNoTrace(s, front, f);
      if f(After(s, front, f), e).Done? {
        assert (kept + [e])[..|kept|] == kept;
      } else {
        assert kept + [] == kept;
      }
    }
  }

  lemma AfterNext<S, E, T>(s: S, es: seq<E>, f: Handler<S, E, T>, i: nat)
    requires i < |es|
    ensures After(s, es[..i + 1], f)
            == match AnswerAt(s, es, f, i) case Done((s1, _)) => s1 case _ => After(s, es[..i], f)
  {
    assert es[..i + 1][..i] == es[..i];
  }
}
