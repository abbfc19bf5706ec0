/**
 The kernel as the commands see it (internal/kernel/decide.go, state.go): a pure step function
 over some state, of which only the run status is looked at. What the step does to anything
 else is a parameter.
 */
module Reducers {

  datatype Status = NotStarted | Queued | Running | Blocked | Paused | Succeeded | Failed | Cancelled | Expired

  predicate Terminal(s: Status) {
    s == Succeeded || s == Failed || s == Cancelled || s == Expired
  }

  /** kernel.State{}, kernel.Decide for one configuration, and State.Status. */
  datatype Reducer<!S, !E> = Reducer(initial: S, decide: (S, E) -> S, status: S -> Status)

  /** kernel.Fold, effects discarded. */
  function Fold<S, E>(k: Reducer<S, E>, st: S, events: seq<E>): S
    decreases |events|
  {
    if events == [] then st else k.decide(Fold(k, st, events[..|events| - 1]), events[|events| - 1])
  }

  /** The status a log folds to. */
  function StatusOf<S, E>(k: Reducer<S, E>, events: seq<E>): Status {
    k.status(Fold(k, k.initial, events))
  }

  /** The one law the commands rely on: a terminal status absorbs every later event. */
  ghost predicate Absorbing<S(!new), E(!new)>(k: Reducer<S, E>) {
    forall s, e :: Terminal(k.status(s)) ==> k.status(k.decide(s, e)) == k.status(s)
  }

  lemma {:induction false} FoldAppend<S, E>(k: Reducer<S, E>, st: S, a: seq<E>, e: E)
    ensures Fold(k, st, a + [e]) == k.decide(Fold(k, st, a), e)
  {
    assert (a + [e])[..|a|] == a;
  }

  lemma {:induction false} TerminalStays<S(!new), E(!new)>(k: Reducer<S, E>, a: seq<E>, b: seq<E>)
    requires Absorbing(k) && Terminal(StatusOf(k, a))
    ensures StatusOf(k, a + b) == StatusOf(k, a)
    decreases |b|
  {
    if b == [] {
      assert a + b == a;
    } else {
      var front, last := b[..|b| - 1], b[|b| - 1];
      assert a + b == (a + front) + [last];
      FoldAppend(k, k.initial, a + front, last);
      TerminalStays(k, a, front);
    }
  }
}
