/**
 Runs of a transition system, and the one induction every safety theorem here rests on.
 A run lists its states and, between each two of them, the step that was taken.
 */
module Runs {
  ghost predicate IsRun<S(!new), E(!new)>(next: (S, E, S) -> bool, states: seq<S>, steps: seq<E>)
  {
    && |states| == |steps| + 1
    && forall i :: 0 <= i < |steps| ==> next(states[i], steps[i], states[i + 1])
  }

  /** A property that holds at the start and that every step keeps holds in every state. */
  lemma {:induction false} Invariance<S(!new), E(!new)>(
    next: (S, E, S) -> bool, inv: S -> bool, states: seq<S>, steps: seq<E>)
    requires IsRun(next, states, steps)
    requires inv(states[0])
    requires forall s, e, s' :: inv(s) && next(s, e, s') ==> inv(s')
    ensures forall i :: 0 <= i < |states| ==> inv(states[i])
  {
    var i := 0;
    while i < |steps|
      invariant 0 <= i <= |steps|
      invariant forall j :: 0 <= j <= i ==> inv(states[j])
    {
      assert next(states[i], steps[i], states[i + 1]);
      i := i + 1;
    }
  }

  /** Some run from `start` ends in `s`. */
  ghost predicate Reachable<S(!new), E(!new)>(next: (S, E, S) -> bool, start: S, s: S) {
    exists states: seq<S>, steps: seq<E> :: IsRun(next, states, steps) && states[0] == start && states[|steps|] == s
  }

  lemma Here<S(!new), E(!new)>(next: (S, E, S) -> bool, start: S)
    ensures Reachable(next, start, start)
  {
    var states, steps: seq<E> := [start], [];
    assert IsRun(next, states, steps) && states[0] == start && states[|steps|] == start;
  }

  /** One more step from a reachable state. */
  lemma Extend<S(!new), E(!new)>(next: (S, E, S) -> bool, start: S, s: S, e: E, s': S)
    requires Reachable(next, start, s) && next(s, e, s')
    ensures Reachable(next, start, s')
  {
    var states: seq<S>, steps: seq<E> :| IsRun(next, states, steps) && states[0] == start && states[|steps|] == s;
    var states', steps' := states + [s'], steps + [e];
    forall i | 0 <= i < |steps'|
      ensures next(states'[i], steps'[i], states'[i + 1])
    {
      assert i < |steps| ==> next(states[i], steps[i], states[i + 1]);
    }
    assert IsRun(next, states', steps') && states'[0] == start && states'[|steps'|] == s';
  }

  /** What has been logged after the first i steps of a run. */
  function History<S, E, H>(log: (S, E, H) -> H, start: H, states: seq<S>, steps: seq<E>, i: nat): H
    requires i <= |steps| <= |states|
  {
    if i == 0 then start else log(states[i - 1], steps[i - 1], History(log, start, states, steps, i - 1))
  }

  /** The same induction for a property of the state and the log together. */
  lemma {:induction false} HistoryInvariance<S(!new), E(!new), H(!new)>(
    next: (S, E, S) -> bool, log: (S, E, H) -> H, inv: (S, H) -> bool, start: H,
    states: seq<S>, steps: seq<E>, i: nat)
    requires IsRun(next, states, steps) && i < |states|
    requires inv(states[0], start)
    requires forall s, e, s', h :: inv(s, h) && next(s, e, s') ==> inv(s', log(s, e, h))
    ensures inv(states[i], History(log, start, states, steps, i))
  {
    if i > 0 {
      HistoryInvariance(next, log, inv, start, states, steps, i - 1);
      assert next(states[i - 1], steps[i - 1], states[i]);
    }
  }
}
