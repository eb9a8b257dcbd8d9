/** Runs of a state machine whose step is a function of the state and the action. */
module Runs {
  function Run<S, A>(next: (S, A) -> S, s: S, actions: seq<A>): S
    decreases actions
  {
    if actions == [] then s else Run(next, next(s, actions[0]), actions[1..])
  }

  lemma {:induction false} RunExtends<S, A>(next: (S, A) -> S, s: S, actions: seq<A>, a: A)
    ensures Run(next, s, actions + [a]) == next(Run(next, s, actions), a)
    decreases actions
  {
    if actions != [] {
      assert (actions + [a])[1..] == actions[1..] + [a];
      RunExtends(next, next(s, actions[0]), actions[1..], a);
    }
  }

  lemma {:induction false} RunOfThree<S, A>(next: (S, A) -> S, s: S, a: A, b: A, c: A)
    ensures Run(next, s, [a, b, c]) == next(next(next(s, a), b), c)
  {
    assert [a, b, c][1..] == [b, c] && [b, c][1..] == [c] && [c][1..] == [];
    assert Run(next, next(next(s, a), b), [c]) == next(next(next(s, a), b), c);
    assert Run(next, next(s, a), [b, c]) == next(next(next(s, a), b), c);
  }

  lemma {:induction false} RunKeeps<S(!new), A(!new)>(next: (S, A) -> S, inv: S -> bool, s: S, actions: seq<A>)
    requires inv(s) && forall t, a :: inv(t) ==> inv(next(t, a))
    ensures inv(Run(next, s, actions))
    decreases actions
  {
    if actions != [] { RunKeeps(next, inv, next(s, actions[0]), actions[1..]); }
  }

  ghost predicate Reaches<S, A(!new)>(next: (S, A) -> S, s: S, s': S) {
    exists actions: seq<A> :: s' == Run(next, s, actions)
  }

  lemma {:induction false} ReachesNext<S, A(!new)>(next: (S, A) -> S, s: S, s': S, a: A)
    requires Reaches(next, s, s')
    ensures Reaches(next, s, next(s', a))
  {
    var actions :| s' == Run(next, s, actions);
    RunExtends(next, s, actions, a);
  }
}
