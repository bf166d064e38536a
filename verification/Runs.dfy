/**
 Runs of a state machine whose step function is total: an action that is not enabled leaves the
 state unchanged, so every sequence of actions is a run.
*/
module Runs {

  function Run<S, A>(step: (S, A) -> S, s: S, actions: seq<A>): S
    decreases |actions|
  {
    if actions == [] then s
    else step(Run(step, s, actions[..|actions| - 1]), actions[|actions| - 1])
  }

  /** What every step keeps, every run keeps. */
  lemma {:induction false} Keeps<S(!new), A(!new)>(step: (S, A) -> S, inv: S -> bool, s: S, actions: seq<A>)
    requires inv(s)
    requires forall t, a :: inv(t) ==> inv(step(t, a))
    ensures inv(Run(step, s, actions))
    decreases |actions|
  {
    if actions == [] {
    } else {
      Keeps(step, inv, s, actions[..|actions| - 1]);
    }
  }

  lemma {:induction false} Concat<S, A>(step: (S, A) -> S, s: S, a: seq<A>, b: seq<A>)
    ensures Run(step, s, a + b) == Run(step, Run(step, s, a), b)
    decreases |b|
  {
    if b == [] {
      assert a + b == a;
    } else {
      var front := b[..|b| - 1];
      assert (a + b)[..|a + b| - 1] == a + front;
      Concat(step, s, a, front);
    }
  }

  lemma Snoc<S, A>(step: (S, A) -> S, s: S, a: seq<A>, last: A)
    ensures Run(step, s, a + [last]) == step(Run(step, s, a), last)
  {
    assert (a + [last])[..|a + [last]| - 1] == a;
  }

  /** A trace that grows by what others did in the meantime and one action of one's own. */
  lemma Extend<S, A>(step: (S, A) -> S, s: S, trace: seq<A>, others: seq<A>, a: A, mid: S)
    requires mid == Run(step, Run(step, s, trace), others)
    ensures Run(step, s, trace + (others + [a])) == step(mid, a)
  {
    Snoc(step, Run(step, s, trace), others, a);
    Concat(step, s, trace, others + [a]);
  }

  /** Every action meets `ok` in the state it happens in. */
  ghost predicate Always<S, A>(step: (S, A) -> S, ok: (S, A) -> bool, s: S, actions: seq<A>)
    decreases |actions|
  {
    actions == [] ||
    (Always(step, ok, s, actions[..|actions| - 1])
     && ok(Run(step, s, actions[..|actions| - 1]), actions[|actions| - 1]))
  }

  /** What every step that meets `ok` keeps, every run of such steps keeps. */
  lemma {:induction false} KeepsWhen<S(!new), A(!new)>(
      step: (S, A) -> S, ok: (S, A) -> bool, inv: S -> bool, s: S, actions: seq<A>)
    requires inv(s) && Always(step, ok, s, actions)
    requires forall t, a :: inv(t) && ok(t, a) ==> inv(step(t, a))
    ensures inv(Run(step, s, actions))
    decreases |actions|
  {
    if actions == [] {
    } else {
      KeepsWhen(step, ok, inv, s, actions[..|actions| - 1]);
    }
  }
}
