/** Runs of a state machine: its actions one after another, whatever an action does. */
module Runs {

  function RunWith<S, A>(step: (S, A) -> S, s: S, actions: seq<A>): S
    decreases |actions|
  {
    if actions == [] then s else RunWith(step, step(s, actions[0]), actions[1..])
  }

  lemma {:induction false} RunConcat<S, A>(step: (S, A) -> S, s: S, a: seq<A>, b: seq<A>)
    ensures RunWith(step, s, a + b) == RunWith(step, RunWith(step, s, a), b)
    decreases |a|
  {
    if a == [] {
      assert a + b == b;
    } else {
      RunConcat(step, step(s, a[0]), a[1..], b);
      assert (a + b)[1..] == a[1..] + b;
    }
  }

  lemma RunOne<S, A>(step: (S, A) -> S, s: S, a: A)
    ensures RunWith(step, s, [a]) == step(s, a)
  {
    assert [a][1..] == [];
  }

  lemma OneMore<S, A>(step: (S, A) -> S, s: S, actions: seq<A>, i: nat)
    requires i < |actions|
    ensures RunWith(step, s, actions[..i + 1]) == step(RunWith(step, s, actions[..i]), actions[i])
  {
    RunConcat(step, s, actions[..i], [actions[i]]);
    RunOne(step, RunWith(step, s, actions[..i]), actions[i]);
    assert actions[..i + 1] == actions[..i] + [actions[i]];
  }

  lemma RunTwo<S, A>(step: (S, A) -> S, s: S, a: A, b: A)
    ensures RunWith(step, s, [a, b]) == step(step(s, a), b)
  {
    RunConcat(step, s, [a], [b]);
    RunOne(step, s, a);
    RunOne(step, step(s, a), b);
    assert [a] + [b] == [a, b];
  }

  lemma RunThree<S, A>(step: (S, A) -> S, s: S, a: A, b: A, c: A)
    ensures RunWith(step, s, [a, b, c]) == step(step(step(s, a), b), c)
  {
    RunConcat(step, s, [a], [b, c]);
    RunOne(step, s, a);
    RunTwo(step, step(s, a), b, c);
    assert [a] + [b, c] == [a, b, c];
  }

  lemma RunFour<S, A>(step: (S, A) -> S, s: S, a: A, b: A, c: A, d: A)
    ensures RunWith(step, s, [a, b, c, d]) == step(step(step(step(s, a), b), c), d)
  {
    RunConcat(step, s, [a, b], [c, d]);
    RunTwo(step, s, a, b);
    RunTwo(step, step(step(s, a), b), c, d);
    assert [a, b] + [c, d] == [a, b, c, d];
  }
}
