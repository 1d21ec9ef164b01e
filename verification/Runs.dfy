/** Runs of a state machine given by their steps: `can` says when a step may be taken, `next` what it does. */
module Runs {

  predicate Legal<S(!new), T(!new)>(can: (S, T) -> bool, next: (S, T) -> S, s: S, steps: seq<T>)
    decreases |steps|
  {
    steps == [] || (can(s, steps[0]) && Legal(can, next, next(s, steps[0]), steps[1..]))
  }

  function Final<S(!new), T(!new)>(next: (S, T) -> S, s: S, steps: seq<T>): S
    decreases |steps|
  {
    if steps == [] then s else Final(next, next(s, steps[0]), steps[1..])
  }

  /** The states in front of each step, and the last one. */
  function StatesOf<S(!new), T(!new)>(next: (S, T) -> S, s: S, steps: seq<T>): (r: seq<S>)
    ensures |r| == |steps| + 1 && r[0] == s
    decreases |steps|
  {
    [s] + if steps == [] then [] else StatesOf(next, next(s, steps[0]), steps[1..])
  }

  lemma NoSteps<S(!new), T(!new)>(can: (S, T) -> bool, next: (S, T) -> S, s: S)
    ensures Legal(can, next, s, []) && Final(next, s, []) == s
  {
  }

  lemma {:induction false} Concatenated<S(!new), T(!new)>(
    can: (S, T) -> bool, next: (S, T) -> S, s: S, a: seq<T>, b: seq<T>)
    requires Legal(can, next, s, a) && Legal(can, next, Final(next, s, a), b)
    ensures Legal(can, next, s, a + b) && Final(next, s, a + b) == Final(next, Final(next, s, a), b)
    ensures StatesOf(next, s, a + b)[|a|] == Final(next, s, a)
    decreases |a|
  {
    if a == [] {
      assert a + b == b;
    } else {
      Concatenated(can, next, next(s, a[0]), a[1..], b);
      assert (a + b)[0] == a[0] && (a + b)[1..] == a[1..] + b;
    }
  }

  /** One more step. */
  lemma Then<S(!new), T(!new)>(can: (S, T) -> bool, next: (S, T) -> S, s: S, steps: seq<T>, step: T)
    requires Legal(can, next, s, steps) && can(Final(next, s, steps), step)
    ensures Legal(can, next, s, steps + [step])
    ensures Final(next, s, steps + [step]) == next(Final(next, s, steps), step)
    ensures StatesOf(next, s, steps + [step])[|steps|] == Final(next, s, steps)
  {
    assert [step][1..] == [];
    assert Legal(can, next, Final(next, s, steps), [step]);
    Concatenated(can, next, s, steps, [step]);
  }

  lemma {:induction false} StatesFollow<S(!new), T(!new)>(
    can: (S, T) -> bool, next: (S, T) -> S, s: S, steps: seq<T>, i: nat)
    requires Legal(can, next, s, steps) && i < |steps|
    ensures var states := StatesOf(next, s, steps);
      can(states[i], steps[i]) && states[i + 1] == next(states[i], steps[i])
    decreases |steps|
  {
    if i > 0 {
      StatesFollow(can, next, next(s, steps[0]), steps[1..], i - 1);
    }
  }

  /** Each state but the first comes from the one before it by the step between them. */
  ghost predicate Follows<S(!new), T(!new)>(can: (S, T) -> bool, next: (S, T) -> S, states: seq<S>, steps: seq<T>) {
    && |states| == |steps| + 1
    && forall i {:trigger steps[i]} :: 0 <= i < |steps| ==>
         can(states[i], steps[i]) && states[i + 1] == next(states[i], steps[i])
  }

  lemma LegalFollows<S(!new), T(!new)>(can: (S, T) -> bool, next: (S, T) -> S, s: S, steps: seq<T>)
    requires Legal(can, next, s, steps)
    ensures Follows(can, next, StatesOf(next, s, steps), steps)
  {
    hide Legal, StatesOf;
    forall i | 0 <= i < |steps|
      ensures can(StatesOf(next, s, steps)[i], steps[i])
      ensures StatesOf(next, s, steps)[i + 1] == next(StatesOf(next, s, steps)[i], steps[i])
    {
      StatesFollow(can, next, s, steps, i);
    }
  }

  /** The last of the states is the final one. */
  lemma EndsInFinal<S(!new), T(!new)>(can: (S, T) -> bool, next: (S, T) -> S, s: S, steps: seq<T>)
    requires Legal(can, next, s, steps)
    ensures StatesOf(next, s, steps)[|steps|] == Final(next, s, steps)
  {
    NoSteps(can, next, Final(next, s, steps));
    assert steps + [] == steps;
    Concatenated(can, next, s, steps, []);
  }
}
