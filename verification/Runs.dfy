/** Runs of a state machine whose goroutines take turns: `step` gives the state after one action, or none while
  * whoever would take it is elsewhere or blocked.
  */
module Runs {
  import opened Common

  /** The state a run of actions leads to from `s`, if each of them can be taken. */
  ghost function After<S, A>(step: (S, A) -> Option<S>, s: S, run: seq<A>): (r: Option<S>) {
    if run == [] then Some(s)
    else
      match After(step, s, run[..|run| - 1])
      case None => None
      case Some(t) => step(t, run[|run| - 1])
  }

  ghost predicate Keeps<S(!new), A(!new)>(step: (S, A) -> Option<S>, inv: S -> bool) {
    forall s, a :: inv(s) && step(s, a).Some? ==> inv(step(s, a).value)
  }

  /** What every step keeps, every run keeps. */
  lemma {:induction false} RunKeeps<S(!new), A(!new)>(step: (S, A) -> Option<S>, inv: S -> bool, s: S, run: seq<A>)
    requires inv(s) && Keeps(step, inv) && After(step, s, run).Some?
    ensures inv(After(step, s, run).value)
  {
    if run != [] {
      RunKeeps(step, inv, s, run[..|run| - 1]);
    }
  }

  lemma OneMore<S, A>(step: (S, A) -> Option<S>, s: S, run: seq<A>, t: S, a: A)
    requires After(step, s, run) == Some(t)
    ensures After(step, s, run + [a]) == step(t, a)
  {
    assert (run + [a])[..|run|] == run;
  }

  lemma One<S, A>(step: (S, A) -> Option<S>, s: S, a: A)
    ensures After(step, s, [a]) == step(s, a)
  {
    assert [a][..0] == [];
  }

  lemma {:induction false} Append<S, A>(step: (S, A) -> Option<S>, s: S, first: seq<A>, t: S, second: seq<A>)
    requires After(step, s, first) == Some(t)
    ensures After(step, s, first + second) == After(step, t, second)
  {
    if second == [] {
      assert first + second == first;
    } else {
      Append(step, s, first, t, second[..|second| - 1]);
      assert (first + second)[..|first + second| - 1] == first + second[..|second| - 1];
    }
  }

  /** A step followed by a run. */
  lemma StepThen<S, A>(step: (S, A) -> Option<S>, s: S, a: A, t: S, rest: seq<A>)
    requires step(s, a) == Some(t)
    ensures After(step, s, [a] + rest) == After(step, t, rest)
  {
    One(step, s, a);
    Append(step, s, [a], t, rest);
  }
}
