/** Runs of a step machine: any sequence of steps, one after the other. */
module Runs {

  function Run<S, T>(apply: (S, T) -> S, s: S, steps: seq<T>): S {
    if steps == [] then s
    else apply(Run(apply, s, steps[..|steps| - 1]), steps[|steps| - 1])
  }

  lemma {:induction false} RunAppend<S, T>(apply: (S, T) -> S, s: S, a: seq<T>, b: seq<T>)
    ensures Run(apply, s, a + b) == Run(apply, Run(apply, s, a), b)
  {
    if b == [] {
      assert a + b == a;
    } else {
      var n := |b| - 1;
      assert (a + b)[..|a| + n] == a + b[..n];
      RunAppend(apply, s, a, b[..n]);
    }
  }

  // Short runs, step by step.

  lemma RunOne<S, T>(apply: (S, T) -> S, s: S, x: T)
    ensures Run(apply, s, [x]) == apply(s, x)
  {
    assert [x][..0] == [];
    assert Run(apply, s, []) == s;
  }

  lemma RunTwo<S, T>(apply: (S, T) -> S, s: S, x: T, y: T)
    ensures Run(apply, s, [x, y]) == apply(apply(s, x), y)
  {
    RunOne(apply, s, x);
    assert [x, y][..1] == [x];
  }

  lemma RunThree<S, T>(apply: (S, T) -> S, s: S, x: T, y: T, z: T)
    ensures Run(apply, s, [x, y, z]) == apply(apply(apply(s, x), y), z)
  {
    RunTwo(apply, s, x, y);
    assert [x, y, z][..2] == [x, y];
  }
}
