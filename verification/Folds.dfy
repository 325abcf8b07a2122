/** Running a step function over a list. */
module Folds {

  function Fold<S, E>(step: (S, E) -> S, start: S, xs: seq<E>): S {
    if xs == [] then start else step(Fold(step, start, xs[..|xs| - 1]), xs[|xs| - 1])
  }

  lemma {:induction false} FoldConcat<S, E>(step: (S, E) -> S, start: S, a: seq<E>, b: seq<E>)
    ensures Fold(step, start, a + b) == Fold(step, Fold(step, start, a), b)
    decreases |b|
  {
    if b == [] {
      assert a + b == a;
    } else {
      var n := |b| - 1;
      FoldConcat(step, start, a, b[..n]);
      assert (a + b)[..|a + b| - 1] == a + b[..n];
    }
  }

  /** A run is known when all its states are. */
  lemma {:induction false} FoldStates<S, E>(step: (S, E) -> S, xs: seq<E>, states: seq<S>)
    requires |states| == |xs| + 1
    requires forall i :: 0 <= i < |xs| ==> step(states[i], xs[i]) == states[i + 1]
    ensures Fold(step, states[0], xs) == states[|xs|]
  {
    if xs != [] {
      var n := |xs| - 1;
      FoldStates(step, xs[..n], states[..n + 1]);
    }
  }

  /** Lists whose elements act alike fold alike. */
  lemma {:induction false} FoldAlike<S, E>(step: (S, E) -> S, start: S, xs: seq<E>, ys: seq<E>)
    requires |xs| == |ys|
    requires forall i, s :: 0 <= i < |xs| ==> step(s, xs[i]) == step(s, ys[i])
    ensures Fold(step, start, xs) == Fold(step, start, ys)
  {
    if xs != [] {
      var n := |xs| - 1;
      FoldAlike(step, start, xs[..n], ys[..n]);
    }
  }
}
