/** The reducer side of the store: what `reduce` in RxStore does to the
    current state, action after action, stated as a left fold. */
module Reduction {

  /** The state reached from `s` by reducing the actions `xs` one after
      the other, first action first. */
  function Fold<S, A>(reducer: (S, A) -> S, s: S, xs: seq<A>): S
    decreases |xs|
  {
    if xs == [] then s else Fold(reducer, reducer(s, xs[0]), xs[1..])
  }

  /** The states committed while reducing `xs` from `s`: one per action,
      in the order they are committed (and broadcast). */
  function Trace<S, A>(reducer: (S, A) -> S, s: S, xs: seq<A>): (t: seq<S>)
    ensures |t| == |xs|
    decreases |xs|
  {
    if xs == [] then [] else [reducer(s, xs[0])] + Trace(reducer, reducer(s, xs[0]), xs[1..])
  }

  /** Reducing one more action continues from where the fold stopped. */
  lemma {:induction false} FoldSnoc<S, A>(reducer: (S, A) -> S, s: S, xs: seq<A>, a: A)
    ensures Fold(reducer, s, xs + [a]) == reducer(Fold(reducer, s, xs), a)
    decreases |xs|
  {
    if xs != [] {
      assert (xs + [a])[1..] == xs[1..] + [a];
      FoldSnoc(reducer, reducer(s, xs[0]), xs[1..], a);
    }
  }

  /** Reducing one more action commits exactly one more state: the new
      current state. */
  lemma {:induction false} TraceSnoc<S, A>(reducer: (S, A) -> S, s: S, xs: seq<A>, a: A)
    ensures Trace(reducer, s, xs + [a]) == Trace(reducer, s, xs) + [reducer(Fold(reducer, s, xs), a)]
    decreases |xs|
  {
    if xs != [] {
      assert (xs + [a])[1..] == xs[1..] + [a];
      TraceSnoc(reducer, reducer(s, xs[0]), xs[1..], a);
    }
  }

  /** Folding over two batches in turn is folding over both at once. */
  lemma {:induction false} FoldConcat<S, A>(reducer: (S, A) -> S, s: S, xs: seq<A>, ys: seq<A>)
    ensures Fold(reducer, s, xs + ys) == Fold(reducer, Fold(reducer, s, xs), ys)
    decreases |xs|
  {
    if xs == [] {
      assert xs + ys == ys;
    } else {
      assert (xs + ys)[1..] == xs[1..] + ys;
      FoldConcat(reducer, reducer(s, xs[0]), xs[1..], ys);
    }
  }

  /** The k-th committed state is the fold over the first k + 1 actions;
      in particular the last one is the state the store ends in. */
  lemma {:induction false} TraceAt<S, A>(reducer: (S, A) -> S, s: S, xs: seq<A>, k: nat)
    requires k < |xs|
    ensures Trace(reducer, s, xs)[k] == Fold(reducer, s, xs[..k + 1])
    decreases |xs|
  {
    if k > 0 {
      assert xs[..k + 1][1..] == xs[1..][..k];
      TraceAt(reducer, reducer(s, xs[0]), xs[1..], k - 1);
    }
  }
}
