/** The middleware chain of RxStore: how `applyMiddleware` and the three
    `convert` adapters compose the middleware list around the terminal
    sink, and which actions come out at the sink.

    A middleware is modelled as the pure function from the action it is
    handed to the actions it passes to `next`, in the order it passes
    them: none (it drops the action), one (possibly a different one) or
    several. A dispatcher is modelled the same way, as the function from
    an action to the actions that reach the reducer because of it. */
module Chain {

  type Middleware<!A> = A -> seq<A>

  type Dispatcher<!A> = A -> seq<A>

  /** Hands every action of `xs`, in order, to `next`, and collects what
      reaches the sink. */
  function FlatMap<A>(next: Dispatcher<A>, xs: seq<A>): (r: seq<A>)
    ensures xs == [] ==> r == []
    decreases |xs|
  {
    if xs == [] then [] else next(xs[0]) + FlatMap(next, xs[1..])
  }

  /** The terminal link, `convert(actions::onNext)`: the action goes on to
      the reduction, unchanged. */
  function Sink<A>(): Dispatcher<A>
  {
    a => [a]
  }

  /** `convert(m).apply(store).wrap(next)`: a dispatcher that hands each
      action to `m` together with `next`; whatever `m` forwards goes on
      through `next`. */
  function Wrap<A>(m: Middleware<A>, next: Dispatcher<A>): Dispatcher<A>
  {
    a => FlatMap(next, m(a))
  }

  /** `Collections.reverse` on the middleware list. */
  function Reverse<T>(s: seq<T>): (r: seq<T>)
    ensures |r| == |s|
    ensures forall i :: 0 <= i < |s| ==> r[i] == s[|s| - 1 - i]
    decreases |s|
  {
    if s == [] then [] else [s[|s| - 1]] + Reverse(s[..|s| - 1])
  }

  /** `Observable.reduce(acc, (d, m) -> wrap m around d)` over a list:
      each middleware in turn is wrapped around what was built so far. */
  function WrapAll<A>(ms: seq<Middleware<A>>, acc: Dispatcher<A>): Dispatcher<A>
    decreases |ms|
  {
    if ms == [] then acc else WrapAll(ms[1..], Wrap(ms[0], acc))
  }

  /** `applyMiddleware`: reverse the list, then fold it around the sink. */
  function ApplyMiddleware<A>(ms: seq<Middleware<A>>): Dispatcher<A>
  {
    WrapAll(Reverse(ms), Sink())
  }

  /** The reference semantics of a chain, written outside in: the first
      middleware receives the action, and every action it forwards runs
      through the rest of the chain, one after the other. */
  function Reaching<A>(ms: seq<Middleware<A>>, a: A): seq<A>
    decreases |ms|, 0, 0
  {
    if ms == [] then [a] else ReachingAll(ms[1..], ms[0](a))
  }

  /** What reaches the sink when the actions `xs` enter the chain `ms`
      one after the other. */
  function ReachingAll<A>(ms: seq<Middleware<A>>, xs: seq<A>): seq<A>
    decreases |ms|, 1, |xs|
  {
    if xs == [] then [] else Reaching(ms, xs[0]) + ReachingAll(ms, xs[1..])
  }

  /** The actions the middleware at position `k` is invoked with when `a`
      is dispatched: what a chain cut just before it would deliver. For
      `k == |ms|` these are the actions that reach the sink. */
  function Inbound<A>(ms: seq<Middleware<A>>, k: nat, a: A): seq<A>
    requires k <= |ms|
  {
    Reaching(ms[..k], a)
  }

  // ---------------------------------------------------------------------
  // Helper facts about FlatMap and ReachingAll

  lemma {:induction false} FlatMapConcat<A>(next: Dispatcher<A>, xs: seq<A>, ys: seq<A>)
    ensures FlatMap(next, xs + ys) == FlatMap(next, xs) + FlatMap(next, ys)
    decreases |xs|
  {
    if xs == [] {
      assert xs + ys == ys;
    } else {
      assert (xs + ys)[1..] == xs[1..] + ys;
      FlatMapConcat(next, xs[1..], ys);
    }
  }

  lemma {:induction false} ReachingAllConcat<A>(ms: seq<Middleware<A>>, xs: seq<A>, ys: seq<A>)
    ensures ReachingAll(ms, xs + ys) == ReachingAll(ms, xs) + ReachingAll(ms, ys)
    decreases |xs|
  {
    if xs == [] {
      assert xs + ys == ys;
    } else {
      assert (xs + ys)[1..] == xs[1..] + ys;
      ReachingAllConcat(ms, xs[1..], ys);
    }
  }

  /** With no middleware every action goes straight to the sink. */
  lemma {:induction false} ReachingAllEmptyChain<A>(xs: seq<A>)
    ensures ReachingAll([], xs) == xs
    decreases |xs|
  {
    if xs != [] {
      ReachingAllEmptyChain(xs[1..]);
    }
  }

  /** A one-link chain delivers exactly what its middleware forwards. */
  lemma {:induction false} ReachingAllSingle<A>(m: Middleware<A>, xs: seq<A>)
    ensures ReachingAll([m], xs) == FlatMap(m, xs)
    decreases |xs|
  {
    if xs != [] {
      assert [m][1..] == [];
      ReachingAllEmptyChain(m(xs[0]));
      ReachingAllSingle(m, xs[1..]);
    }
  }

  // ---------------------------------------------------------------------
  // applyMiddleware builds the chain whose first middleware is outermost

  /** The chain with `ms[0]` outermost, closed by `acc`. */
  function Nest<A>(ms: seq<Middleware<A>>, acc: Dispatcher<A>): Dispatcher<A>
    decreases |ms|
  {
    if ms == [] then acc else Wrap(ms[0], Nest(ms[1..], acc))
  }

  lemma {:induction false} NestSnoc<A>(ms: seq<Middleware<A>>, m: Middleware<A>, acc: Dispatcher<A>)
    ensures Nest(ms, Wrap(m, acc)) == Nest(ms + [m], acc)
    decreases |ms|
  {
    if ms == [] {
      assert (ms + [m])[1..] == [];
    } else {
      assert (ms + [m])[1..] == ms[1..] + [m];
      NestSnoc(ms[1..], m, acc);
    }
  }

  /** Folding the reversed list wraps the last middleware first, so the
      first one ends up outermost. */
  lemma {:induction false} WrapAllReversed<A>(ms: seq<Middleware<A>>, acc: Dispatcher<A>)
    ensures WrapAll(Reverse(ms), acc) == Nest(ms, acc)
    decreases |ms|
  {
    if ms != [] {
      var front, last := ms[..|ms| - 1], ms[|ms| - 1];
      assert ms == front + [last];
      assert Reverse(ms)[1..] == Reverse(front);
      WrapAllReversed(front, Wrap(last, acc));
      NestSnoc(front, last, acc);
    }
  }

  lemma {:induction false} NestReaches<A>(ms: seq<Middleware<A>>, a: A)
    ensures Nest(ms, Sink())(a) == Reaching(ms, a)
    decreases |ms|, 0, 0
  {
    if ms != [] {
      NestReachesAll(ms[1..], ms[0](a));
    }
  }

  lemma {:induction false} NestReachesAll<A>(ms: seq<Middleware<A>>, xs: seq<A>)
    ensures FlatMap(Nest(ms, Sink()), xs) == ReachingAll(ms, xs)
    decreases |ms|, 1, |xs|
  {
    if xs != [] {
      NestReaches(ms, xs[0]);
      NestReachesAll(ms, xs[1..]);
    }
  }

  /** The dispatcher `applyMiddleware` builds delivers to the sink exactly
      what the reference chain, first middleware outermost, delivers. */
  lemma ApplyMiddlewareReaches<A>(ms: seq<Middleware<A>>, a: A)
    ensures ApplyMiddleware(ms)(a) == Reaching(ms, a)
  {
    WrapAllReversed(ms, Sink());
    NestReaches(ms, a);
  }

  // ---------------------------------------------------------------------
  // Order of the links

  /** Cutting a chain in two: what the front part delivers is fed, action
      by action, into the back part. */
  lemma {:induction false} ReachingSplit<A>(p: seq<Middleware<A>>, q: seq<Middleware<A>>, a: A)
    ensures Reaching(p + q, a) == ReachingAll(q, Reaching(p, a))
    decreases |p|, 0, 0
  {
    if p == [] {
      assert p + q == q;
      assert ReachingAll(q, [a]) == Reaching(q, a) + ReachingAll(q, []);
    } else {
      assert (p + q)[1..] == p[1..] + q;
      ReachingAllSplit(p[1..], q, p[0](a));
    }
  }

  lemma {:induction false} ReachingAllSplit<A>(p: seq<Middleware<A>>, q: seq<Middleware<A>>, xs: seq<A>)
    ensures ReachingAll(p + q, xs) == ReachingAll(q, ReachingAll(p, xs))
    decreases |p|, 1, |xs|
  {
    if xs != [] {
      ReachingSplit(p, q, xs[0]);
      ReachingAllSplit(p, q, xs[1..]);
      ReachingAllConcat(q, Reaching(p, xs[0]), ReachingAll(p, xs[1..]));
    }
  }

  /** The first middleware sees the dispatched action itself, each later
      one sees exactly what the one before it forwarded, and the sink sees
      what the last one forwarded. */
  lemma InboundLayers<A>(ms: seq<Middleware<A>>, k: nat, a: A)
    requires k < |ms|
    ensures Inbound(ms, 0, a) == [a]
    ensures Inbound(ms, k + 1, a) == FlatMap(ms[k], Inbound(ms, k, a))
    ensures Inbound(ms, |ms|, a) == ApplyMiddleware(ms)(a)
  {
    assert ms[..k + 1] == ms[..k] + [ms[k]];
    ReachingSplit(ms[..k], [ms[k]], a);
    ReachingAllSingle(ms[k], Inbound(ms, k, a));
    assert ms[..|ms|] == ms;
    ApplyMiddlewareReaches(ms, a);
  }

  /** An action reaches the sink only if it got past every link: once the
      middleware at position `k` is invoked with nothing, nothing reaches
      the sink. */
  lemma ReachesOnlyThroughEveryLink<A>(ms: seq<Middleware<A>>, k: nat, a: A)
    requires k <= |ms|
    requires Inbound(ms, k, a) == []
    ensures ApplyMiddleware(ms)(a) == []
  {
    assert ms == ms[..k] + ms[k..];
    ReachingSplit(ms[..k], ms[k..], a);
    ApplyMiddlewareReaches(ms, a);
  }

  /** A middleware that never calls `next` cuts the chain: nothing reaches
      the sink, whatever is dispatched. */
  lemma DropShortCircuits<A>(ms: seq<Middleware<A>>, k: nat, a: A)
    requires k < |ms|
    requires forall x :: ms[k](x) == []
    ensures ApplyMiddleware(ms)(a) == []
  {
    InboundLayers(ms, k, a);
    FlatMapNothing(ms[k], Inbound(ms, k, a));
    ReachesOnlyThroughEveryLink(ms, k + 1, a);
  }

  lemma {:induction false} FlatMapNothing<A>(m: Middleware<A>, xs: seq<A>)
    requires forall x :: m(x) == []
    ensures FlatMap(m, xs) == []
    decreases |xs|
  {
    if xs != [] {
      FlatMapNothing(m, xs[1..]);
    }
  }

  /** Middleware that always forwards the action it got, unchanged, is
      invisible: the chain behaves as if there were no middleware. */
  lemma {:induction false} PassThroughTransparent<A>(ms: seq<Middleware<A>>, a: A)
    requires forall k, x :: 0 <= k < |ms| ==> ms[k](x) == [x]
    ensures ApplyMiddleware(ms)(a) == ApplyMiddleware([])(a) == [a]
  {
    PassThroughReaching(ms, a);
    ApplyMiddlewareReaches(ms, a);
    ApplyMiddlewareReaches([], a);
  }

  lemma {:induction false} PassThroughReaching<A>(ms: seq<Middleware<A>>, a: A)
    requires forall k, x :: 0 <= k < |ms| ==> ms[k](x) == [x]
    ensures Reaching(ms, a) == [a]
    decreases |ms|
  {
    if ms != [] {
      assert ms[0](a) == [a];
      PassThroughReaching(ms[1..], a);
      assert ReachingAll(ms[1..], [a]) == Reaching(ms[1..], a) + ReachingAll(ms[1..], []);
    }
  }
}
