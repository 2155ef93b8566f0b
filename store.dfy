/** RxStore: the current state, the composed middleware chain, the
    reduction sink and the registry of subscribed consumers.

    The RxJava stream between the sink and the consumers (a published,
    connected observable over a subject) is modelled by what it does for
    this store: the sink reduces each action once and delivers the one
    resulting state to every subscription that is not disposed. Every
    subscription ever made is kept, with its log of delivered states and
    a flag telling whether it has been disposed. */
module Store {

  import opened Chain
  import opened Reduction

  /** One `states.subscribe(consumer)`: the consumer, the states delivered
      to it through this subscription, in order, and whether its
      `Disposable` has been disposed. */
  datatype Subscription<S, C> = Subscription(consumer: C, delivered: seq<S>, disposed: bool)

  /** One subscription after the states `states` have been published: it
      keeps its consumer and its flag, its log only grows, and a disposed
      one is left as it was. */
  function Notify<S, C>(sub: Subscription<S, C>, states: seq<S>): (r: Subscription<S, C>)
    ensures r.consumer == sub.consumer && r.disposed == sub.disposed
    ensures sub.delivered <= r.delivered
    ensures sub.disposed ==> r == sub
    ensures !sub.disposed ==> r.delivered[|sub.delivered|..] == states
  {
    if sub.disposed then sub else sub.(delivered := sub.delivered + states)
  }

  /** All subscriptions after the states `states` have been published:
      each live one receives all of them, in order; a disposed one
      receives nothing; no subscription is added or lost. */
  function Broadcast<S, C>(subs: seq<Subscription<S, C>>, states: seq<S>): (r: seq<Subscription<S, C>>)
    ensures |r| == |subs|
  {
    seq(|subs|, i requires 0 <= i < |subs| => Notify(subs[i], states))
  }

  /** Publishing two batches in turn is publishing both at once. */
  lemma BroadcastConcat<S, C>(subs: seq<Subscription<S, C>>, xs: seq<S>, ys: seq<S>)
    ensures Broadcast(Broadcast(subs, xs), ys) == Broadcast(subs, xs + ys)
  {
    var l, r := Broadcast(Broadcast(subs, xs), ys), Broadcast(subs, xs + ys);
    forall i | 0 <= i < |subs| ensures l[i] == r[i] {
      assert Broadcast(subs, xs)[i] == Notify(subs[i], xs);
      assert subs[i].delivered + xs + ys == subs[i].delivered + (xs + ys);
    }
  }

  /** Publishing nothing changes no subscription. */
  lemma BroadcastNothing<S, C>(subs: seq<Subscription<S, C>>)
    ensures Broadcast(subs, []) == subs
  {
    var r := Broadcast(subs, []);
    forall i | 0 <= i < |subs| ensures r[i] == subs[i] {
      assert subs[i].delivered + [] == subs[i].delivered;
    }
  }

  class RxStore<S, A, C(==)> {

    /** The reducer given to the constructor. */
    const reducer: (S, A) -> S
    /** The middleware given to the constructor, first one outermost. */
    ghost const middleware: seq<Middleware<A>>
    /** The chain `applyMiddleware` built from them. */
    const dispatcher: Dispatcher<A>
    /** The state the store was created with. */
    ghost const initialState: S

    var currentState: S
    /** Every subscription made so far, in the order they were made. */
    var subscriptions: seq<Subscription<S, C>>
    /** `disposables`: each registered consumer and the position, in
        `subscriptions`, of the subscription its `Disposable` cancels. */
    var disposables: map<C, nat>

    /** The actions that reached the sink so far, in order. */
    ghost var reached: seq<A>
    /** The states committed so far, in order. */
    ghost var history: seq<S>
    /** For each subscription, how many states had been committed when it
        was made, and, once disposed, when it was disposed. */
    ghost var joinedAt: seq<nat>
    ghost var leftAt: seq<nat>

    /** Subscription `i` received exactly the states committed while it
        was live: from when it was made until now, or until it was
        disposed. */
    ghost predicate Window(i: nat)
      reads this
      requires i < |subscriptions| && i < |joinedAt| && i < |leftAt|
    {
      var until := if subscriptions[i].disposed then leftAt[i] else |history|;
      && joinedAt[i] <= until <= |history|
      && subscriptions[i].delivered == history[joinedAt[i]..until]
    }

    /** The registry entry of `c` names a live subscription of `c`. */
    ghost predicate Registered(c: C)
      reads this
      requires c in disposables
    {
      && disposables[c] < |subscriptions|
      && subscriptions[disposables[c]].consumer == c
      && !subscriptions[disposables[c]].disposed
    }

    ghost predicate Valid()
      reads this
    {
      && dispatcher == ApplyMiddleware(middleware)
      && currentState == Fold(reducer, initialState, reached)
      && history == Trace(reducer, initialState, reached)
      && |joinedAt| == |subscriptions| && |leftAt| == |subscriptions|
      && (forall i :: 0 <= i < |subscriptions| ==> Window(i))
      && (forall c :: c in disposables ==> Registered(c))
    }

    /** `new RxStore(initialState, reducer, middleware...)`. */
    constructor (initialState: S, reducer: (S, A) -> S, middleware: seq<Middleware<A>>)
      ensures Valid()
      ensures this.initialState == initialState && currentState == initialState
      ensures this.reducer == reducer && this.middleware == middleware
      ensures reached == [] && history == []
      ensures subscriptions == [] && disposables == map[]
    {
      this.reducer := reducer;
      this.middleware := middleware;
      this.dispatcher := ApplyMiddleware(middleware);
      this.initialState := initialState;
      currentState := initialState;
      subscriptions := [];
      disposables := map[];
      reached := [];
      history := [];
      joinedAt := [];
      leftAt := [];
    }

    /** `getState`: the initial state folded with every action that has
        reached the sink. */
    method GetState() returns (s: S)
      requires Valid()
      ensures s == Fold(reducer, initialState, reached)
    {
      s := currentState;
    }

    /** The sink, `reduce` behind `actions.map(this::reduce).publish()`:
        the reducer runs once, its result becomes the current state, and
        that one state is delivered to every live subscription. */
    method Reduce(action: A) returns (s: S)
      requires Valid()
      modifies this
      ensures Valid()
      ensures s == currentState == reducer(old(currentState), action)
      ensures reached == old(reached) + [action] && history == old(history) + [s]
      ensures subscriptions == Broadcast(old(subscriptions), [s])
      ensures disposables == old(disposables)
      ensures joinedAt == old(joinedAt) && leftAt == old(leftAt)
    {
      FoldSnoc(reducer, initialState, reached, action);
      TraceSnoc(reducer, initialState, reached, action);
      currentState := reducer(currentState, action);
      s := currentState;
      reached := reached + [action];
      history := history + [s];
      var subs := subscriptions;
      var i := 0;
      while i < |subs|
        invariant 0 <= i <= |subs| == |subscriptions|
        invariant forall j :: 0 <= j < i ==> subs[j] == Notify(subscriptions[j], [s])
        invariant forall j :: i <= j < |subs| ==> subs[j] == subscriptions[j]
      {
        if !subs[i].disposed {
          subs := subs[i := subs[i].(delivered := subs[i].delivered + [s])];
        }
        i := i + 1;
      }
      subscriptions := subs;
      forall j | 0 <= j < |subscriptions| ensures Window(j) {
        assert old(Window(j));
        if !subscriptions[j].disposed {
          assert old(history)[joinedAt[j]..] + [s] == history[joinedAt[j]..];
        } else {
          assert old(history)[joinedAt[j]..leftAt[j]] == history[joinedAt[j]..leftAt[j]];
        }
      }
    }

    /** `dispatch`: the action runs through the middleware chain, and each
        action that comes out at the sink is reduced and published, in
        the order the chain delivers them. */
    method Dispatch(action: A)
      requires Valid()
      modifies this
      ensures Valid()
      ensures reached == old(reached) + Reaching(middleware, action)
      ensures currentState == Fold(reducer, old(currentState), Reaching(middleware, action))
      ensures history == old(history) + Trace(reducer, old(currentState), Reaching(middleware, action))
      ensures subscriptions == Broadcast(old(subscriptions), Trace(reducer, old(currentState), Reaching(middleware, action)))
      ensures disposables == old(disposables)
      ensures joinedAt == old(joinedAt) && leftAt == old(leftAt)
    {
      var reaching := dispatcher(action);
      ApplyMiddlewareReaches(middleware, action);
      BroadcastNothing(subscriptions);
      ghost var s0 := currentState;
      var i := 0;
      while i < |reaching|
        invariant 0 <= i <= |reaching|
        invariant Valid()
        invariant reached == old(reached) + reaching[..i]
        invariant currentState == Fold(reducer, s0, reaching[..i])
        invariant history == old(history) + Trace(reducer, s0, reaching[..i])
        invariant subscriptions == Broadcast(old(subscriptions), Trace(reducer, s0, reaching[..i]))
        invariant disposables == old(disposables)
        invariant joinedAt == old(joinedAt) && leftAt == old(leftAt)
      {
        var s := Reduce(reaching[i]);
        assert reaching[..i + 1] == reaching[..i] + [reaching[i]];
        FoldSnoc(reducer, s0, reaching[..i], reaching[i]);
        TraceSnoc(reducer, s0, reaching[..i], reaching[i]);
        BroadcastConcat(old(subscriptions), Trace(reducer, s0, reaching[..i]), [s]);
        i := i + 1;
      }
      assert reaching[..i] == reaching;
    }

    /** `subscribe`: a new subscription that receives the states committed
        from now on, and a registry entry for the consumer that replaces
        any earlier one. An earlier subscription of the same consumer is
        not disposed: it stays live and no registry entry reaches it. */
    method Subscribe(consumer: C) returns (r: C)
      requires Valid()
      modifies this
      ensures Valid()
      ensures r == consumer
      ensures subscriptions == old(subscriptions) + [Subscription(consumer, [], false)]
      ensures disposables == old(disposables)[consumer := |old(subscriptions)|]
      ensures joinedAt == old(joinedAt) + [|history|] && leftAt == old(leftAt) + [|history|]
      ensures consumer in old(disposables) ==>
                var k := old(disposables)[consumer];
                && !subscriptions[k].disposed
                && forall c :: c in disposables ==> disposables[c] != k
      ensures currentState == old(currentState)
      ensures reached == old(reached) && history == old(history)
    {
      var k := |subscriptions|;
      subscriptions := subscriptions + [Subscription(consumer, [], false)];
      joinedAt := joinedAt + [|history|];
      leftAt := leftAt + [|history|];
      disposables := disposables[consumer := k];
      r := consumer;
      forall j | 0 <= j < |subscriptions| ensures Window(j) {
        if j < k {
          assert old(Window(j));
        }
      }
      forall c | c in disposables ensures Registered(c) {
        if c != consumer {
          assert old(Registered(c));
        }
      }
    }

    /** `unsubscribe`: when the consumer is registered, its subscription is
        disposed and its entry removed; otherwise nothing happens. */
    method Unsubscribe(consumer: C)
      requires Valid()
      modifies this
      ensures Valid()
      ensures consumer !in disposables
      ensures consumer in old(disposables) ==>
                var k := old(disposables)[consumer];
                && subscriptions == old(subscriptions)[k := old(subscriptions)[k].(disposed := true)]
                && disposables == old(disposables) - {consumer}
                && joinedAt == old(joinedAt)
                && leftAt == old(leftAt)[k := |history|]
      ensures consumer !in old(disposables) ==> unchanged(this)
      ensures currentState == old(currentState)
      ensures reached == old(reached) && history == old(history)
    {
      if consumer in disposables {
        var k := disposables[consumer];
        subscriptions := subscriptions[k := subscriptions[k].(disposed := true)];
        leftAt := leftAt[k := |history|];
        disposables := disposables - {consumer};
        forall j | 0 <= j < |subscriptions| ensures Window(j) {
          assert old(Window(j));
        }
        forall c | c in disposables ensures Registered(c) {
          assert old(Registered(c));
        }
      }
    }
  }
}
