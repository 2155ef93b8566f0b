/** The behaviour the repository's tests check, derived from the store's
    and the action's contracts: a counter store over INC and DEC actions,
    starting from 0. */
module Scenarios {

  import opened Actions
  import opened Chain
  import opened Reduction
  import opened Store

  datatype ActionType = INC | DEC

  /** The test's action class: an RxAction whose payload is never set. */
  type Action = RxAction<ActionType, int>

  /** Identities of the test's mocked consumers. */
  type Callback = nat

  const Inc: Action := Of(INC)
  const Dec: Action := Of(DEC)

  /** The test's reducer: INC adds one, DEC subtracts one. */
  function Counter(i: int, a: Action): (r: int)
    ensures r == i + 1 || r == i - 1
    ensures r == i + 1 <==> a.kind == INC
  {
    match a.kind
    case DEC => i - 1
    case INC => i + 1
  }

  /** middlewareA: forwards the action it gets. */
  function PassThrough(a: Action): seq<Action>
  {
    [a]
  }

  /** middlewareB: forwards DEC, whatever it got. */
  function RewriteToDec(a: Action): seq<Action>
  {
    [Dec]
  }

  /** testGetState and testDispatch: the initial state before any
      dispatch, then one up after INC and back after DEC. */
  method DispatchWithoutMiddleware() returns (initial: int, afterInc: int, afterDec: int)
    ensures initial == 0 && afterInc == 1 && afterDec == 0
  {
    var store := new RxStore<int, Action, Callback>(0, Counter, []);
    initial := store.GetState();
    store.Dispatch(Inc);
    ApplyMiddlewareReaches([], Inc);
    afterInc := store.GetState();
    store.Dispatch(Dec);
    ApplyMiddlewareReaches([], Dec);
    afterDec := store.GetState();
  }

  /** Dispatching `xs` one after the other: the state is the fold of the
      reducer over what the chain let through, which is `xs` itself when
      there is no middleware. */
  method DispatchInOrder<S, A, C(==)>(store: RxStore<S, A, C>, xs: seq<A>)
    requires store.Valid()
    modifies store
    ensures store.Valid()
    ensures store.currentState == Fold(store.reducer, old(store.currentState), ReachingAll(store.middleware, xs))
    ensures store.middleware == [] ==> store.currentState == Fold(store.reducer, old(store.currentState), xs)
  {
    ghost var s0 := store.currentState;
    var i := 0;
    while i < |xs|
      invariant 0 <= i <= |xs|
      invariant store.Valid()
      invariant store.currentState == Fold(store.reducer, s0, ReachingAll(store.middleware, xs[..i]))
    {
      ghost var before := ReachingAll(store.middleware, xs[..i]);
      store.Dispatch(xs[i]);
      assert xs[..i + 1] == xs[..i] + [xs[i]];
      ReachingAllConcat(store.middleware, xs[..i], [xs[i]]);
      assert [xs[i]][1..] == [];
      assert ReachingAll(store.middleware, [xs[i]]) == Reaching(store.middleware, xs[i]);
      FoldConcat(store.reducer, s0, before, Reaching(store.middleware, xs[i]));
      i := i + 1;
    }
    assert xs[..i] == xs;
    ReachingAllEmptyChain(xs);
  }

  /** testSubscribe: the first consumer sees 1, 2, 1; the second,
      subscribed after the first INC, sees only 2, 1. */
  method TwoSubscribers() returns (first: seq<int>, second: seq<int>, state: int)
    ensures first == [1, 2, 1] && second == [2, 1] && state == 1
  {
    var store := new RxStore<int, Action, Callback>(0, Counter, []);
    var _ := store.Subscribe(1);
    store.Dispatch(Inc);
    var _ := store.Subscribe(2);
    store.Dispatch(Inc);
    store.Dispatch(Dec);
    first := store.subscriptions[0].delivered;
    second := store.subscriptions[1].delivered;
    state := store.GetState();
  }

  /** testUnsubscribe and testBadUnsubscribe: after unsubscribing, the
      consumer receives nothing more; unsubscribing an unknown consumer
      changes nothing. */
  method UnsubscribeStopsDelivery() returns (received: seq<int>, registered: bool)
    ensures received == [1] && !registered
  {
    var store := new RxStore<int, Action, Callback>(0, Counter, []);
    store.Unsubscribe(1);
    var _ := store.Subscribe(1);
    store.Dispatch(Inc);
    store.Unsubscribe(1);
    store.Dispatch(Inc);
    store.Dispatch(Dec);
    store.Dispatch(Inc);
    received := store.subscriptions[0].delivered;
    registered := 1 in store.disposables;
  }

  /** testOneMiddleware: a pass-through middleware is invoked with INC and
      the state ends as without middleware. */
  method OneMiddleware() returns (seen: seq<Action>, state: int)
    ensures seen == [Inc] && state == 1
  {
    var ms: seq<Middleware<Action>> := [PassThrough];
    var store := new RxStore<int, Action, Callback>(0, Counter, ms);
    store.Dispatch(Inc);
    PassThroughTransparent(ms, Inc);
    ApplyMiddlewareReaches(ms, Inc);
    seen := Inbound(ms, 0, Inc);
    state := store.GetState();
  }

  /** testMultipleMiddleware: with (B, A), B is invoked with INC, A with
      the DEC that B forwards, and the state ends at -1. */
  method MultipleMiddleware() returns (seenByB: seq<Action>, seenByA: seq<Action>, state: int)
    ensures seenByB == [Inc] && seenByA == [Dec] && state == -1
  {
    var ms: seq<Middleware<Action>> := [RewriteToDec, PassThrough];
    var store := new RxStore<int, Action, Callback>(0, Counter, ms);
    store.Dispatch(Inc);
    InboundLayers(ms, 0, Inc);
    InboundLayers(ms, 1, Inc);
    ApplyMiddlewareReaches(ms, Inc);
    seenByB := Inbound(ms, 0, Inc);
    seenByA := Inbound(ms, 1, Inc);
    state := store.GetState();
  }

  /** A middleware that never calls `next`: no state change, no delivery. */
  method DroppingMiddleware() returns (received: seq<int>, state: int)
    ensures received == [] && state == 0
  {
    var ms: seq<Middleware<Action>> := [PassThrough, a => []];
    var store := new RxStore<int, Action, Callback>(0, Counter, ms);
    var _ := store.Subscribe(1);
    store.Dispatch(Inc);
    DropShortCircuits(ms, 1, Inc);
    ApplyMiddlewareReaches(ms, Inc);
    BroadcastNothing(store.subscriptions);
    received := store.subscriptions[0].delivered;
    state := store.GetState();
  }

  /** Subscribing the same consumer twice: the registry then only knows the
      second subscription, so unsubscribing cancels that one and the first
      keeps receiving every state. */
  method DoubleSubscribe() returns (first: seq<int>, second: seq<int>)
    ensures first == [1, 2] && second == [1]
  {
    var store := new RxStore<int, Action, Callback>(0, Counter, []);
    var _ := store.Subscribe(1);
    var _ := store.Subscribe(1);
    store.Dispatch(Inc);
    store.Unsubscribe(1);
    store.Dispatch(Inc);
    first := store.subscriptions[0].delivered;
    second := store.subscriptions[1].delivered;
  }

  function TypeName(t: ActionType): string
  {
    match t
    case INC => "INC"
    case DEC => "DEC"
  }

  function Digits(n: nat): (s: string)
    ensures |s| > 0
  {
    if n < 10 then ["0123456789"[n]] else Digits(n / 10) + ["0123456789"[n % 10]]
  }

  /** `Integer.toString`: decimal digits, with a minus sign when negative. */
  function IntText(i: int): string
  {
    if i < 0 then "-" + Digits(-i) else Digits(i)
  }

  /** testToString: without payload the type's name, with payload 2 the
      name, ": " and "2". */
  method ActionDescriptions() returns (plain: string, withValue: string)
    ensures plain == "INC" && withValue == "DEC: 2"
  {
    plain := Describe(Inc, TypeName, IntText);
    var a: Action := WithPayload(DEC, Some(2));
    withValue := Describe(a, TypeName, IntText);
    assert IntText(2) == "2";
  }
}
