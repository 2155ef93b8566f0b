# rx-redux store, modelled in Dafny

This project models `RxStore`, the Redux-style store of rx-redux, and its
helper action envelope `RxAction`.

A store holds one current state. An action given to `dispatch` first runs
through the middleware chain, which `applyMiddleware` builds once, in the
constructor. Each middleware may forward the action to `next` zero, one
or several times, and may forward a different action. Every action that
comes out at the end of the chain reaches the sink. The sink runs the
reducer once, makes the result the current state, and publishes that one
state to every subscribed consumer. `subscribe` and `unsubscribe` keep a
map from consumer to the `Disposable` of its subscription.

Files:

- `chain.dfy` (module `Chain`). A middleware is the pure function from the
  action it receives to the actions it forwards to `next`, in order.
  `ApplyMiddleware` is the source's construction: reverse the list, then
  fold `Wrap` around the sink. `Reaching` is an independent reference
  chain, written outside in. The lemmas prove the two agree, so the first
  middleware passed is the outermost one. They also state what each link
  is invoked with, and what pass-through and dropping middleware do.
- `reduction.dfy` (module `Reduction`). `Fold` is the left fold of the
  reducer. `Trace` is the sequence of states committed along the way.
- `store.dfy` (module `Store`). The class `RxStore` has the fields
  `currentState`, `subscriptions` (every subscription made, with its log
  of delivered states and a disposed flag) and `disposables` (the registry).
  `Valid()` ties the current state to the fold over every action that
  reached the sink. It also says that each subscription received exactly
  the states committed while it was live, and that each registry entry
  names a live subscription of its own consumer.
- `actions.dfy` (module `Actions`). `RxAction` is a datatype with a type
  tag and an optional payload; Java's `null` payload is `None`. The tag
  field is called `kind` because `type` is a Dafny keyword. A datatype
  value can never change, just as the Java class's `final` fields cannot.
- `scenarios.dfy` (module `Scenarios`). The tests' counter store over INC
  and DEC, written as client methods. Their results follow from the
  contracts above alone.

Subscribing the same consumer twice is modelled as the code does it.
Line 75 calls `states.subscribe` again, which makes a second live
subscription, and `put` then overwrites the registry entry without
disposing the first. The first subscription stays live, and
`unsubscribe` can no longer reach it (`Store.RxStore.Subscribe`,
`Scenarios.DoubleSubscribe`).

## Model

| member | source | states |
|---|---|---|
| `Chain.Sink` | src/main/java/cat/martori/rxredux/RxStore.java:109 | the terminal link, `convert(actions::onNext)`, sends the action it gets on to the reduction unchanged; what this means for a whole chain is stated by `Chain.ReachingAllEmptyChain` and `Chain.PassThroughTransparent` |
| `Chain.Wrap` | src/main/java/cat/martori/rxredux/RxStore.java:131-138 | `convert(m).apply(store).wrap(next)` hands the action to the middleware, and each action it forwards goes through `next`, in order; its contract is carried by `Chain.NestReaches`, `Chain.InboundLayers` and `Chain.DropShortCircuits` |
| `Chain.Reverse` | src/main/java/cat/martori/rxredux/RxStore.java:107 | `Collections.reverse`: the result has the list's length and holds its elements last to first |
| `Chain.WrapAll` | src/main/java/cat/martori/rxredux/RxStore.java:110-113 | the `reduce` that wraps each middleware in turn around what was built so far; `Chain.WrapAllReversed` states that over the reversed list it puts the first middleware outermost |
| `Chain.ApplyMiddleware` | src/main/java/cat/martori/rxredux/RxStore.java:105-114 | `applyMiddleware`: reverse the list, then fold `Wrap` around the sink; `Chain.ApplyMiddlewareReaches` states that the result delivers what the reference chain delivers |
| `Chain.ApplyMiddlewareReaches` | src/main/java/cat/martori/rxredux/RxStore.java:105-114 | the dispatcher built by reversing the list and folding `Wrap` around the sink delivers to the sink exactly what the reference chain delivers, with the first middleware passed outermost |
| `Chain.WrapAllReversed` | src/main/java/cat/martori/rxredux/RxStore.java:106-113 | `reduce` over the reversed list wraps the last middleware first, so the result is the first middleware wrapped around the rest of the chain |
| `Chain.NestSnoc` | src/main/java/cat/martori/rxredux/RxStore.java:112 | wrapping one more middleware around the accumulator is the same as nesting it innermost, just before the sink |
| `Chain.NestReaches` | src/main/java/cat/martori/rxredux/RxStore.java:131-138 | a nested chain of `convert(m)` links ending in the sink, given one action, delivers what the reference chain delivers |
| `Chain.NestReachesAll` | src/main/java/cat/martori/rxredux/RxStore.java:131-152 | every action a middleware passes to `next` goes through the rest of the chain in turn, and the results come out in that order |
| `Chain.ReachingAllEmptyChain` | src/main/java/cat/martori/rxredux/RxStore.java:109 | with no middleware, every action goes straight to the sink, unchanged and in order |
| `Chain.ReachingSplit` | src/main/java/cat/martori/rxredux/RxStore.java:131-138 | cutting the chain in two: what the front part delivers is fed, action by action, into the back part |
| `Chain.ReachingAllSplit` | src/main/java/cat/martori/rxredux/RxStore.java:131-138 | the same cut, for several actions entering the chain one after the other |
| `Chain.InboundLayers` | src/main/java/cat/martori/rxredux/RxStore.java:131-138 | the first middleware is invoked with the dispatched action itself; middleware k+1 is invoked with exactly what middleware k forwarded; the sink gets what the last one forwarded |
| `Chain.ReachesOnlyThroughEveryLink` | src/main/java/cat/martori/rxredux/RxMiddleware.java:6 | if some middleware is invoked with nothing, nothing reaches the sink: an action is reduced only if every link forwarded it |
| `Chain.DropShortCircuits` | src/main/java/cat/martori/rxredux/RxMiddleware.java:20 | a middleware that never calls `next` lets nothing reach the sink, whatever is dispatched |
| `Chain.PassThroughTransparent` | src/main/java/cat/martori/rxredux/RxStore.java:131-137 | a chain of middleware that forward what they get unchanged delivers the same as no middleware: the action itself |
| `Chain.FlatMapConcat` | src/main/java/cat/martori/rxredux/RxStore.java:134 | passing two batches of actions to `next` delivers what each batch delivers, one after the other |
| `Reduction.Fold` | src/main/java/cat/martori/rxredux/RxStore.java:100-103 | the state reached by calling `reduce` once per action, first action first; its contract is carried by `Reduction.FoldSnoc`, `Reduction.FoldConcat` and `Reduction.TraceAt` |
| `Reduction.Trace` | src/main/java/cat/martori/rxredux/RxStore.java:44-47 | the states `map(this::reduce)` emits for a batch of actions: exactly one per action; `Reduction.TraceSnoc` and `Reduction.TraceAt` state which ones |
| `Reduction.FoldSnoc` | src/main/java/cat/martori/rxredux/RxStore.java:100-103 | reducing one more action continues the left fold from the state the previous actions reached |
| `Reduction.TraceSnoc` | src/main/java/cat/martori/rxredux/RxStore.java:100-103 | reducing one more action commits exactly one more state, the new current state |
| `Reduction.FoldConcat` | src/main/java/cat/martori/rxredux/RxStore.java:55-57 | the state after two batches of dispatches is the fold over both batches together |
| `Reduction.TraceAt` | src/main/java/cat/martori/rxredux/RxStore.java:44-47 | the k-th state published is the fold over the first k+1 actions that reached the sink |
| `Store.Notify` | src/main/java/cat/martori/rxredux/RxStore.java:44-47 | one subscription after states are published: it keeps its consumer and its disposed flag, its log only grows, a disposed one is left as it was, and a live one receives exactly the states published, in order |
| `Store.Broadcast` | src/main/java/cat/martori/rxredux/RxStore.java:44-47 | the published stream after states are published: no subscription is added or lost; `Store.BroadcastConcat` and `Store.BroadcastNothing` state how batches combine |
| `Store.BroadcastConcat` | src/main/java/cat/martori/rxredux/RxStore.java:44-47 | publishing two batches of states in turn gives every subscription the same log as publishing both at once |
| `Store.BroadcastNothing` | src/main/java/cat/martori/rxredux/RxStore.java:44-47 | when no action reaches the sink, no subscription receives anything |
| `Store.RxStore.constructor` | src/main/java/cat/martori/rxredux/RxStore.java:39-48 | the current state is the initial state, the dispatcher is `applyMiddleware` of the list given, and there are no subscriptions and no registry entries |
| `Store.RxStore.GetState` | src/main/java/cat/martori/rxredux/RxStore.java:64-66 | returns the initial state folded with every action that has reached the sink, so the initial state before any dispatch |
| `Store.RxStore.Reduce` | src/main/java/cat/martori/rxredux/RxStore.java:100-103 | the reducer runs once on the current state; its result becomes the current state and is appended to the log of every live subscription; disposed ones receive nothing; the registry is untouched |
| `Store.RxStore.Dispatch` | src/main/java/cat/martori/rxredux/RxStore.java:55-57 | the actions the chain delivers are reduced in order: the new state is the fold over them, and every live subscription receives each intermediate state once, in order |
| `Store.RxStore.Subscribe` | src/main/java/cat/martori/rxredux/RxStore.java:74-77 | returns the consumer; adds a new live subscription with an empty log that will receive only states committed from now on; the registry entry of the consumer now names it; an earlier subscription of the same consumer stays live and is no longer in the registry |
| `Store.RxStore.Unsubscribe` | src/main/java/cat/martori/rxredux/RxStore.java:84-89 | a registered consumer's subscription is disposed at the current point of the state history, so its log never grows again, and its entry is removed; for an unknown consumer nothing changes |
| `Actions.Of` | src/main/java/cat/martori/rxredux/RxAction.java:14-16 | an action built from a type alone has that type and a null payload |
| `Actions.WithPayload` | src/main/java/cat/martori/rxredux/RxAction.java:18-21 | the action keeps the type and payload it was given |
| `Actions.Describe` | src/main/java/cat/martori/rxredux/RxAction.java:23-25 | `toString`: the type's text, followed by ": " and the payload's text when there is a payload; its contract is carried by `Actions.DescribeShape`, `Actions.DescribeRoundTrip` and `Actions.DescribeInjective` |
| `Actions.DescribeShape` | src/main/java/cat/martori/rxredux/RxAction.java:23-25 | the text starts with the type's text; it is exactly that text if and only if the payload is null, and otherwise continues with ": " and the payload's text |
| `Actions.DescribeRoundTrip` | src/main/java/cat/martori/rxredux/RxAction.java:23-25 | the payload's text, even an empty one, can be read back from the description, and a null payload reads back as none |
| `Actions.DescribeInjective` | src/main/java/cat/martori/rxredux/RxAction.java:23-25 | two actions of one type with the same text are equal, when distinct payloads have distinct texts |
| `Scenarios.Counter` | src/test/java/cat/martori/rxredux/RxStoreTest.java:171-180 | the tests' reducer adds one exactly for INC and otherwise subtracts one |
| `Scenarios.DispatchWithoutMiddleware` | src/test/java/cat/martori/rxredux/RxStoreTest.java:23-38 | from 0, the state is 0 before any dispatch, 1 after INC and 0 again after DEC |
| `Scenarios.DispatchInOrder` | src/main/java/cat/martori/rxredux/RxStore.java:55-57 | after dispatching a1..an in order, the state is the fold of the reducer over what the chain let through, which is a1..an itself when there is no middleware |
| `Scenarios.TwoSubscribers` | src/test/java/cat/martori/rxredux/RxStoreTest.java:63-88 | the first consumer receives 1, 2, 1; the second, subscribed after the first INC, receives only 2, 1; the state ends at 1 |
| `Scenarios.UnsubscribeStopsDelivery` | src/test/java/cat/martori/rxredux/RxStoreTest.java:90-121 | unsubscribing an unknown consumer is harmless; after unsubscribing, the consumer has received only the state of its one dispatch and is no longer registered |
| `Scenarios.OneMiddleware` | src/test/java/cat/martori/rxredux/RxStoreTest.java:136-146 | a pass-through middleware is invoked with INC and the state ends at 1, as without middleware |
| `Scenarios.MultipleMiddleware` | src/test/java/cat/martori/rxredux/RxStoreTest.java:148-162 | with middleware (B, A), B is invoked with INC, A with the DEC that B forwards, and the state ends at -1 |
| `Scenarios.DroppingMiddleware` | src/main/java/cat/martori/rxredux/RxMiddleware.java:6 | with a middleware that never calls `next`, a subscriber receives nothing and the state stays 0 |
| `Scenarios.DoubleSubscribe` | src/main/java/cat/martori/rxredux/RxStore.java:74-89 | after subscribing one consumer twice and then unsubscribing it, the first subscription still receives every state |
| `Scenarios.ActionDescriptions` | src/test/java/cat/martori/rxredux/RxActionTest.java:26-30 | an action without payload reads as its type's name; one with payload 2 reads as the name, ": " and "2" |

## Left out

- `getStates`, `autoConnect` and the operator chains built on the state stream (`map` in the tests) are RxJava machinery. Publishing is modelled as appending the one committed state to each live subscription's log.
- A disposed subscription is kept in `subscriptions` with its flag set, where RxJava drops it from the published stream's observers. This way the model can state that its log never grows again.
- Middleware is a pure, synchronous function of the action. Deferring `next` asynchronously, reading `store.getState()` in the middle of the chain, and other side effects are not modelled. The `store` argument a middleware receives is therefore not modelled either.
- Exceptions thrown by the reducer, by a middleware or by a consumer are not modelled: the model assumes all three return normally. A middleware exception propagates out of `dispatch`. A reducer exception does not: it is raised inside `actions.map(this::reduce).publish()` (lines 44-46), where RxJava's `map` catches it, disposes its upstream and sends an error down the published stream. The caller of `dispatch` never sees it, later dispatches go to a subject with no observer, and the store silently stops reducing. A consumer that throws has its own subscription disposed, while its registry entry stays.
- Threads and concurrent dispatches are not modelled. A consumer that subscribes, unsubscribes or dispatches from inside its own callback is not modelled either.
- The in-place reversal of the caller's varargs array by `Collections.reverse` is not modelled. Only the order of the resulting chain is.
- The `InnerDispatcher` that each link returns from `dispatch` (itself) is not modelled. Nothing uses it.
- Consumers are compared with `==` on an opaque type. This stands for the `equals`/`hashCode` of the `HashMap` keys, which is identity for lambdas and mocks. Actions are values compared structurally, not Java objects with identity.
- `toString` of an action whose type is `null` throws in Java. The model has no null type.
- `RxReducer`, `RxMiddleware` and `RxDispatcher` are interfaces without logic. The reducer is a pure function parameter, as its documentation requires.
