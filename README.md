# react-fax-store: the subscription and notification engine in Dafny

`react-fax-store` gives a React component tree a small state container.
`createStore(initialValue)` returns a `Provider` component and some hooks.
The `Provider` holds the current state and an ordered list of listeners.
`useState` and `Consumer` read the whole state. `useSelector` reads a
selection of it. `useUpdate` writes. `createReducer` adds `useDispatch`,
which routes an action through a reducer.

This project models that engine and proves properties of it:

- `wrappers.dfy` (module `Wrappers`): `Option` and `Result`.
- `equality.dfy` (module `Equality`): what a selector returns (`Derived`) and
  the `ShallowEqual` predicate. This stands for the `./shallowEqual` helper,
  whose source is not part of this model.
- `store_state.dfy` (module `StoreState`): the initial value, the three kinds
  of update `setState` accepts (a literal partial state, an updater, `null`),
  and `Commit`, React's shallow merge `prev + partial`.
- `provider.dfy` (module `Providers`): the `Provider` class. Its fields are
  the state, the listener registry (a `seq` of listener handles), a `mounted`
  flag, and a `trace` of every call made to a listener or a callback. Its
  methods are `Subscribe`, the unsubscribe closure (`RunUnsubscribe`),
  `Unmount` (`componentWillUnmount`) and `SetState`. `SetState` commits, then
  a loop calls the listeners in registry order, then the callback runs.
- `bridges.dfy` (module `Bridges`): the listeners that the read hooks
  register. A `Bridge` is a mounted hook together with the value it holds.
  `Notify` is what its listener does. For `useSelector`, the held value is
  replaced only when the new selection is not shallow-equal to it. `Deliver`
  feeds a commit's notifications to the bridges.
- `hooks.dfy` (module `Hooks`): `assertProvider`, mounting a read hook,
  re-subscribing on a render pass, `useUpdate`, and the reducer layer
  `useDispatch`/`dispatch`.
- `scenarios.dfy` (module `Scenarios`): the behaviours the repository's test
  files check, stated on concrete states.

Listeners are opaque closures in the source. In the model each listener is a
handle (`ListenerId`). Calling a listener appends `Notified(listener, prev,
next)` to the Provider's `trace`. What the repository's own listeners do with
such a call is modelled on the consumer side, in `Bridges.Notify`.

The `mounted` flag stands for React's own lifecycle. React ignores
`setState` on an unmounted component and does not run its callback. The model
treats every commit as synchronous.

The model follows the code where its behaviour is easy to misread:

- An updater that returns `null`, and a `null` update, leave the state
  unchanged. The listeners and the callback still run, because the code calls
  them from `super.setState`'s callback unconditionally.
- `subscribe` after unmount still appends to the registry; the code has no
  guard. Listeners added then are never called, because React ignores later
  `setState` calls.
- `useUpdate` returns a new closure on every call. The code does not memoise
  it.
- `getInitialValue` runs on every render of every read hook, not once.

## Model

| member | source | states |
|---|---|---|
| `Equality.ShallowEqual` | src/index.tsx:180 | the `shallowEqual` gate: two selections are shallow-equal exactly when they are the same derived value (same kind, and for records the same entries) |
| `Equality.ShallowEqualIsEquivalence` | src/index.tsx:180 | shallow equality is reflexive, symmetric and transitive, so keeping a shallow-equal held value is safe |
| `Equality.ShallowEqualRecords` | src/index.tsx:180 | two selected records are shallow-equal exactly when they hold the same entries |
| `StoreState.GetInitialValue` | src/index.tsx:66-68 | an initializer given as a function is called; one given as a value is used as is |
| `StoreState.Commit` | src/index.tsx:84-91 | keys in the partial take its values; other keys keep their old values; no key is dropped; an updater sees the pre-update state; `null` leaves the state unchanged |
| `StoreState.LiteralsCompose` | src/index.tsx:84-91 | two literal commits in a row equal one commit of their union, the later one winning |
| `StoreState.LiteralIdempotent` | src/index.tsx:84-91 | committing the same literal twice equals committing it once |
| `StoreState.LiteralOfCurrentValuesIsNoop` | src/index.tsx:84-91 | a partial that repeats current values changes nothing |
| `StoreState.CommitAll` | src/index.tsx:84-91 | the state after a sequence of commits keeps every starting key; a run of `null` updates leaves it unchanged |
| `StoreState.CommitAllAppend` | src/index.tsx:84-97 | the fold of commits respects call order: running `us` then `vs` equals running `us + vs` |
| `Providers.Notifications` | src/index.tsx:92-94 | a commit makes as many listener calls as the registry has registrations |
| `Providers.NotificationAt` | src/index.tsx:92-94 | the i-th call goes to the i-th registration, with the state captured before the commit and the committed state |
| `Providers.FirstIndex` | src/index.tsx:111 | `indexOf`: -1 exactly when the listener is absent, else a position holding it with no earlier occurrence |
| `Providers.RemoveFirst` | src/index.tsx:110-115 | an absent listener leaves the registry unchanged; a present one shortens it by exactly one |
| `Providers.RemoveFirstTakesOneRegistration` | src/index.tsx:110-115 | unsubscribe removes one registration of that listener and nothing else (as multisets) |
| `Providers.SpliceIsRemoveFirst` | src/index.tsx:111-114 | splicing out the first position holding the listener (what `indexOf` finds) removes its first occurrence and keeps the others in order |
| `Providers.SubscribeThenUnsubscribe` | src/index.tsx:108-115 | subscribing a new listener, then others, then unsubscribing it leaves exactly the others, in order |
| `Providers.UnsubscribeAgainIsNoop` | src/index.tsx:110-115 | for a listener registered at most once (as each hook's fresh closure is), a second call of the same unsubscribe changes nothing and does not fail |
| `Providers.UnsubscribeTwiceTakesTwo` | src/index.tsx:110-115 | calling an unsubscribe twice removes two registrations of its listener, one per call, so a closure subscribed twice loses both |
| `Providers.NotificationsAppend` | src/index.tsx:92-94 | notifying a registry split in two notifies the first part, then the second |
| `Providers.NotifiedOncePerRegistration` | src/index.tsx:92-94 | each listener is called as many times as it is registered at notify time |
| `Providers.CallbackComesLast` | src/index.tsx:91-97 | the callback is not among the notifications, so it is the last call |
| `Providers.Provider.constructor` | src/index.tsx:70-78 | the Provider starts from the initial value with an empty registry and no calls |
| `Providers.Provider.GetState` | src/index.tsx:80-82 | returns the current snapshot |
| `Providers.Provider.GetSubscribeCount` | src/index.tsx:74-76 | the number of registrations; zero exactly when the registry is empty |
| `Providers.Provider.Subscribe` | src/index.tsx:108-110 | appends the listener at the end; the count grows by one; the returned unsubscribe is bound to that listener |
| `Providers.Provider.RunUnsubscribe` | src/index.tsx:110-115 | the registry becomes `RemoveFirst` of the old one; the count drops by one only if the listener was there |
| `Providers.Provider.Unmount` | src/index.tsx:118-120 | the registry is emptied whatever unsubscribes are outstanding, and the Provider is no longer mounted |
| `Providers.Provider.SetState` | src/index.tsx:84-98 | when mounted: the new state is the commit; the calls are every registered listener in order with `(prevState, newState)`, then the callback if given; when unmounted: nothing changes |
| `Providers.SetStateSequence` | src/index.tsx:84-98 | after a run of `setState` calls on a mounted Provider, `getState()` is the fold of their commits in call order; on an unmounted one nothing changes; earlier calls stay in the trace |
| `Bridges.InSync` | src/index.tsx:163-183 | a whole-state read agrees with a state when it holds that snapshot; a selector agrees when it holds that state's selection |
| `Bridges.Fires` | src/index.tsx:178-183 | whether the listener calls the hook's setter: always for a whole-state read; for a selector exactly when its held value no longer agrees with the new state; a listener that does not fire already agrees |
| `Bridges.Notify` | src/index.tsx:163-183 | after its listener runs, a bridge agrees with the new state; a bridge whose listener did not fire is unchanged; a firing selector holds the new selection |
| `Bridges.WholeStateAlwaysReplaces` | src/index.tsx:163-165 | a whole-state read fires on every commit and holds `nextState` afterwards |
| `Bridges.SelectorFiresIffSelectionChanged` | src/index.tsx:178-183 | a selector in agreement with the previous state fires exactly when its selection of the new state differs shallowly from its selection of the old |
| `Bridges.FieldSelectionChangesIff` | src/index.tsx:178-183 | a field selection changes under a literal update exactly when the update writes that key with a new value |
| `Bridges.PickSelectionChangesIff` | src/index.tsx:178-183 | a picked record changes under a literal update exactly when the update writes one of its keys with a new value |
| `Bridges.CommitLeavesSubscribersInSync` | src/index.tsx:92-94 | after a commit's notifications are delivered, every subscribed bridge agrees with the committed state and keeps its kind; unsubscribed bridges are untouched |
| `Bridges.Deliver` | src/index.tsx:92-94 | running a commit's calls against the mounted hooks keeps the same set of hooks |
| `Hooks.AssertProvider` | src/index.tsx:55-59 | succeeds exactly inside a Provider, yielding it; otherwise fails with the "forget to use the <Store.Provider>" message |
| `Hooks.InitialBridgeAsWritten` | src/index.tsx:157 | as written, a hook starts from the store's initial value: `useState` and `Consumer` hold `getInitialValue()`, and `useSelector` holds `selector(getInitialValue())` with its own selector |
| `Hooks.InitialBridge` | src/index.tsx:157 | a hook that starts from the Provider's current state agrees with it from mount |
| `Hooks.MountBridge` | src/index.tsx:156-169 | the corrected mount (see Findings): without a Provider it fails before subscribing anything; with one it appends its listener, changes nothing else, and holds the Provider's current state |
| `Hooks.MountBridgeAsWritten` | src/index.tsx:156-169 | the mount as written: the same failure and subscription as `MountBridge`, but the held value is computed from `getInitialValue()` |
| `Hooks.Resubscribe` | src/index.tsx:162-166 | a render pass runs the old cleanup, then subscribes the new listener; the count is unchanged when the old listener was still registered (after unmount it grows by one) |
| `Hooks.UseUpdate` | src/index.tsx:189-197 | succeeds exactly inside a Provider, bound to it; otherwise fails with the missing-Provider message |
| `Hooks.CallUpdate` | src/index.tsx:194-196 | forwards to `setState` with no callback: commit, then the listeners |
| `Hooks.ReducerUpdate` | src/index.tsx:217-221 | `dispatch` hands `setState` an updater, so the reducer sees the pre-update state |
| `Hooks.DispatchMergesReducerResult` | src/index.tsx:217-221 | `dispatch(action)` merges `reducer(prev, action)` onto the pre-update state |
| `Hooks.DispatchNeverDropsKeys` | src/index.tsx:217-221 | a key the reducer leaves out keeps its old value; dispatch cannot delete keys |
| `Hooks.FullStateReducerReplaces` | src/index.tsx:217-221 | a reducer that returns every key replaces the state with its result |
| `Hooks.PassThroughActionIsNoop` | src/index.tsx:217-221 | a reducer that returns its input state leaves the state unchanged |
| `Hooks.UseDispatch` | src/index.tsx:214-216 | succeeds exactly inside a Provider, with that Provider's update and the store's reducer |
| `Hooks.Dispatch` | src/index.tsx:217-221 | when mounted, the new state is the old state merged with the reducer's result, and the listeners are called |
| `Scenarios.LiteralThenUpdaterScenario` | tests/index.test.tsx:205-218 | `{value:"b"}` then `counter + 10` turn `{v:1, counter:10, value:"a"}` into `{v:1, counter:20, value:"b"}` |
| `Scenarios.SelectorTestNext` | tests/useSelector.test.tsx:36-41 | the click's update gives `value "react1", name "pure1", address "context"` |
| `Scenarios.DisjointSelectorScenario` | tests/useSelector.test.tsx:160-175 | that update re-renders the whole-state consumers and the `value` and `name` selectors, not the `address` one |
| `Scenarios.UntouchedSelectorKeepsItsValue` | tests/useSelector.test.tsx:170-175 | after delivery the `address` selector still holds "context" |
| `Scenarios.IncrementThenDecrementRestores` | src/index.tsx:217-221 | with a counter reducer, increment then decrement gives back the original state |
| `Scenarios.UnknownActionIsNoop` | src/index.tsx:217-221 | an action of an unknown type leaves the state unchanged |
| `Scenarios.LateMountIsStale` | src/index.tsx:156-169 | after an update, a hook mounted as written disagrees with the Provider; one started from the Provider's state agrees |
| `Scenarios.ProviderProtocol` | src/index.tsx:70-120 | two subscribers, a commit with a callback, the first unsubscribe called twice, unmount, then an update: the calls are both listeners then the callback, the registry kept only the second listener, and the late update is ignored |
| `Scenarios.HookWithoutProvider` | src/index.tsx:55-59 | a read hook and `useUpdate` outside a Provider fail with the missing-Provider message |

## Findings

| source | as written | input that shows it | evidently intended | confidence | as-written member | corrected member |
|---|---|---|---|---|---|---|
| src/index.tsx:157 | `useState`, `Consumer` (line 134) and `useSelector` (line 172) start from `getInitialValue()`, not from the Provider's current state | initial state `{counter:10, value:"a"}`; commit `{value:"b"}`; then mount a `useState` consumer: it holds `value "a"` while `getState()` has `"b"`, until the next commit | start from `provider.getState()` | not executed; medium | `Hooks.InitialBridgeAsWritten` and `Hooks.MountBridgeAsWritten`, shown by `Scenarios.LateMountIsStale` | `Hooks.InitialBridge`, used by `Hooks.MountBridge` |

## Left out

- JSX rendering, the two React contexts, `React.useContext` and `React.useState` are left out. They are host runtime, not logic of this repository. A context read is modelled as `Hooks.ContextValue`.
- `useEffect` scheduling is left out. The only part modelled is a render pass of a subscribed hook, as `Hooks.Resubscribe` (cleanup, then subscribe). The exact counts 7 and 5 in the selector test depend on React's mount and unmount order and are not stated.
- React's asynchronous and batched `setState` is left out: every commit is synchronous. Under batching, `prevState` would be the state at call time, not the state before that commit.
- Re-entrant listeners are left out. A listener that calls `setState` or an unsubscribe while `forEach` runs has no model, because listeners are opaque handles here.
- The `props` argument that React passes to an updater is left out; the Provider has no props other than its children.
- React's own bail-out in a hook's state setter (`Object.is`) is left out. `Bridges.Fires` says when the setter is called, not whether React then re-renders.
- `Equality.ShallowEqual`: a value held under a key, or returned alone by a selector, is compared by identity. A nested object is never looked into, except the one record a selector returns.
- `withHooks` (a type cast of `with-component-hooks`), the `version` constant and the TypeScript types carry no logic and are left out.
- `Providers.Provider.SetState`, `Bridges.Notify` and `Hooks.Dispatch`: updaters, selectors and reducers are total functions here, so the model assumes the callers' functions never throw. In the code a throwing updater or reducer ends the commit, and a selector that throws inside a listener ends the `forEach`, so later listeners and the callback do not run; those exceptions propagate to the caller and are not modelled.
- An `Unsubscribe` handle holds only its listener, not the Provider that issued it. In the code the closure always acts on its own Provider; the model lets `Providers.Provider.RunUnsubscribe` and `Hooks.Resubscribe` take a handle from another Provider, and callers are trusted to pass the right one.
- `invariant` is modelled as the `Err(MissingProvider(...))` result, not as a thrown exception.
- That `useUpdate`'s closure keeps its identity across renders is not modelled; the code does not memoise it.
- Which listener handle a hook uses is a parameter of `Hooks.MountBridge`. JavaScript closure identity is not modelled.
