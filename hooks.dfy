/** What `createStore` and `createReducer` hand to components: the
    "missing Provider" guard, the read hooks that subscribe a bridge, and the
    `useUpdate` and `useDispatch` write paths. */
module Hooks {
  import opened Wrappers
  import opened Equality
  import opened StoreState
  import opened Providers
  import opened Bridges

  datatype StoreError = MissingProvider(message: string)

  const ErrorMessage: string := "You may forget to use the <Store.Provider> package component"

  /** What a component reads from the store's context: the default
      placeholder object when no Provider encloses it, or the Provider. */
  datatype ContextValue<K(==), V> = Placeholder | Scope(provider: Provider<K, V>)
  {
    /** The objects a hook may change through this context. */
    function Frame(): set<object>
    {
      if Scope? then {provider} else {}
    }
  }

  /** `assertProvider`, and with it `useProvider` and `useStore`: the
      Provider in scope, or the loud "missing Provider" failure. */
  function AssertProvider<K, V>(ctx: ContextValue<K, V>): (r: Result<Provider<K, V>, StoreError>)
    ensures r.Ok? <==> ctx.Scope?
    ensures r.Ok? ==> r.value == ctx.provider
    ensures r.Err? ==> r.error == MissingProvider(ErrorMessage)
  {
    match ctx
    case Placeholder => Err(MissingProvider(ErrorMessage))
    case Scope(p) => Ok(p)
  }

  /** The read hooks: `useState` and `Consumer` hold the whole state,
      `useSelector` a selection of it. */
  datatype BridgeKind<!K, !V> = WholeStateRead | SelectorRead(selector: Selector<K, V>)

  /** The bridge a hook starts with, as written: its held value is computed
      from the store's initial value, not from the Provider's state. */
  function InitialBridgeAsWritten<K, V>(kind: BridgeKind<K, V>, init: Initial<K, V>): (b: Bridge<K, V>)
    ensures InSync(b, GetInitialValue(init))
    ensures b.WholeState? <==> kind.WholeStateRead?
    ensures b.Selecting? ==> b.selector == kind.selector
  {
    var s := GetInitialValue(init);
    match kind
    case WholeStateRead => WholeState(s)
    case SelectorRead(selector) =>
      ShallowEqualIsEquivalence(selector(s), selector(s), selector(s));
      Selecting(selector, selector(s))
  }

  /** The bridge a hook starts with when it reads the Provider's current
      state: it agrees with that state from the moment it mounts. */
  function InitialBridge<K, V>(kind: BridgeKind<K, V>, current: map<K, V>): (b: Bridge<K, V>)
    ensures InSync(b, current)
    ensures b.WholeState? <==> kind.WholeStateRead?
    ensures b.Selecting? ==> b.selector == kind.selector
  {
    match kind
    case WholeStateRead => WholeState(current)
    case SelectorRead(selector) =>
      ShallowEqualIsEquivalence(selector(current), selector(current), selector(current));
      Selecting(selector, selector(current))
  }

  /** A mounted read hook: its cleanup and the value it holds. */
  datatype Mounted<!K, !V> = Mounted(cleanup: Unsubscribe, bridge: Bridge<K, V>)

  /** Mounting `useState`, `Consumer` or `useSelector`: check for a Provider,
      then subscribe the hook's listener. Without a Provider it fails before
      anything is subscribed. */
  method MountBridge<K, V>(ctx: ContextValue<K, V>, l: ListenerId, kind: BridgeKind<K, V>)
    returns (r: Result<Mounted<K, V>, StoreError>)
    modifies ctx.Frame()
    ensures r.Err? <==> ctx.Placeholder?
    ensures r.Err? ==> r.error == MissingProvider(ErrorMessage)
    ensures ctx.Scope? ==>
      var p := ctx.provider;
      && p.listeners == old(p.listeners) + [l]
      && p.state == old(p.state) && p.trace == old(p.trace) && p.mounted == old(p.mounted)
      && r.value.cleanup == Unsubscribe(l)
      && r.value.bridge == InitialBridge(kind, p.state)
  {
    var checked := AssertProvider(ctx);
    if checked.Err? {
      return Err(checked.error);
    }
    var p := checked.value;
    var bridge := InitialBridge(kind, p.GetState());
    var cleanup := p.Subscribe(l);
    r := Ok(Mounted(cleanup, bridge));
  }

  /** Mounting a read hook as the code does it: the held value comes from
      `getInitialValue()`, whatever the Provider's state is by then. */
  method MountBridgeAsWritten<K, V>(ctx: ContextValue<K, V>, init: Initial<K, V>, l: ListenerId, kind: BridgeKind<K, V>)
    returns (r: Result<Mounted<K, V>, StoreError>)
    modifies ctx.Frame()
    ensures r.Err? <==> ctx.Placeholder?
    ensures r.Err? ==> r.error == MissingProvider(ErrorMessage)
    ensures ctx.Scope? ==>
      var p := ctx.provider;
      && p.listeners == old(p.listeners) + [l]
      && p.state == old(p.state) && p.trace == old(p.trace) && p.mounted == old(p.mounted)
      && r.value.cleanup == Unsubscribe(l)
      && r.value.bridge == InitialBridgeAsWritten(kind, init)
  {
    var bridge := InitialBridgeAsWritten(kind, init);
    var checked := AssertProvider(ctx);
    if checked.Err? {
      return Err(checked.error);
    }
    var p := checked.value;
    var cleanup := p.Subscribe(l);
    r := Ok(Mounted(cleanup, bridge));
  }

  /** A render pass of a subscribed hook: the effect's cleanup runs, then the
      effect subscribes the new listener. The registry size stays the same. */
  method Resubscribe<K, V>(p: Provider<K, V>, cleanup: Unsubscribe, l: ListenerId) returns (next: Unsubscribe)
    modifies p`listeners
    ensures p.listeners == RemoveFirst(old(p.listeners), cleanup.listener) + [l]
    ensures cleanup.listener in old(p.listeners) ==> p.GetSubscribeCount() == old(p.GetSubscribeCount())
    ensures next == Unsubscribe(l)
  {
    p.RunUnsubscribe(cleanup);
    next := p.Subscribe(l);
  }

  /** The function `useUpdate` returns, bound to the Provider in scope. */
  datatype UpdateFn<K(==), V> = UpdateFn(provider: Provider<K, V>)

  /** `useUpdate`: the Provider's update function, or the missing-Provider failure. */
  function UseUpdate<K, V>(ctx: ContextValue<K, V>): (r: Result<UpdateFn<K, V>, StoreError>)
    ensures r.Ok? <==> ctx.Scope?
    ensures r.Ok? ==> r.value.provider == ctx.provider
    ensures r.Err? ==> r.error == MissingProvider(ErrorMessage)
  {
    match AssertProvider(ctx)
    case Err(e) => Err(e)
    case Ok(p) => Ok(UpdateFn(p))
  }

  /** Calling the update function: `provider.setState(state)`, with no callback. */
  method CallUpdate<K, V>(f: UpdateFn<K, V>, u: Update<K, V>)
    modifies f.provider`state, f.provider`trace
    ensures var p := f.provider;
      && (old(p.mounted) ==> p.state == Commit(old(p.state), u)
                             && p.trace == old(p.trace) + Notifications(p.listeners, old(p.state), p.state))
      && (!old(p.mounted) ==> p.state == old(p.state) && p.trace == old(p.trace))
  {
    f.provider.SetState(u, false);
  }

  /** A reducer: the next state for a state and an action. */
  type Reducer<!K, !V, !A> = (map<K, V>, A) -> map<K, V>

  /** What `dispatch(action)` hands to the update function: an updater that
      applies the reducer to the pre-update state. */
  function ReducerUpdate<K, V, A>(reducer: Reducer<K, V, A>, action: A): (u: Update<K, V>)
    ensures u.Updater?
  {
    Updater(prev => Some(reducer(prev, action)))
  }

  /** Dispatching merges the reducer's result onto the pre-update state. */
  lemma DispatchMergesReducerResult<K, V, A>(reducer: Reducer<K, V, A>, action: A, prev: map<K, V>)
    ensures Commit(prev, ReducerUpdate(reducer, action)) == prev + reducer(prev, action)
  {
  }

  /** Because the result is merged, a reducer cannot remove a key: every key
      of the pre-update state survives, with its old value where the reducer
      left the key out. */
  lemma DispatchNeverDropsKeys<K, V, A>(reducer: Reducer<K, V, A>, action: A, prev: map<K, V>)
    ensures var next := Commit(prev, ReducerUpdate(reducer, action));
      && next.Keys == prev.Keys + reducer(prev, action).Keys
      && forall k :: k in prev && k !in reducer(prev, action) ==> next[k] == prev[k]
  {
  }

  /** A reducer that returns the whole state replaces it. */
  lemma FullStateReducerReplaces<K, V, A>(reducer: Reducer<K, V, A>, action: A, prev: map<K, V>)
    requires prev.Keys <= reducer(prev, action).Keys
    ensures Commit(prev, ReducerUpdate(reducer, action)) == reducer(prev, action)
  {
  }

  /** A reducer that passes an action through (returns the state it got)
      leaves the state unchanged. */
  lemma PassThroughActionIsNoop<K, V, A>(reducer: Reducer<K, V, A>, action: A, prev: map<K, V>)
    requires reducer(prev, action) == prev
    ensures Commit(prev, ReducerUpdate(reducer, action)) == prev
  {
  }

  /** The function `useDispatch` returns. */
  datatype DispatchFn<!K(==), !V, !A> = DispatchFn(update: UpdateFn<K, V>, reducer: Reducer<K, V, A>)

  /** `useDispatch`: `useUpdate` wrapped around the store's reducer. */
  function UseDispatch<K, V, A>(ctx: ContextValue<K, V>, reducer: Reducer<K, V, A>): (r: Result<DispatchFn<K, V, A>, StoreError>)
    ensures r.Ok? <==> ctx.Scope?
    ensures r.Ok? ==> r.value.update.provider == ctx.provider && r.value.reducer == reducer
    ensures r.Err? ==> r.error == MissingProvider(ErrorMessage)
  {
    match UseUpdate(ctx)
    case Err(e) => Err(e)
    case Ok(f) => Ok(DispatchFn(f, reducer))
  }

  /** `dispatch(action)`: `update(prev => reducer(prev, action))`. */
  method Dispatch<K, V, A>(d: DispatchFn<K, V, A>, action: A)
    modifies d.update.provider`state, d.update.provider`trace
    ensures var p := d.update.provider;
      && (old(p.mounted) ==> p.state == old(p.state) + d.reducer(old(p.state), action)
                             && p.trace == old(p.trace) + Notifications(p.listeners, old(p.state), p.state))
      && (!old(p.mounted) ==> p.state == old(p.state) && p.trace == old(p.trace))
  {
    CallUpdate(d.update, ReducerUpdate(d.reducer, action));
  }
}
