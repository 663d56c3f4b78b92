/** The behaviours the repository's tests exercise, on concrete states with
    string keys. */
module Scenarios {
  import opened Wrappers
  import opened Equality
  import opened StoreState
  import opened Providers
  import opened Bridges
  import opened Hooks

  /** The values the tests store: numbers and strings. */
  datatype Val = Num(n: int) | Str(s: string)

  type State = map<string, Val>

  /** The test's updater `prevState => ({counter: prevState.counter + 10})`
      (on a state whose counter is a number, the only case it is used on). */
  function AddTenToCounter(prev: State): Option<State>
  {
    if "counter" in prev && prev["counter"].Num? then Some(map["counter" := Num(prev["counter"].n + 10)])
    else Some(map[])
  }

  /** A literal `{value: "b"}` then the updater turn
      `{v: 1, counter: 10, value: "a"}` into counter 20 and value "b",
      `v` untouched. */
  lemma LiteralThenUpdaterScenario()
    ensures var s0 := map["v" := Num(1), "counter" := Num(10), "value" := Str("a")];
      var s1 := Commit(s0, Literal(map["value" := Str("b")]));
      && s1 == map["v" := Num(1), "counter" := Num(10), "value" := Str("b")]
      && Commit(s1, Updater(AddTenToCounter)) == map["v" := Num(1), "counter" := Num(20), "value" := Str("b")]
  {
    var s0 := map["v" := Num(1), "counter" := Num(10), "value" := Str("a")];
    var s1 := Commit(s0, Literal(map["value" := Str("b")]));
    assert s1 == map["v" := Num(1), "counter" := Num(10), "value" := Str("b")];
    assert AddTenToCounter(s1) == Some(map["counter" := Num(20)]);
  }

  /** The state of the selector test before and after its first click. */
  function SelectorTestState(): State
  {
    map["value" := Str("react"), "name" := Str("pure"), "address" := Str("context")]
  }

  function SelectorTestClick(): Update<string, Val>
  {
    Literal(map["value" := Str("react1"), "name" := Str("pure1")])
  }

  /** The test's consumers, in sync with the initial state: a `useState`
      consumer (0), selectors on `value` (1), `name` (2) and `address` (3),
      and a `Consumer` render prop (4). */
  function SelectorTestBridges(): map<ListenerId, Bridge<string, Val>>
  {
    var s := SelectorTestState();
    map[0 := WholeState(s),
        1 := Selecting(Field("value"), Field("value")(s)),
        2 := Selecting(Field("name"), Field("name")(s)),
        3 := Selecting(Field("address"), Field("address")(s)),
        4 := WholeState(s)]
  }

  /** The committed state after the first click. */
  lemma SelectorTestNext()
    ensures Commit(SelectorTestState(), SelectorTestClick())
         == map["value" := Str("react1"), "name" := Str("pure1"), "address" := Str("context")]
  {
  }

  /** An update touching only `value` and `name` re-renders the whole-state
      consumers and the `value` and `name` selectors, not the `address` one. */
  lemma DisjointSelectorScenario()
    ensures Rerendered(SelectorTestBridges(), [0, 1, 2, 3, 4], Commit(SelectorTestState(), SelectorTestClick()))
         == {0, 1, 2, 4}
  {
    var next := Commit(SelectorTestState(), SelectorTestClick());
    SelectorTestNext();
    var n := map["value" := Str("react1"), "name" := Str("pure1"), "address" := Str("context")];
    assert next == n;
    var bs := SelectorTestBridges();
    assert bs.Keys == {0, 1, 2, 3, 4};
    assert !Fires(bs[3], n) by {
      assert Field("address")(n) == Scalar(Str("context"));
    }
    assert Fires(bs[1], n) by {
      assert Field("value")(n) == Scalar(Str("react1"));
    }
    assert Fires(bs[2], n) by {
      assert Field("name")(n) == Scalar(Str("pure1"));
    }
    var r := Rerendered(bs, [0, 1, 2, 3, 4], n);
    assert 0 in r && 1 in r && 2 in r && 4 in r && 3 !in r;
    assert r <= {0, 1, 2, 3, 4};
  }

  /** After that commit is delivered, the `address` selector still holds
      "context". */
  lemma UntouchedSelectorKeepsItsValue()
    ensures var next := Commit(SelectorTestState(), SelectorTestClick());
      var r := Deliver(SelectorTestBridges(), Notifications([0, 1, 2, 3, 4], SelectorTestState(), next));
      r[3].Selecting? && r[3].held == Scalar(Str("context"))
  {
    var s := SelectorTestState();
    var next := Commit(s, SelectorTestClick());
    SelectorTestNext();
    var bs := SelectorTestBridges();
    assert !Fires(bs[3], next) by {
      assert Field("address")(next) == Scalar(Str("context"));
    }
    CommitLeavesSubscribersInSync(bs, [0, 1, 2, 3, 4], s, next);
    assert Field("address")(next) == Scalar(Str("context"));
  }

  /** The actions of a counter reducer; any other type passes through. */
  datatype CounterAction = Increment | Decrement | Other(kind: string)

  function Bump(s: State, delta: int): State
  {
    if "counter" in s && s["counter"].Num? then s["counter" := Num(s["counter"].n + delta)] else s
  }

  function CounterReducer(s: State, action: CounterAction): State
  {
    match action
    case Increment => Bump(s, 1)
    case Decrement => Bump(s, -1)
    case Other(_) => s
  }

  /** Dispatching increment then decrement restores the counter and the rest
      of the state. */
  lemma IncrementThenDecrementRestores(s: State)
    ensures Commit(Commit(s, ReducerUpdate(CounterReducer, Increment)), ReducerUpdate(CounterReducer, Decrement)) == s
  {
    DispatchMergesReducerResult(CounterReducer, Increment, s);
    var s1 := Commit(s, ReducerUpdate(CounterReducer, Increment));
    assert s1 == Bump(s, 1);
    DispatchMergesReducerResult(CounterReducer, Decrement, s1);
    assert Commit(s1, ReducerUpdate(CounterReducer, Decrement)) == Bump(s1, -1);
  }

  /** An action of an unknown type leaves the state unchanged. */
  lemma UnknownActionIsNoop(s: State, kind: string)
    ensures Commit(s, ReducerUpdate(CounterReducer, Other(kind))) == s
  {
    PassThroughActionIsNoop(CounterReducer, Other(kind), s);
  }

  /** A consumer mounted after an update starts from the store's initial
      value and so disagrees with the Provider until the next commit; one that
      starts from the Provider's state agrees with it. */
  lemma LateMountIsStale()
    ensures var init := Lazy(() => map["counter" := Num(10), "value" := Str("a")]);
      var current := Commit(GetInitialValue(init), Literal(map["value" := Str("b")]));
      && !InSync(InitialBridgeAsWritten(WholeStateRead, init), current)
      && !InSync(InitialBridgeAsWritten(SelectorRead(Field("value")), init), current)
      && InSync(InitialBridge(WholeStateRead, current), current)
      && InSync(InitialBridge(SelectorRead(Field("value")), current), current)
  {
    var init: Initial<string, Val> := Lazy(() => map["counter" := Num(10), "value" := Str("a")]);
    var s0 := GetInitialValue(init);
    var current := Commit(s0, Literal(map["value" := Str("b")]));
    assert current["value"] == Str("b");
    assert s0["value"] == Str("a");
    assert s0 != current;
  }

  /** The Provider protocol end to end: two subscriptions, a commit with a
      callback, an unsubscribe called twice, unmount, and an ignored update.
      Returns the calls made, the registry before unmount and the final state. */
  method ProviderProtocol() returns (calls: seq<Event<string, Val>>, kept: seq<ListenerId>, final: State)
    ensures final == map["name" := Str("update")]
    ensures calls == [Notified(1, map["name" := Str("provider")], final), Notified(2, map["name" := Str("provider")], final), CallbackRan]
    ensures kept == [2]
  {
    var p := new Provider<string, Val>(Eager(map["name" := Str("provider")]));
    var before := p.GetState();
    var u1 := p.Subscribe(1);
    var u2 := p.Subscribe(2);
    assert p.GetSubscribeCount() == 2;
    p.SetState(Literal(map["name" := Str("update")]), true);
    var after := p.GetState();
    assert after == map["name" := Str("update")];
    assert p.trace == [Notified(1, before, after), Notified(2, before, after), CallbackRan];
    p.RunUnsubscribe(u1);
    p.RunUnsubscribe(u1);
    kept := p.listeners;
    p.Unmount();
    assert p.GetSubscribeCount() == 0;
    p.SetState(Literal(map["name" := Str("late")]), true);
    calls := p.trace;
    final := p.GetState();
  }

  /** A hook outside any Provider fails with the missing-Provider message. */
  method HookWithoutProvider() returns (r: Result<Mounted<string, Val>, StoreError>)
    ensures r == Err(MissingProvider(ErrorMessage))
    ensures UseUpdate(ContextValue<string, Val>.Placeholder).Err?
  {
    var ctx: ContextValue<string, Val> := Placeholder;
    r := MountBridgeAsWritten(ctx, Eager(map[]), 1, WholeStateRead);
  }
}
