/** The consumer side: what the listeners registered by `useState`,
    `Consumer` and `useSelector` do when the Provider calls them, and which
    consumers re-render after a commit. */
module Bridges {
  import opened Equality
  import opened StoreState
  import opened Providers

  /** A pure projection of the state. */
  type Selector<!K, !V> = map<K, V> -> Derived<K, V>

  /** A mounted read hook and the value it holds in its React state. */
  datatype Bridge<!K, !V> =
    | WholeState(snapshot: map<K, V>)
    | Selecting(selector: Selector<K, V>, held: Derived<K, V>)

  /** The held value agrees with the state `s`: the whole snapshot, or a
      value shallow-equal to the selector's result on `s`. */
  function InSync<K, V(==)>(b: Bridge<K, V>, s: map<K, V>): (r: bool)
    ensures b.WholeState? ==> (r <==> b.snapshot == s)
    ensures b.Selecting? ==> (r <==> b.held == b.selector(s))
  {
    match b
    case WholeState(snapshot) => snapshot == s
    case Selecting(selector, held) => ShallowEqual(held, selector(s))
  }

  /** Whether the listener calls the hook's state setter, which makes the
      owning component re-render: always for a whole-state read, and for a
      selector only when the new selection is not shallow-equal to the held one. */
  function Fires<K, V(==)>(b: Bridge<K, V>, next: map<K, V>): (r: bool)
    ensures b.WholeState? ==> r
    ensures b.Selecting? ==> (r <==> !InSync(b, next))
    ensures !r ==> InSync(b, next)
  {
    match b
    case WholeState(_) => true
    case Selecting(selector, held) => !ShallowEqual(held, selector(next))
  }

  /** The bridge after its listener ran with `(prevState, nextState)`; the
      listeners ignore `prevState`. */
  function Notify<K, V(==)>(b: Bridge<K, V>, prev: map<K, V>, next: map<K, V>): (r: Bridge<K, V>)
    ensures InSync(r, next)
    ensures !Fires(b, next) ==> r == b
    ensures r.WholeState? <==> b.WholeState?
    ensures r.Selecting? ==> r.selector == b.selector && (Fires(b, next) ==> r.held == b.selector(next))
  {
    match b
    case WholeState(_) => WholeState(next)
    case Selecting(selector, held) =>
      var selected := selector(next);
      ShallowEqualIsEquivalence(selected, selected, selected);
      if !ShallowEqual(held, selected) then Selecting(selector, selected) else b
  }

  /** A whole-state read re-renders on every commit, whatever changed. */
  lemma WholeStateAlwaysReplaces<K, V>(snapshot: map<K, V>, prev: map<K, V>, next: map<K, V>)
    ensures Fires(WholeState(snapshot), next)
    ensures Notify(WholeState(snapshot), prev, next) == WholeState(next)
  {
  }

  /** A selector whose held value matches the previous state re-renders
      exactly when its selection of the new state differs, shallowly, from
      its selection of the previous one. */
  lemma SelectorFiresIffSelectionChanged<K, V>(selector: Selector<K, V>, held: Derived<K, V>, prev: map<K, V>, next: map<K, V>)
    requires InSync(Selecting(selector, held), prev)
    ensures Fires(Selecting(selector, held), next) <==> !ShallowEqual(selector(prev), selector(next))
  {
    ShallowEqualIsEquivalence(held, selector(prev), selector(next));
    ShallowEqualIsEquivalence(selector(prev), held, selector(next));
  }

  /** `state => state[k]`. */
  function Field<K, V>(k: K): Selector<K, V>
  {
    s => if k in s then Scalar(s[k]) else Undefined
  }

  /** `state => ({k1: state[k1], ...})` over the keys `keys`. */
  function Pick<K, V>(keys: set<K>): Selector<K, V>
  {
    s => Record(map k | k in keys && k in s :: s[k])
  }

  /** A field selection changes under a literal update exactly when the
      update writes that key with a value it did not have. */
  lemma FieldSelectionChangesIff<K, V>(k: K, prev: map<K, V>, p: map<K, V>)
    ensures !ShallowEqual(Field(k)(prev), Field(k)(Commit(prev, Literal(p))))
        <==> k in p && (k !in prev || prev[k] != p[k])
  {
  }

  /** A picked record changes under a literal update exactly when the update
      writes one of the picked keys with a value it did not have. */
  lemma PickSelectionChangesIff<K, V>(keys: set<K>, prev: map<K, V>, p: map<K, V>)
    ensures !ShallowEqual(Pick(keys)(prev), Pick(keys)(Commit(prev, Literal(p))))
        <==> exists k :: k in keys && k in p && (k !in prev || prev[k] != p[k])
  {
    var next := Commit(prev, Literal(p));
    var a := map k | k in keys && k in prev :: prev[k];
    var b := map k | k in keys && k in next :: next[k];
    assert Pick(keys)(prev) == Record(a);
    assert Pick(keys)(next) == Record(b);
    if exists k :: k in keys && k in p && (k !in prev || prev[k] != p[k]) {
      var k :| k in keys && k in p && (k !in prev || prev[k] != p[k]);
      assert k in b && (k !in a || a[k] != b[k]);
    }
  }

  /** Two bridges are the same read: both whole-state, or both selections
      by the same selector. */
  ghost predicate SameRead<K, V>(a: Bridge<K, V>, b: Bridge<K, V>)
  {
    a.WholeState? == b.WholeState? && (a.Selecting? ==> a.selector == b.selector)
  }

  /** Which registered bridges the calls `es` reach, in order: each
      notification runs its listener's bridge; the callback touches none. */
  function Deliver<K, V(==)>(bs: map<ListenerId, Bridge<K, V>>, es: seq<Event<K, V>>): (r: map<ListenerId, Bridge<K, V>>)
    ensures r.Keys == bs.Keys
    decreases |es|
  {
    if es == [] then bs
    else
      match es[0]
      case CallbackRan => Deliver(bs, es[1..])
      case Notified(l, p, n) => Deliver(if l in bs then bs[l := Notify(bs[l], p, n)] else bs, es[1..])
  }

  /** After one commit's notifications every subscribed bridge holds a value
      that agrees with the committed state, and unsubscribed bridges are
      untouched. */
  lemma {:induction false} CommitLeavesSubscribersInSync<K, V>(bs: map<ListenerId, Bridge<K, V>>, ls: seq<ListenerId>, prev: map<K, V>, next: map<K, V>)
    ensures var r := Deliver(bs, Notifications(ls, prev, next));
      && (forall l :: l in bs && l in ls ==> InSync(r[l], next))
      && (forall l :: l in bs && l !in ls ==> r[l] == bs[l])
      && (forall l :: l in bs ==> SameRead(r[l], bs[l]))
  {
    if ls != [] {
      var es := Notifications(ls, prev, next);
      assert es[1..] == Notifications(ls[1..], prev, next);
      var l0 := ls[0];
      var bs' := if l0 in bs then bs[l0 := Notify(bs[l0], prev, next)] else bs;
      assert Deliver(bs, es) == Deliver(bs', es[1..]);
      CommitLeavesSubscribersInSync(bs', ls[1..], prev, next);
      forall l | l in bs && l in ls
        ensures InSync(Deliver(bs, es)[l], next)
      {
        if l !in ls[1..] {
          assert l == l0;
        }
      }
      forall l | l in bs && l !in ls
        ensures Deliver(bs, es)[l] == bs[l]
      {
        assert l != l0;
      }
      forall l | l in bs
        ensures SameRead(Deliver(bs, es)[l], bs[l])
      {
        assert SameRead(bs'[l], bs[l]);
      }
    }
  }

  /** The registered bridges whose component re-renders after a commit to `next`. */
  function Rerendered<K, V(==)>(bs: map<ListenerId, Bridge<K, V>>, ls: seq<ListenerId>, next: map<K, V>): set<ListenerId>
  {
    set l | l in bs && l in ls && Fires(bs[l], next)
  }
}
