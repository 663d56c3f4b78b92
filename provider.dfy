/** The Provider component: the current state, the ordered listener
    registry, and the commit-then-notify-then-callback protocol of
    `setState`. */
module Providers {
  import opened StoreState

  /** A listener is known by a handle; JavaScript compares the closures by
      reference, so two registrations of one closure share a handle. */
  type ListenerId = nat

  /** The unsubscribe function `subscribe` returns, bound to one listener. */
  datatype Unsubscribe = Unsubscribe(listener: ListenerId)

  /** One call the Provider makes: a listener called with the state captured
      before the commit and the committed state, or the `setState` callback. */
  datatype Event<K, V> =
    | Notified(listener: ListenerId, prev: map<K, V>, next: map<K, V>)
    | CallbackRan

  /** The calls that notifying `ls` makes, in registry order. */
  function Notifications<K, V>(ls: seq<ListenerId>, prev: map<K, V>, next: map<K, V>): (es: seq<Event<K, V>>)
    ensures |es| == |ls|
  {
    if ls == [] then [] else [Notified(ls[0], prev, next)] + Notifications(ls[1..], prev, next)
  }

  /** The `i`-th call goes to the `i`-th registration, with the state
      captured before the commit and the committed state. */
  lemma {:induction false} NotificationAt<K, V>(ls: seq<ListenerId>, prev: map<K, V>, next: map<K, V>, i: nat)
    requires i < |ls|
    ensures Notifications(ls, prev, next)[i] == Notified(ls[i], prev, next)
  {
    if i > 0 {
      NotificationAt(ls[1..], prev, next, i - 1);
    }
  }

  /** `Array.prototype.indexOf`: the first position of `x`, or -1. */
  function FirstIndex(s: seq<ListenerId>, x: ListenerId): (i: int)
    ensures -1 <= i < |s|
    ensures i == -1 <==> x !in s
    ensures 0 <= i ==> s[i] == x && forall k :: 0 <= k < i ==> s[k] != x
  {
    if s == [] then -1
    else if s[0] == x then 0
    else
      var j := FirstIndex(s[1..], x);
      if j == -1 then -1 else j + 1
  }

  /** The registry without the first occurrence of `x`. */
  function RemoveFirst(s: seq<ListenerId>, x: ListenerId): (r: seq<ListenerId>)
    ensures x !in s ==> r == s
    ensures x in s ==> |r| == |s| - 1
  {
    if s == [] then []
    else if s[0] == x then s[1..]
    else [s[0]] + RemoveFirst(s[1..], x)
  }

  /** Exactly one registration of `x` goes, and nothing else. */
  lemma {:induction false} RemoveFirstTakesOneRegistration(s: seq<ListenerId>, x: ListenerId)
    ensures multiset(RemoveFirst(s, x)) == multiset(s) - multiset{x}
  {
    if s != [] {
      assert s == [s[0]] + s[1..];
      if s[0] != x {
        RemoveFirstTakesOneRegistration(s[1..], x);
      }
    }
  }

  /** Splicing out the element at `indexOf(x)`, the first position holding
      `x`, removes the first occurrence, and every other listener keeps its
      relative order. */
  lemma {:induction false} SpliceIsRemoveFirst(s: seq<ListenerId>, x: ListenerId, i: nat)
    requires i < |s| && s[i] == x
    requires forall k :: 0 <= k < i ==> s[k] != x
    ensures s[..i] + s[i + 1..] == RemoveFirst(s, x)
  {
    if i == 0 {
      assert s[..0] + s[1..] == s[1..];
    } else {
      var t := s[1..];
      forall k | 0 <= k < i - 1
        ensures t[k] != x
      {
        assert t[k] == s[k + 1];
      }
      SpliceIsRemoveFirst(t, x, i - 1);
      assert RemoveFirst(s, x) == [s[0]] + RemoveFirst(t, x) by {
        assert s != [] && s[0] != x;
      }
      assert s[..i] == [s[0]] + t[..i - 1];
      assert s[i + 1..] == t[i..];
      assert ([s[0]] + t[..i - 1]) + t[i..] == [s[0]] + (t[..i - 1] + t[i..]);
    }
  }

  /** Subscribing a new listener, letting others subscribe, then calling its
      unsubscribe leaves exactly the other registrations, in their order. */
  lemma SubscribeThenUnsubscribe(s: seq<ListenerId>, x: ListenerId, t: seq<ListenerId>)
    requires x !in s
    ensures RemoveFirst(s + [x] + t, x) == s + t
  {
    var w := s + [x] + t;
    assert w[|s|] == x;
    forall k | 0 <= k < |s|
      ensures w[k] != x
    {
      assert w[k] == s[k];
    }
    SpliceIsRemoveFirst(w, x, |s|);
    assert w[..|s|] == s && w[|s| + 1..] == t;
  }

  /** An unsubscribe whose listener is already gone changes nothing. */
  lemma UnsubscribeAgainIsNoop(s: seq<ListenerId>, x: ListenerId)
    requires multiset(s)[x] <= 1
    ensures RemoveFirst(RemoveFirst(s, x), x) == RemoveFirst(s, x)
  {
    RemoveFirstTakesOneRegistration(s, x);
    assert x !in multiset(RemoveFirst(s, x));
  }

  /** Running an unsubscribe twice takes two registrations of its listener,
      one per call, which matters when one closure was subscribed twice. */
  lemma UnsubscribeTwiceTakesTwo(s: seq<ListenerId>, x: ListenerId)
    ensures multiset(RemoveFirst(RemoveFirst(s, x), x)) == multiset(s) - multiset{x} - multiset{x}
  {
    RemoveFirstTakesOneRegistration(s, x);
    RemoveFirstTakesOneRegistration(RemoveFirst(s, x), x);
  }

  /** Notifying a registry split in two notifies the first part, then the second. */
  lemma {:induction false} NotificationsAppend<K, V>(a: seq<ListenerId>, b: seq<ListenerId>, prev: map<K, V>, next: map<K, V>)
    ensures Notifications(a + b, prev, next) == Notifications(a, prev, next) + Notifications(b, prev, next)
  {
    if a == [] {
      assert a + b == b;
    } else {
      assert (a + b)[0] == a[0];
      assert (a + b)[1..] == a[1..] + b;
      NotificationsAppend(a[1..], b, prev, next);
    }
  }

  /** How often `y` occurs in a sequence that starts with `x`. */
  lemma OccurrencesOfCons<T>(x: T, s: seq<T>, y: T)
    ensures multiset([x] + s)[y] == (if x == y then 1 else 0) + multiset(s)[y]
  {
    assert multiset([x] + s) == multiset{x} + multiset(s);
  }

  /** A listener is called once per registration: as often as it occurs in
      the registry at notify time. */
  lemma {:induction false} NotifiedOncePerRegistration<K, V>(ls: seq<ListenerId>, l: ListenerId, prev: map<K, V>, next: map<K, V>)
    ensures multiset(Notifications(ls, prev, next))[Notified(l, prev, next)] == multiset(ls)[l]
  {
    if ls != [] {
      var rest := Notifications(ls[1..], prev, next);
      NotifiedOncePerRegistration(ls[1..], l, prev, next);
      OccurrencesOfCons(ls[0], ls[1..], l);
      OccurrencesOfCons(Notified(ls[0], prev, next), rest, Notified(l, prev, next));
      assert ls == [ls[0]] + ls[1..];
    }
  }

  /** The callback is never among a commit's notifications, so with a
      callback the last call of `setState` is the callback. */
  lemma CallbackComesLast<K, V>(ls: seq<ListenerId>, prev: map<K, V>, next: map<K, V>)
    ensures CallbackRan !in Notifications(ls, prev, next)
    ensures var es := Notifications(ls, prev, next) + [CallbackRan];
      es[|es| - 1] == CallbackRan && forall i :: 0 <= i < |es| - 1 ==> es[i].Notified?
  {
    forall i | 0 <= i < |ls|
      ensures Notifications(ls, prev, next)[i].Notified?
    {
      NotificationAt(ls, prev, next, i);
    }
  }

  class Provider<K(==), V> {
    /** The current snapshot. */
    var state: map<K, V>
    /** The subscribers, in registration order. */
    var listeners: seq<ListenerId>
    /** Whether the host still has this component mounted; the host ignores
        a `setState` on an unmounted component and runs no callback. */
    var mounted: bool
    /** Every call the Provider has made to a listener or a callback. */
    var trace: seq<Event<K, V>>

    constructor (init: Initial<K, V>)
      ensures state == GetInitialValue(init)
      ensures listeners == [] && mounted && trace == []
    {
      state := GetInitialValue(init);
      listeners := [];
      mounted := true;
      trace := [];
    }

    /** `getState`: the current snapshot. */
    function GetState(): (s: map<K, V>)
      reads this
      ensures s == state
    {
      state
    }

    /** `getSubscribeCount`: how many registrations the registry holds. */
    function GetSubscribeCount(): (n: nat)
      reads this
      ensures n == |listeners|
      ensures n == 0 <==> listeners == []
    {
      |listeners|
    }

    /** `subscribe`: append the listener and return its unsubscribe. */
    method Subscribe(l: ListenerId) returns (u: Unsubscribe)
      modifies this`listeners
      ensures listeners == old(listeners) + [l]
      ensures GetSubscribeCount() == old(GetSubscribeCount()) + 1
      ensures u.listener == l
    {
      listeners := listeners + [l];
      u := Unsubscribe(l);
    }

    /** The closure `subscribe` returns: find the listener and splice it out
        if it is still there. */
    method RunUnsubscribe(u: Unsubscribe)
      modifies this`listeners
      ensures listeners == RemoveFirst(old(listeners), u.listener)
      ensures GetSubscribeCount() == old(GetSubscribeCount()) - if u.listener in old(listeners) then 1 else 0
    {
      var idx := FirstIndex(listeners, u.listener);
      if idx > -1 {
        SpliceIsRemoveFirst(listeners, u.listener, idx);
        listeners := listeners[..idx] + listeners[idx + 1..];
      }
    }

    /** `componentWillUnmount`: truncate the registry, whatever unsubscribes
        are still outstanding. */
    method Unmount()
      modifies this`listeners, this`mounted
      ensures listeners == [] && GetSubscribeCount() == 0
      ensures !mounted
    {
      listeners := [];
      mounted := false;
    }

    /** `setState`: capture the previous state, commit, call every listener
        in registry order with both snapshots, then the callback. */
    method SetState(u: Update<K, V>, callback: bool)
      modifies this`state, this`trace
      ensures old(mounted) ==> state == Commit(old(state), u)
      ensures old(mounted) ==> trace == old(trace) + Notifications(listeners, old(state), state)
                                                    + (if callback then [CallbackRan] else [])
      ensures !old(mounted) ==> state == old(state) && trace == old(trace)
    {
      if !mounted {
        return;
      }
      var prevState := state;
      state := Commit(prevState, u);
      var i := 0;
      while i < |listeners|
        invariant 0 <= i <= |listeners|
        invariant state == Commit(prevState, u)
        invariant trace == old(trace) + Notifications(listeners[..i], prevState, state)
      {
        NotificationsAppend(listeners[..i], [listeners[i]], prevState, state);
        assert listeners[..i + 1] == listeners[..i] + [listeners[i]];
        assert Notifications([listeners[i]], prevState, state) == [Notified(listeners[i], prevState, state)];
        trace := trace + [Notified(listeners[i], prevState, state)];
        i := i + 1;
      }
      assert listeners[..i] == listeners;
      if callback {
        trace := trace + [CallbackRan];
      }
    }
  }

  /** A run of `setState` calls with no callbacks, one after another: the
      Provider ends in the fold of their commits in call order. */
  method SetStateSequence<K, V>(p: Provider<K, V>, us: seq<Update<K, V>>)
    modifies p`state, p`trace
    ensures old(p.mounted) ==> p.state == CommitAll(old(p.state), us)
    ensures !old(p.mounted) ==> p.state == old(p.state) && p.trace == old(p.trace)
    ensures old(p.trace) <= p.trace
  {
    var i := 0;
    while i < |us|
      invariant 0 <= i <= |us|
      invariant p.mounted == old(p.mounted) && p.listeners == old(p.listeners)
      invariant p.mounted ==> CommitAll(old(p.state), us) == CommitAll(p.state, us[i..])
      invariant !p.mounted ==> p.state == old(p.state) && p.trace == old(p.trace)
      invariant old(p.trace) <= p.trace
    {
      assert us[i..][0] == us[i] && us[i..][1..] == us[i + 1..];
      p.SetState(us[i], false);
      i := i + 1;
    }
  }
}
