/** The store's state and what one commit does to it: the initial value, the
    update descriptors `setState` accepts, and React's shallow merge. */
module StoreState {
  import opened Wrappers

  /** How `createStore` is given its initial value: a function to call, or
      the value itself. */
  datatype Initial<K, V> = Lazy(make: () -> map<K, V>) | Eager(value: map<K, V>)

  /** What `setState` accepts: a partial state literal, an updater that gets
      the pre-update state and returns a partial state or `null`, or `null`. */
  datatype Update<!K, !V> =
    | Literal(partial: map<K, V>)
    | Updater(apply: map<K, V> -> Option<map<K, V>>)
    | Null

  /** `getInitialValue`: call the initializer when it is a function,
      otherwise use it as the value. */
  function GetInitialValue<K, V>(init: Initial<K, V>): (s: map<K, V>)
    ensures init.Lazy? ==> s == init.make()
    ensures init.Eager? ==> s == init.value
  {
    match init
    case Lazy(make) => make()
    case Eager(value) => value
  }

  /** The partial state to merge, if any: an updater sees the state as it was
      before this update. */
  function PartialOf<K, V>(prev: map<K, V>, u: Update<K, V>): Option<map<K, V>>
  {
    match u
    case Literal(p) => Some(p)
    case Updater(f) => f(prev)
    case Null => None
  }

  /** One commit: keys in the partial take its values, every other key of
      the previous state keeps its value, and no key is dropped; `null`
      leaves the state as it was. */
  function Commit<K, V>(prev: map<K, V>, u: Update<K, V>): (next: map<K, V>)
    ensures PartialOf(prev, u).None? ==> next == prev
    ensures PartialOf(prev, u).Some? ==>
      var p := PartialOf(prev, u).value;
      && next.Keys == prev.Keys + p.Keys
      && (forall k :: k in p ==> next[k] == p[k])
      && (forall k :: k in prev && k !in p ==> next[k] == prev[k])
  {
    match PartialOf(prev, u)
    case None => prev
    case Some(p) => prev + p
  }

  /** The state after a sequence of commits, applied in call order. No
      commit drops a key, and a sequence of `null` updates changes nothing. */
  function CommitAll<K, V>(s: map<K, V>, us: seq<Update<K, V>>): (r: map<K, V>)
    ensures s.Keys <= r.Keys
    ensures (forall i :: 0 <= i < |us| ==> us[i].Null?) ==> r == s
    decreases |us|
  {
    if us == [] then s else CommitAll(Commit(s, us[0]), us[1..])
  }

  /** Committing two literals in a row is committing their union, the later
      one winning on shared keys. */
  lemma LiteralsCompose<K, V>(s: map<K, V>, p: map<K, V>, q: map<K, V>)
    ensures Commit(Commit(s, Literal(p)), Literal(q)) == Commit(s, Literal(p + q))
  {
  }

  /** Committing the same literal twice is committing it once. */
  lemma LiteralIdempotent<K, V>(s: map<K, V>, p: map<K, V>)
    ensures Commit(Commit(s, Literal(p)), Literal(p)) == Commit(s, Literal(p))
  {
  }

  /** A partial that restates values the state already has changes nothing. */
  lemma LiteralOfCurrentValuesIsNoop<K, V>(s: map<K, V>, p: map<K, V>)
    requires forall k :: k in p ==> k in s && s[k] == p[k]
    ensures Commit(s, Literal(p)) == s
  {
  }

  /** Running a sequence of updates and then another is running them all in
      order: the fold of commits respects call order. */
  lemma {:induction false} CommitAllAppend<K, V>(s: map<K, V>, us: seq<Update<K, V>>, vs: seq<Update<K, V>>)
    ensures CommitAll(s, us + vs) == CommitAll(CommitAll(s, us), vs)
    decreases |us|
  {
    if us == [] {
      assert us + vs == vs;
    } else {
      assert (us + vs)[0] == us[0];
      assert (us + vs)[1..] == us[1..] + vs;
      CommitAllAppend(Commit(s, us[0]), us[1..], vs);
    }
  }
}
