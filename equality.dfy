/** The shallow comparison that `useSelector` uses to decide whether a newly
    selected value differs from the one it holds. */
module Equality {

  /** What a selector returns: `undefined` (a key that is not in the state),
      one value compared by identity, or a plain record whose entries are
      compared one level deep. */
  datatype Derived<K, V> = Undefined | Scalar(value: V) | Record(fields: map<K, V>)

  /** Same kind; for records, the same key set and identical values under
      every key. Nested values are compared by identity, never recursively,
      so two derived values are shallow-equal exactly when they hold the same
      entries. */
  function ShallowEqual<K, V(==)>(a: Derived<K, V>, b: Derived<K, V>): (r: bool)
    ensures r <==> a == b
  {
    match (a, b)
    case (Undefined, Undefined) => true
    case (Scalar(x), Scalar(y)) => x == y
    case (Record(m), Record(n)) =>
      if m.Keys == n.Keys && forall k :: k in m ==> m[k] == n[k] then
        SameEntriesSameMap(m, n);
        true
      else
        false
    case _ => false
  }

  /** Two maps with the same keys and the same value under each key are equal. */
  lemma SameEntriesSameMap<K, V>(m: map<K, V>, n: map<K, V>)
    requires m.Keys == n.Keys
    requires forall k :: k in m ==> m[k] == n[k]
    ensures m == n
  {
    assert forall k :: k in m <==> k in n;
  }

  /** Shallow equality is an equivalence, so holding on to a shallow-equal
      value is as good as taking the new one. */
  lemma ShallowEqualIsEquivalence<K, V>(a: Derived<K, V>, b: Derived<K, V>, c: Derived<K, V>)
    ensures ShallowEqual(a, a)
    ensures ShallowEqual(a, b) ==> ShallowEqual(b, a)
    ensures ShallowEqual(a, b) && ShallowEqual(b, c) ==> ShallowEqual(a, c)
  {
  }

  /** Two records are shallow-equal exactly when they hold the same entries. */
  lemma ShallowEqualRecords<K, V>(m: map<K, V>, n: map<K, V>)
    ensures ShallowEqual(Record(m), Record(n)) <==> m == n
  {
    if ShallowEqual(Record(m), Record(n)) {
      assert forall k :: k in m <==> k in n;
    }
  }
}
