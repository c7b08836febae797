/** Sequences of key/value entries, and the dictionaries they list. */
module Entries {
  import opened Wrappers

  datatype Entry<+K, +V> = Entry(key: K, value: V)

  ghost predicate DistinctKeys<K, V>(c: seq<Entry<K, V>>) {
    forall i, j :: 0 <= i < j < |c| ==> c[i].key != c[j].key
  }

  /** The entries as a dictionary. */
  ghost function ToMap<K, V>(c: seq<Entry<K, V>>): map<K, V> {
    if c == [] then map[] else ToMap(c[1..])[c[0].key := c[0].value]
  }

  /** Position of the entry for `k`, or `|c|` when there is none. */
  function Index<K(==), V>(c: seq<Entry<K, V>>, k: K): (i: nat)
    ensures i <= |c|
    ensures i < |c| ==> c[i].key == k
    ensures forall j :: 0 <= j < i ==> c[j].key != k
    ensures i < |c| <==> k in ToMap(c)
    ensures i < |c| ==> ToMap(c)[k] == c[i].value
  {
    if c == [] then 0
    else if c[0].key == k then 0
    else 1 + Index(c[1..], k)
  }

  predicate Has<K(==), V>(c: seq<Entry<K, V>>, k: K) {
    Index(c, k) < |c|
  }

  function Lookup<K(==), V>(c: seq<Entry<K, V>>, k: K): Option<V> {
    var i := Index(c, k);
    if i < |c| then Some(c[i].value) else None
  }

  lemma InMap<K, V>(c: seq<Entry<K, V>>, i: nat)
    requires DistinctKeys(c) && i < |c|
    ensures c[i].key in ToMap(c) && ToMap(c)[c[i].key] == c[i].value
    ensures Index(c, c[i].key) == i
  {
    var j := Index(c, c[i].key);
    assert c[j].key == c[i].key;
  }

  lemma SubsetSize<T>(a: set<T>, b: set<T>)
    requires a <= b
    ensures |a| <= |b|
  {
    assert b == a + (b - a);
  }
}
