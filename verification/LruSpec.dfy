/** The value-level meaning of LegacyLruCache (system/common/lru.h): a sequence of
    key/value entries, most recently used first. */
module LruSpec {
  import opened Entries
  import opened Wrappers

  /** What every reachable cache satisfies. */
  ghost predicate WellFormed<K, V>(c: seq<Entry<K, V>>, capacity: nat) {
    DistinctKeys(c) && |c| <= capacity
  }

  function Without<T>(s: seq<T>, i: nat): seq<T>
    requires i < |s|
  {
    s[..i] + s[i + 1..]
  }

  /** Find, Get and HasKey: a hit moves the entry to the front. */
  function Touch<K(==), V>(c: seq<Entry<K, V>>, k: K): seq<Entry<K, V>> {
    var i := Index(c, k);
    if i < |c| then [c[i]] + Without(c, i) else c
  }

  function Put<K(==), V>(c: seq<Entry<K, V>>, capacity: nat, k: K, v: V): seq<Entry<K, V>> {
    var i := Index(c, k);
    if i < |c| then [Entry(k, v)] + Without(c, i)
    else if |c| == capacity && |c| > 0 then [Entry(k, v)] + c[..|c| - 1]
    else [Entry(k, v)] + c
  }

  /** The node that Put pops from the tail, if any. */
  function Evicted<K(==), V>(c: seq<Entry<K, V>>, capacity: nat, k: K): Option<Entry<K, V>> {
    if !Has(c, k) && |c| == capacity && |c| > 0 then Some(c[|c| - 1]) else None
  }

  function Remove<K(==), V>(c: seq<Entry<K, V>>, k: K): seq<Entry<K, V>> {
    var i := Index(c, k);
    if i < |c| then Without(c, i) else c
  }

  lemma {:induction false} WithoutDistinct<K, V>(c: seq<Entry<K, V>>, i: nat)
    requires DistinctKeys(c) && i < |c|
    ensures DistinctKeys(Without(c, i))
  {
    var w := Without(c, i);
    forall a, b | 0 <= a < b < |w| ensures w[a].key != w[b].key {
      assert w[a] == c[if a < i then a else a + 1];
      assert w[b] == c[if b < i then b else b + 1];
    }
  }

  lemma {:induction false} WithoutKeys<K, V>(c: seq<Entry<K, V>>, i: nat)
    requires DistinctKeys(c) && i < |c|
    ensures ToMap(Without(c, i)) == ToMap(c) - {c[i].key}
  {
    if i == 0 {
      assert Without(c, i) == c[1..];
      assert Index(c[1..], c[0].key) == |c| - 1;
    } else {
      assert c[1..][i - 1] == c[i];
      WithoutKeys(c[1..], i - 1);
      assert Without(c, i)[1..] == Without(c[1..], i - 1);
    }
  }

  lemma ConsKeys<K, V>(e: Entry<K, V>, c: seq<Entry<K, V>>)
    requires DistinctKeys(c) && e.key !in ToMap(c)
    ensures DistinctKeys([e] + c)
    ensures ToMap([e] + c) == ToMap(c)[e.key := e.value]
  {
    var d := [e] + c;
    assert d[1..] == c;
    forall j | 0 <= j < |c| ensures c[j].key != e.key {
      InMap(c, j);
    }
  }

  /** Dropping entry `i` and pushing `e` replaces one binding by another. */
  lemma ReplaceKeys<K, V>(c: seq<Entry<K, V>>, i: nat, e: Entry<K, V>)
    requires DistinctKeys(c) && i < |c|
    requires e.key == c[i].key || e.key !in ToMap(c)
    ensures DistinctKeys([e] + Without(c, i)) && |[e] + Without(c, i)| == |c|
    ensures ToMap([e] + Without(c, i)) == (ToMap(c) - {c[i].key})[e.key := e.value]
  {
    WithoutDistinct(c, i);
    WithoutKeys(c, i);
    ConsKeys(e, Without(c, i));
  }

  /** A lookup never changes the dictionary, only the order. */
  lemma TouchKeeps<K, V>(c: seq<Entry<K, V>>, capacity: nat, k: K)
    requires WellFormed(c, capacity)
    ensures WellFormed(Touch(c, k), capacity)
    ensures ToMap(Touch(c, k)) == ToMap(c)
  {
    var i := Index(c, k);
    if i < |c| {
      ReplaceKeys(c, i, c[i]);
    }
  }

  /** Put stores exactly the new binding and drops exactly the evicted one; it evicts only when a
      new key meets a full cache. */
  lemma PutKeeps<K, V>(c: seq<Entry<K, V>>, capacity: nat, k: K, v: V)
    requires WellFormed(c, capacity) && capacity > 0
    ensures WellFormed(Put(c, capacity, k, v), capacity)
    ensures var e := Evicted(c, capacity, k);
            && (e.Some? <==> k !in ToMap(c) && |c| == capacity)
            && (e.Some? ==> e.value.key in ToMap(c) && ToMap(c)[e.value.key] == e.value.value)
            && ToMap(Put(c, capacity, k, v)) ==
               (if e.Some? then ToMap(c) - {e.value.key} else ToMap(c))[k := v]
  {
    hide DistinctKeys, Without, ToMap;
    var i := Index(c, k);
    if i < |c| {
      PutHit(c, i, v);
    } else if |c| == capacity {
      PutFull(c, Entry(k, v));
    } else {
      ConsKeys(Entry(k, v), c);
    }
  }

  lemma PutFront<K, V>(c: seq<Entry<K, V>>, capacity: nat, k: K, v: V)
    ensures Put(c, capacity, k, v) != [] && Put(c, capacity, k, v)[0] == Entry(k, v)
  {
  }

  lemma PutHit<K, V>(c: seq<Entry<K, V>>, i: nat, v: V)
    requires DistinctKeys(c) && i < |c|
    ensures var e := Entry(c[i].key, v);
            && DistinctKeys([e] + Without(c, i)) && |Without(c, i)| == |c| - 1
            && ToMap([e] + Without(c, i)) == ToMap(c)[e.key := v]
  {
    ReplaceKeys(c, i, Entry(c[i].key, v));
    assert ToMap(c)[c[i].key := v] == (ToMap(c) - {c[i].key})[c[i].key := v];
  }

  lemma PutFull<K, V>(c: seq<Entry<K, V>>, e: Entry<K, V>)
    requires DistinctKeys(c) && |c| > 0 && e.key !in ToMap(c)
    ensures var d := [e] + c[..|c| - 1];
            var last := c[|c| - 1];
            && DistinctKeys(d) && |d| == |c|
            && ToMap(d) == (ToMap(c) - {last.key})[e.key := e.value]
            && last.key in ToMap(c) && ToMap(c)[last.key] == last.value
  {
    assert Without(c, |c| - 1) == c[..|c| - 1];
    ReplaceKeys(c, |c| - 1, e);
    InMap(c, |c| - 1);
  }

  lemma RemoveKeeps<K, V>(c: seq<Entry<K, V>>, capacity: nat, k: K)
    requires WellFormed(c, capacity)
    ensures WellFormed(Remove(c, k), capacity)
    ensures ToMap(Remove(c, k)) == ToMap(c) - {k}
  {
    var i := Index(c, k);
    if i < |c| {
      WithoutDistinct(c, i);
      WithoutKeys(c, i);
    }
  }
}
