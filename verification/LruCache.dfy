/** LegacyLruCache of system/common/lru.h: a list of nodes plus a map of iterators into it. A list
    iterator is a handle on its node that survives splicing, so it is modelled as the node object;
    the order of the list is a sequence of those objects. */
module LruCache {
  import opened Entries
  import opened Wrappers
  import Spec = LruSpec

  class Node<K, V> {
    const key: K
    var value: V

    constructor (key: K, value: V)
      ensures this.key == key && this.value == value
    {
      this.key := key;
      this.value := value;
    }
  }

  function Position<K, V>(list: seq<Node<K, V>>, n: Node<K, V>): (i: nat)
    requires n in list
    ensures i < |list| && list[i] == n
  {
    if list[0] == n then 0 else 1 + Position(list[1..], n)
  }

  ghost predicate DistinctNodes<K, V>(list: seq<Node<K, V>>) {
    forall i, j :: 0 <= i < j < |list| ==> list[i].key != list[j].key
  }

  /** The iterator map indexes exactly the nodes of the list. */
  ghost predicate Indexes<K, V>(m: map<K, Node<K, V>>, list: seq<Node<K, V>>) {
    && (forall i :: 0 <= i < |list| ==> list[i].key in m && m[list[i].key] == list[i])
    && (forall k :: k in m ==> m[k] in list && m[k].key == k)
  }

  lemma {:induction false} IndexesSize<K, V>(m: map<K, Node<K, V>>, list: seq<Node<K, V>>)
    requires Indexes(m, list) && DistinctNodes(list)
    ensures |m| == |list|
  {
    if list == [] {
      assert m.Keys == {};
    } else {
      var n := |list| - 1;
      var k := list[n].key;
      IndexesErase(m, list, n);
      assert Spec.Without(list, n) == list[..n];
      IndexesSize(m - {k}, list[..n]);
      assert m.Keys == (m - {k}).Keys + {k};
    }
  }

  lemma IndexesErase<K, V>(m: map<K, Node<K, V>>, list: seq<Node<K, V>>, i: nat)
    requires Indexes(m, list) && DistinctNodes(list) && i < |list|
    ensures Indexes(m - {list[i].key}, Spec.Without(list, i)) && DistinctNodes(Spec.Without(list, i))
  {
    var m', w := m - {list[i].key}, Spec.Without(list, i);
    assert forall j :: 0 <= j < |w| ==> w[j] == list[if j < i then j else j + 1];
    forall k | k in m' ensures m'[k] in w && m'[k].key == k {
      var j := Position(list, m[k]);
      assert w[if j < i then j else j - 1] == m[k];
    }
  }

  lemma IndexesInsert<K, V>(m: map<K, Node<K, V>>, list: seq<Node<K, V>>, n: Node<K, V>)
    requires Indexes(m, list) && DistinctNodes(list) && n.key !in m
    ensures Indexes(m[n.key := n], [n] + list) && DistinctNodes([n] + list)
  {
    var l := [n] + list;
    assert forall j :: 0 < j < |l| ==> l[j] == list[j - 1];
    forall k | k in m ensures m[k] in l {
      assert l[Position(list, m[k]) + 1] == m[k];
    }
    assert l[0] == n;
  }

  /** Splicing a node to the front keeps every iterator valid. */
  lemma IndexesSplice<K, V>(m: map<K, Node<K, V>>, list: seq<Node<K, V>>, i: nat)
    requires Indexes(m, list) && DistinctNodes(list) && i < |list|
    ensures var l := [list[i]] + Spec.Without(list, i);
            Indexes(m, l) && DistinctNodes(l) && |l| == |list| && forall n :: n in l ==> n in list
  {
    var n, w := list[i], Spec.Without(list, i);
    IndexesErase(m, list, i);
    IndexesInsert(m - {n.key}, w, n);
    assert (m - {n.key})[n.key := n] == m;
  }

  /** The recency-ordered entries that a list of nodes spells out. */
  ghost function View<K, V>(list: seq<Node<K, V>>): (c: seq<Entry<K, V>>)
    reads list
    ensures |c| == |list|
    ensures forall i :: 0 <= i < |c| ==> c[i].key == list[i].key && c[i].value == list[i].value
  {
    if list == [] then []
    else [Entry(list[0].key, list[0].value)] + View(list[1..])
  }

  lemma ViewWithout<K, V>(list: seq<Node<K, V>>, i: nat)
    requires i < |list|
    ensures View(Spec.Without(list, i)) == Spec.Without(View(list), i)
  {
    hide View;
    var c, d := View(Spec.Without(list, i)), Spec.Without(View(list), i);
    forall j | 0 <= j < |d| ensures c[j] == d[j] {
      assert Spec.Without(list, i)[j] == list[if j < i then j else j + 1];
      assert d[j] == View(list)[if j < i then j else j + 1];
    }
  }

  lemma ViewCons<K, V>(n: Node<K, V>, list: seq<Node<K, V>>)
    ensures View([n] + list) == [Entry(n.key, n.value)] + View(list)
  {
    assert ([n] + list)[1..] == list;
  }

  class LegacyLruCache<K(==), V> {
    ghost var Contents: seq<Entry<K, V>>
    ghost var Repr: set<object>
    var nodeList: seq<Node<K, V>>
    var lruMap: map<K, Node<K, V>>
    const capacity: nat

    ghost predicate Valid()
      reads this, Repr
      ensures Valid() ==> this in Repr
    {
      && this in Repr
      && (forall i :: 0 <= i < |nodeList| ==> nodeList[i] in Repr)
      && capacity > 0
      && |nodeList| <= capacity
      && DistinctNodes(nodeList)
      && Indexes(lruMap, nodeList)
      && Contents == View(nodeList)
    }

    constructor (capacity: nat)
      requires capacity > 0
      ensures Valid() && fresh(Repr) && this.capacity == capacity && Contents == []
    {
      this.capacity := capacity;
      nodeList, lruMap := [], map[];
      Contents, Repr := [], {this};
    }

    method Clear()
      requires Valid()
      modifies this
      ensures Valid() && Repr == old(Repr) && Contents == []
    {
      lruMap := map[];
      nodeList := [];
      Contents := [];
    }

    /** The iterator stored for a key is the node at that key's position in the contents. */
    lemma MapIndex(k: K)
      requires Valid()
      ensures k in lruMap <==> Has(Contents, k)
      ensures k in lruMap ==> Index(Contents, k) == Position(nodeList, lruMap[k])
    {
      var i := Index(Contents, k);
      assert i < |nodeList| ==> nodeList[i].key == k;
      if k in lruMap {
        assert Contents[Position(nodeList, lruMap[k])].key == k;
      }
    }

    method Find(key: K) returns (node: Node?<K, V>)
      requires Valid()
      modifies this
      ensures Valid() && Repr == old(Repr)
      ensures Contents == Spec.Touch(old(Contents), key)
      ensures (node == null) == !Has(old(Contents), key)
      ensures node == null ==> key !in lruMap
      ensures node != null ==> |nodeList| > 0 && nodeList[0] == node && node.key == key
    {
      hide Indexes, DistinctNodes, View, ToMap, Index, Position, Spec.Without;
      MapIndex(key);
      if key !in lruMap {
        return null;
      }
      node := lruMap[key];
      var i := Position(nodeList, node);
      IndexesSplice(lruMap, nodeList, i);
      ViewWithout(nodeList, i);
      ViewCons(node, Spec.Without(nodeList, i));
      nodeList := [node] + Spec.Without(nodeList, i);
      Contents := View(nodeList);
    }

    method Get(key: K) returns (value: Option<V>)
      requires Valid()
      modifies this
      ensures Valid() && Repr == old(Repr)
      ensures Contents == Spec.Touch(old(Contents), key)
      ensures value == Lookup(old(Contents), key)
    {
      var node := Find(key);
      value := if node == null then None else Some(node.value);
    }

    method HasKey(key: K) returns (found: bool)
      requires Valid()
      modifies this
      ensures Valid() && Repr == old(Repr)
      ensures Contents == Spec.Touch(old(Contents), key)
      ensures found == Has(old(Contents), key)
    {
      var node := Find(key);
      found := node != null;
    }

    method PopBack() returns (popped: Entry<K, V>)
      requires Valid() && |Contents| > 0
      modifies this
      ensures Valid() && Repr == old(Repr)
      ensures Contents == old(Contents)[..|old(Contents)| - 1]
      ensures popped == old(Contents)[|old(Contents)| - 1]
      ensures lruMap.Keys <= old(lruMap.Keys)
    {
      hide Indexes, DistinctNodes, View;
      var last := |nodeList| - 1;
      IndexesErase(lruMap, nodeList, last);
      ViewWithout(nodeList, last);
      popped := Entry(nodeList[last].key, nodeList[last].value);
      lruMap := lruMap - {nodeList[last].key};
      nodeList := Spec.Without(nodeList, last);
      Contents := Contents[..last];
    }

    method PushFront(key: K, value: V)
      requires Valid() && |Contents| < capacity && key !in lruMap
      modifies this
      ensures Valid() && fresh(Repr - old(Repr))
      ensures Contents == [Entry(key, value)] + old(Contents)
    {
      hide Indexes, DistinctNodes, View;
      var head := new Node(key, value);
      IndexesInsert(lruMap, nodeList, head);
      ViewCons(head, nodeList);
      nodeList := [head] + nodeList;
      lruMap := lruMap[key := head];
      Contents := [Entry(key, value)] + Contents;
      Repr := Repr + {head};
    }

    /** Writing through the node that Find returned. */
    method SetFront(value: V)
      requires Valid() && |Contents| > 0
      modifies this, nodeList[0]
      ensures Valid() && Repr == old(Repr)
      ensures Contents == [Entry(old(Contents)[0].key, value)] + old(Contents)[1..]
    {
      hide Indexes;
      var head := nodeList[0];
      assert head !in nodeList[1..];
      head.value := value;
      Contents := [Entry(head.key, value)] + Contents[1..];
      assert View(nodeList[1..]) == old(View(nodeList[1..]));
    }

    /** The miss path of Put. */
    method Insert(key: K, value: V) returns (evicted: Option<Entry<K, V>>)
      requires Valid() && key !in lruMap
      modifies this
      ensures Valid() && fresh(Repr - old(Repr))
      ensures var c := old(Contents);
              if |c| == capacity
              then Contents == [Entry(key, value)] + c[..|c| - 1] && evicted == Some(c[|c| - 1])
              else Contents == [Entry(key, value)] + c && evicted == None
    {
      hide Indexes, DistinctNodes, View;
      evicted := None;
      IndexesSize(lruMap, nodeList);
      if |lruMap| == capacity {
        var tail := PopBack();
        evicted := Some(tail);
      }
      PushFront(key, value);
    }

    method Put(key: K, value: V) returns (evicted: Option<Entry<K, V>>)
      requires Valid()
      modifies Repr
      ensures Valid() && fresh(Repr - old(Repr))
      ensures Contents == Spec.Put(old(Contents), capacity, key, value)
      ensures evicted == Spec.Evicted(old(Contents), capacity, key)
    {
      hide Indexes, DistinctNodes, View;
      var node := Find(key);
      if node == null {
        evicted := Insert(key, value);
      } else {
        assert Contents[1..] == Spec.Without(old(Contents), Index(old(Contents), key));
        SetFront(value);
        evicted := None;
      }
    }

    method Remove(key: K) returns (removed: bool)
      requires Valid()
      modifies this
      ensures Valid() && Repr == old(Repr)
      ensures Contents == Spec.Remove(old(Contents), key)
      ensures removed == Has(old(Contents), key)
    {
      hide Indexes, DistinctNodes, View;
      MapIndex(key);
      if key !in lruMap {
        return false;
      }
      var i := Position(nodeList, lruMap[key]);
      IndexesErase(lruMap, nodeList, i);
      ViewWithout(nodeList, i);
      nodeList := Spec.Without(nodeList, i);
      lruMap := lruMap - {key};
      Contents := View(nodeList);
      removed := true;
    }

    method Size() returns (size: nat)
      requires Valid()
      ensures size == |Contents| <= capacity
    {
      IndexesSize(lruMap, nodeList);
      size := |lruMap|;
    }
  }
}
