/** LeakyBondedQueue (system/common/leaky_bonded_queue.h): a bounded queue that drops its oldest item
    when a new one does not fit. */
module LeakyBondedQueue {
  import opened Wrappers

  /** The last `n` elements of `s`, or all of them when there are fewer. */
  function Suffix<T>(s: seq<T>, n: nat): seq<T> {
    if |s| <= n then s else s[|s| - n..]
  }

  /** `r` is exactly the last min(|s|, n) elements of `s`, in order. */
  ghost predicate IsLast<T>(r: seq<T>, s: seq<T>, n: nat) {
    |r| == (if |s| < n then |s| else n) && r == s[|s| - |r|..]
  }

  lemma SuffixIsLast<T>(s: seq<T>, n: nat)
    ensures IsLast(Suffix(s, n), s, n)
  {
  }

  function Leak<T>(q: seq<T>, capacity: nat, x: T): seq<T>
    requires capacity > 0
  {
    (if |q| + 1 > capacity && |q| > 0 then q[1..] else q) + [x]
  }

  /** Enqueueing commutes with forgetting all but the last `capacity` items. */
  lemma LeakIsSuffix<T>(h: seq<T>, capacity: nat, x: T)
    requires capacity > 0
    ensures Leak(Suffix(h, capacity), capacity, x) == Suffix(h + [x], capacity)
  {
    var n := |h|;
    if n >= capacity {
      assert Suffix(h, capacity)[1..] == h[n - capacity + 1..];
      assert Suffix(h + [x], capacity) == h[n + 1 - capacity..] + [x];
    }
  }

  function LeakAll<T>(capacity: nat, items: seq<T>): seq<T>
    requires capacity > 0
  {
    if items == [] then [] else Leak(LeakAll(capacity, items[..|items| - 1]), capacity, items[|items| - 1])
  }

  /** After any sequence of enqueues the queue holds the most recent items, oldest first. */
  lemma {:induction false} HoldsMostRecent<T>(capacity: nat, items: seq<T>)
    requires capacity > 0
    ensures LeakAll(capacity, items) == Suffix(items, capacity)
  {
    hide Leak, Suffix;
    if items == [] {
      SuffixNone<T>(capacity);
    } else {
      var n := |items| - 1;
      HoldsMostRecent(capacity, items[..n]);
      LeakIsSuffix(items[..n], capacity, items[n]);
      assert items[..n] + [items[n]] == items;
    }
  }

  lemma SuffixNone<T>(n: nat)
    ensures Suffix<T>([], n) == []
  {
  }

  class Queue<T> {
    var items: seq<T>
    const capacity: nat

    ghost predicate Valid()
      reads this
    {
      |items| <= capacity
    }

    constructor (capacity: nat)
      ensures Valid() && items == [] && this.capacity == capacity
    {
      this.capacity := capacity;
      items := [];
    }

    /** The constructor takes any capacity, but with 0 an Enqueue would pop an empty queue. */
    method Enqueue(item: T)
      requires Valid() && capacity > 0
      modifies this
      ensures Valid() && items == Leak(old(items), capacity, item)
    {
      if |items| + 1 > capacity {
        items := items[1..];
      }
      items := items + [item];
    }

    method EnqueueWithPop(item: T) returns (popped: Option<T>)
      requires Valid() && capacity > 0
      modifies this
      ensures Valid() && items == Leak(old(items), capacity, item)
      ensures old(items) + [item] == (if popped.Some? then [popped.value] else []) + items
    {
      popped := None;
      if |items| + 1 > capacity {
        popped := Some(items[0]);
        items := items[1..];
      }
      items := items + [item];
    }

    /** The code takes the front without checking, so the caller must know that there is one. */
    method Dequeue() returns (item: T)
      requires Valid() && items != []
      modifies this
      ensures Valid() && [item] + items == old(items)
    {
      item := items[0];
      items := items[1..];
    }

    method Clear()
      requires Valid()
      modifies this
      ensures Valid() && items == []
    {
      while items != []
        invariant Valid()
        decreases |items|
      {
        items := items[1..];
      }
    }

    method Empty() returns (empty: bool)
      ensures empty <==> items == []
    {
      empty := |items| == 0;
    }
  }
}
