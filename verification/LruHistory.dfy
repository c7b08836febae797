/** What a LegacyLruCache holds after an arbitrary history of calls, stated in terms of when each
    key was last touched rather than in terms of the list. */
module LruHistory {
  import opened Wrappers
  import opened Entries
  import opened LruSpec

  /** Get and HasKey are Find as far as the cache is concerned. */
  datatype Call<+K, +V> = Find(key: K) | Put(key: K, value: V) | Remove(key: K) | Clear

  function Apply<K(==), V>(c: seq<Entry<K, V>>, capacity: nat, call: Call<K, V>): seq<Entry<K, V>> {
    match call
    case Find(k) => LruSpec.Touch(c, k)
    case Put(k, v) => LruSpec.Put(c, capacity, k, v)
    case Remove(k) => LruSpec.Remove(c, k)
    case Clear => []
  }

  function Run<K(==), V>(capacity: nat, h: seq<Call<K, V>>): seq<Entry<K, V>> {
    if h == [] then [] else Apply(Run(capacity, h[..|h| - 1]), capacity, h[|h| - 1])
  }

  /** A key is touched by being inserted, overwritten or found; a miss touches nothing. */
  predicate Touches<K(==), V>(c: seq<Entry<K, V>>, call: Call<K, V>, k: K) {
    match call
    case Find(k') => k' == k && Has(c, k)
    case Put(k', _) => k' == k
    case _ => false
  }

  /** Index of the latest call in `h` that touched `k`, or -1. */
  function LastTouch<K(==), V>(capacity: nat, h: seq<Call<K, V>>, k: K): (t: int)
    ensures -1 <= t < |h|
  {
    if h == [] then -1
    else
      var n := |h| - 1;
      if Touches(Run(capacity, h[..n]), h[n], k) then n else LastTouch(capacity, h[..n], k)
  }

  /** The distinct keys touched after call number `t`. */
  function TouchedSince<K(==), V>(capacity: nat, h: seq<Call<K, V>>, t: int): set<K>
    requires -1 <= t
  {
    if |h| - 1 <= t then {}
    else
      var n := |h| - 1;
      var before := TouchedSince(capacity, h[..n], t);
      match h[n]
      case Find(k) => if Has(Run(capacity, h[..n]), k) then before + {k} else before
      case Put(k, _) => before + {k}
      case _ => before
  }

  lemma {:induction false} TouchedSinceMeaning<K, V>(capacity: nat, h: seq<Call<K, V>>, t: int, k: K)
    requires -1 <= t
    ensures k in TouchedSince(capacity, h, t) <==> LastTouch(capacity, h, k) > t
  {
    if t < |h| - 1 {
      TouchedSinceMeaning(capacity, h[..|h| - 1], t, k);
    }
  }

  /** The list is in strictly decreasing order of last touch. */
  ghost predicate ByRecency<K, V>(capacity: nat, h: seq<Call<K, V>>, c: seq<Entry<K, V>>) {
    && (forall i :: 0 <= i < |c| ==> LastTouch(capacity, h, c[i].key) >= 0)
    && (forall i, j :: 0 <= i < j < |c| ==>
          LastTouch(capacity, h, c[i].key) > LastTouch(capacity, h, c[j].key))
  }

  lemma {:induction false} RunWellFormed<K, V>(capacity: nat, h: seq<Call<K, V>>)
    requires capacity > 0
    ensures WellFormed(Run(capacity, h), capacity)
  {
    if h != [] {
      var c := Run(capacity, h[..|h| - 1]);
      RunWellFormed(capacity, h[..|h| - 1]);
      match h[|h| - 1]
      case Find(k) => TouchKeeps(c, capacity, k);
      case Put(k, v) => PutKeeps(c, capacity, k, v);
      case Remove(k) => RemoveKeeps(c, capacity, k);
      case Clear =>
    }
  }

  /** The old position of the entry that a call leaves at position `i`. */
  ghost function Origin<K, V>(c: seq<Entry<K, V>>, call: Call<K, V>, i: nat): int {
    if call.Clear? then i
    else
      var x := Index(c, call.key);
      match call
      case Find(_) => if x < |c| && 0 < i <= x then i - 1 else i
      case Put(_, _) => if x < |c| && i > x then i else i - 1
      case Remove(_) => if x <= i then i + 1 else i
  }

  /** Position 0 may have just been touched; every other entry was already there, untouched. */
  lemma StepPositions<K, V>(c: seq<Entry<K, V>>, capacity: nat, call: Call<K, V>, i: nat)
    requires WellFormed(c, capacity) && capacity > 0 && i < |Apply(c, capacity, call)|
    ensures var e := Apply(c, capacity, call)[i];
            if Touches(c, call, e.key) then i == 0
            else 0 <= Origin(c, call, i) < |c| && c[Origin(c, call, i)] == e
  {
  }

  /** After any history the list is in strictly decreasing order of last hit or insert. */
  lemma {:induction false} RunByRecency<K, V>(capacity: nat, h: seq<Call<K, V>>)
    requires capacity > 0
    ensures ByRecency(capacity, h, Run(capacity, h))
  {
    if h != [] {
      var n := |h| - 1;
      var c, d := Run(capacity, h[..n]), Run(capacity, h);
      RunByRecency(capacity, h[..n]);
      RunWellFormed(capacity, h[..n]);
      forall i | 0 <= i < |d| ensures LastTouch(capacity, h, d[i].key) >= 0 {
        StepPositions(c, capacity, h[n], i);
      }
      forall i, j | 0 <= i < j < |d|
        ensures LastTouch(capacity, h, d[i].key) > LastTouch(capacity, h, d[j].key)
      {
        StepPositions(c, capacity, h[n], i);
        StepPositions(c, capacity, h[n], j);
      }
    }
  }

  /** The value given by the latest Put of `k` in `h`. */
  function LastPut<K(==), V>(h: seq<Call<K, V>>, k: K): Option<V> {
    if h == [] then None
    else
      var last := h[|h| - 1];
      if last.Put? && last.key == k then Some(last.value) else LastPut(h[..|h| - 1], k)
  }

  lemma {:induction false} RunHoldsLastPut<K, V>(capacity: nat, h: seq<Call<K, V>>, i: nat)
    requires capacity > 0 && i < |Run(capacity, h)|
    ensures LastPut(h, Run(capacity, h)[i].key) == Some(Run(capacity, h)[i].value)
  {
    var n := |h| - 1;
    var c := Run(capacity, h[..n]);
    RunWellFormed(capacity, h[..n]);
    StepPositions(c, capacity, h[n], i);
    if h[n].Find? && i == 0 && Has(c, h[n].key) {
      RunHoldsLastPut(capacity, h[..n], Index(c, h[n].key));
    } else if !h[n].Put? || i > 0 {
      RunHoldsLastPut(capacity, h[..n], Origin(c, h[n], i));
    }
  }

  ghost function KeySet<K, V>(c: seq<Entry<K, V>>): set<K> {
    set i | 0 <= i < |c| :: c[i].key
  }

  lemma {:induction false} KeySetSize<K, V>(c: seq<Entry<K, V>>)
    requires DistinctKeys(c)
    ensures |KeySet(c)| == |c|
  {
    if c != [] {
      var n := |c| - 1;
      KeySetSize(c[..n]);
      assert KeySet(c) == KeySet(c[..n]) + {c[n].key};
    }
  }

  /** Entry `i` has at least the `i` keys before it touched since its own last touch. */
  lemma TouchedSincePosition<K, V>(capacity: nat, h: seq<Call<K, V>>, i: nat)
    requires capacity > 0 && i < |Run(capacity, h)|
    ensures var c := Run(capacity, h);
            var since := TouchedSince(capacity, h, LastTouch(capacity, h, c[i].key));
            KeySet(c[..i]) <= since && |KeySet(c[..i])| == i && c[i].key !in since
  {
    var c := Run(capacity, h);
    var t := LastTouch(capacity, h, c[i].key);
    RunWellFormed(capacity, h);
    RunByRecency(capacity, h);
    forall k | k in KeySet(c[..i]) ensures k in TouchedSince(capacity, h, t) {
      TouchedSinceMeaning(capacity, h, t, k);
    }
    TouchedSinceMeaning(capacity, h, t, c[i].key);
    KeySetSize(c[..i]);
  }

  /** When Put evicts, the victim is the resident key touched longest ago, and at least `capacity`
      distinct other keys have been touched since, the inserted one included. */
  lemma PutEvictsOldest<K, V>(capacity: nat, h: seq<Call<K, V>>, k: K, v: V)
    requires capacity > 0
    requires Evicted(Run(capacity, h), capacity, k).Some?
    ensures var c := Run(capacity, h);
            var victim := Evicted(c, capacity, k).value.key;
            var h' := h + [Put(k, v)];
            && !Has(Run(capacity, h'), victim)
            && (forall i :: 0 <= i < |c| && c[i].key != victim ==>
                  LastTouch(capacity, h, victim) < LastTouch(capacity, h, c[i].key))
            && victim !in TouchedSince(capacity, h', LastTouch(capacity, h', victim))
            && |TouchedSince(capacity, h', LastTouch(capacity, h', victim))| >= capacity
  {
    hide ToMap, LruSpec.Put, LruSpec.WellFormed;
    var c, h' := Run(capacity, h), h + [Put(k, v)];
    var victim := c[|c| - 1].key;
    assert h'[..|h|] == h;
    RunWellFormed(capacity, h);
    RunByRecency(capacity, h);
    PutKeeps(c, capacity, k, v);
    InMap(c, |c| - 1);
    PutTouchesEnough(capacity, h, k, v);
  }

  lemma PutTouchesEnough<K, V>(capacity: nat, h: seq<Call<K, V>>, k: K, v: V)
    requires capacity > 0 && |Run(capacity, h)| == capacity && !Has(Run(capacity, h), k)
    ensures var victim := Run(capacity, h)[capacity - 1].key;
            var h' := h + [Put(k, v)];
            var since := TouchedSince(capacity, h', LastTouch(capacity, h', victim));
            victim !in since && |since| >= capacity
  {
    hide ToMap, Run, LastTouch, TouchedSince;
    var c := Run(capacity, h);
    var victim := c[capacity - 1].key;
    var t := LastTouch(capacity, h, victim);
    AppendPut(capacity, h, k, v, t, victim);
    TouchedSincePosition(capacity, h, capacity - 1);
    var others := KeySet(c[..capacity - 1]);
    assert k !in others;
    SubsetSize(others + {k}, TouchedSince(capacity, h, t) + {k});
  }

  lemma AppendPut<K, V>(capacity: nat, h: seq<Call<K, V>>, k: K, v: V, t: int, x: K)
    requires -1 <= t < |h| && x != k
    ensures var h' := h + [Put(k, v)];
            && TouchedSince(capacity, h', t) == TouchedSince(capacity, h, t) + {k}
            && LastTouch(capacity, h', x) == LastTouch(capacity, h, x)
  {
    assert (h + [Put(k, v)])[..|h|] == h;
  }

  /** A history in which nothing is removed explicitly. */
  ghost predicate NoDeletion<K, V>(h: seq<Call<K, V>>) {
    forall i :: 0 <= i < |h| ==> h[i].Find? || h[i].Put?
  }

  /** Without explicit removal, a key that was touched and is gone left a full cache behind, all of
      it touched more recently. */
  lemma {:induction false} GoneIsOlder<K, V>(capacity: nat, h: seq<Call<K, V>>, k: K)
    requires capacity > 0 && NoDeletion(h)
    requires LastTouch(capacity, h, k) >= 0 && !Has(Run(capacity, h), k)
    ensures var c := Run(capacity, h);
            && |c| == capacity
            && forall i :: 0 <= i < |c| ==> LastTouch(capacity, h, k) < LastTouch(capacity, h, c[i].key)
  {
    hide LruSpec.Put, LruSpec.Touch, ToMap, LruSpec.WellFormed, LruSpec.Evicted;
    var n := |h| - 1;
    var c, d := Run(capacity, h[..n]), Run(capacity, h);
    RunWellFormed(capacity, h[..n]);
    StepResidency(c, capacity, h[n], k);
    forall i | 0 <= i < |d| ensures LastTouch(capacity, h, k) < LastTouch(capacity, h, d[i].key) {
      StepPositions(c, capacity, h[n], i);
      if Has(c, k) {
        PutEvictsOldest(capacity, h[..n], h[n].key, h[n].value);
      } else {
        GoneIsOlder(capacity, h[..n], k);
      }
    }
    if !Has(c, k) {
      GoneIsOlder(capacity, h[..n], k);
    }
  }

  /** Find and Put leave what they touch resident, never shrink the cache, and lose a key only by
      Put evicting it from a full cache. */
  lemma StepResidency<K, V>(c: seq<Entry<K, V>>, capacity: nat, call: Call<K, V>, k: K)
    requires WellFormed(c, capacity) && capacity > 0 && (call.Find? || call.Put?)
    ensures var d := Apply(c, capacity, call);
            && |c| <= |d| <= capacity
            && (Touches(c, call, k) ==> Has(d, k))
            && (Has(c, k) && !Has(d, k) ==>
                  && call.Put? && |d| == capacity
                  && Evicted(c, capacity, call.key).Some?
                  && Evicted(c, capacity, call.key).value.key == k)
  {
    if call.Find? {
      TouchKeeps(c, capacity, call.key);
    } else {
      PutKeeps(c, capacity, call.key, call.value);
    }
  }

  /** Stack distance: without explicit removal, a key is resident exactly when it was touched and
      fewer than `capacity` distinct other keys have been touched since. */
  lemma ResidentIffRecent<K, V>(capacity: nat, h: seq<Call<K, V>>, k: K)
    requires capacity > 0 && NoDeletion(h)
    ensures Has(Run(capacity, h), k) <==>
            var t := LastTouch(capacity, h, k);
            t >= 0 && |TouchedSince(capacity, h, t)| < capacity
  {
    var c := Run(capacity, h);
    var t := LastTouch(capacity, h, k);
    RunWellFormed(capacity, h);
    RunByRecency(capacity, h);
    if Has(c, k) {
      var i := Index(c, k);
      TouchedSincePosition(capacity, h, i);
      TouchedSinceUpTo(capacity, h, i);
    } else if t >= 0 {
      GoneIsOlder(capacity, h, k);
      forall k' | k' in KeySet(c) ensures k' in TouchedSince(capacity, h, t) {
        TouchedSinceMeaning(capacity, h, t, k');
      }
      KeySetSize(c);
      SubsetSize(KeySet(c), TouchedSince(capacity, h, t));
    }
  }

  lemma TouchedIsBefore<K, V>(capacity: nat, h: seq<Call<K, V>>, i: nat, k: K)
    requires capacity > 0 && NoDeletion(h) && i < |Run(capacity, h)|
    requires LastTouch(capacity, h, k) > LastTouch(capacity, h, Run(capacity, h)[i].key)
    ensures k in KeySet(Run(capacity, h)[..i])
  {
    var c := Run(capacity, h);
    RunByRecency(capacity, h);
    if !Has(c, k) {
      GoneIsOlder(capacity, h, k);
      assert false;
    }
    var j := Index(c, k);
    assert j < i && c[..i][j].key == k;
  }

  lemma TouchedSinceUpTo<K, V>(capacity: nat, h: seq<Call<K, V>>, i: nat)
    requires capacity > 0 && NoDeletion(h) && i < |Run(capacity, h)|
    ensures var c := Run(capacity, h);
            TouchedSince(capacity, h, LastTouch(capacity, h, c[i].key)) == KeySet(c[..i])
  {
    var c := Run(capacity, h);
    var t := LastTouch(capacity, h, c[i].key);
    TouchedSincePosition(capacity, h, i);
    forall k | k in TouchedSince(capacity, h, t) ensures k in KeySet(c[..i]) {
      TouchedSinceMeaning(capacity, h, t, k);
      TouchedIsBefore(capacity, h, i, k);
    }
  }
}
