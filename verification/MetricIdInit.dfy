/** What Init of MetricIdAllocator leaves behind, for every map, every order of visiting it and every
    state it may be called in. */
module MetricIdInit {
  import opened Entries
  import opened LruSpec
  import opened MetricIdSpec
  import opened MetricIdProofs
  import opened Wrappers

  lemma {:induction false} ToMapSnoc<K, V>(c: seq<Entry<K, V>>, e: Entry<K, V>)
    requires e.key !in ToMap(c)
    ensures ToMap(c + [e]) == ToMap(c)[e.key := e.value]
  {
    if c != [] {
      ToMapSnoc(c[1..], e);
      assert (c + [e])[1..] == c[1..] + [e];
    } else {
      assert (c + [e])[1..] == [];
    }
  }

  /** The map fits into the paired cache beside the devices saved since Close, so Init evicts none. */
  ghost predicate Fits(s: State, order: seq<Entry<RawAddress, int>>) {
    |ToMap(s.paired).Keys + ToMap(order).Keys| <= MAX_PAIRED
  }

  ghost predicate Loadable(s: State, order: seq<Entry<RawAddress, int>>) {
    && WellFormed(s.paired, MAX_PAIRED)
    && DistinctKeys(order)
    && Fits(s, order)
    && forall i :: 0 <= i < |order| ==> IsValidId(order[i].value)
  }

  lemma PrefixMap(order: seq<Entry<RawAddress, int>>, n: nat)
    requires DistinctKeys(order) && n < |order|
    ensures order[n].key !in ToMap(order[..n]) && order[n].key in ToMap(order)
    ensures ToMap(order[..n + 1]) == ToMap(order[..n])[order[n].key := order[n].value]
    ensures ToMap(order[..n]).Keys <= ToMap(order).Keys
  {
    hide ToMap;
    var front := order[..n];
    assert Index(front, order[n].key) == n;
    ToMapSnoc(front, order[n]);
    assert front + [order[n]] == order[..n + 1];
    InMap(order, n);
    forall k | k in ToMap(front) ensures k in ToMap(order) {
      InMap(order, Index(front, k));
    }
  }

  lemma SmallerUnion<T>(a: set<T>, b: set<T>, c: set<T>)
    requires b <= c
    ensures |a + b| <= |a + c|
  {
    SubsetSize(a + b, a + c);
  }

  lemma RoomForOne<T>(a: set<T>, b: set<T>, c: set<T>, x: T)
    requires b <= c && x in c && x !in a + b
    ensures |a + b| < |a + c|
  {
    assert x in a + c;
    SubsetSize(a + b + {x}, a + c);
  }

  lemma LoadablePrefix(s: State, order: seq<Entry<RawAddress, int>>, n: nat)
    requires Loadable(s, order) && n < |order|
    ensures Loadable(s, order[..n])
  {
    hide ToMap, WellFormed;
    PrefixMap(order, n);
    SmallerUnion(ToMap(s.paired).Keys, ToMap(order[..n]).Keys, ToMap(order).Keys);
  }

  lemma {:induction false} LoadMaps(s: State, order: seq<Entry<RawAddress, int>>)
    requires Loadable(s, order)
    ensures var t := Load(s, order);
            && WellFormed(t.paired, MAX_PAIRED)
            && ToMap(t.paired) == ToMap(s.paired) + ToMap(order)
            && t.calls == [] && t.temporary == s.temporary
            && MIN_ID <= t.next <= MAX_ID + 1
  {
    hide LoadEntry, WellFormed, ToMap;
    if order == [] {
      NothingLoaded(s);
    } else {
      var n := |order| - 1;
      LoadablePrefix(s, order, n);
      LoadMaps(s, order[..n]);
      assert order[..n + 1] == order;
      LoadStep(s, Load(s, order[..n]), order, n);
    }
  }

  lemma NothingLoaded(s: State)
    ensures ToMap(s.paired) + ToMap<RawAddress, int>([]) == ToMap(s.paired)
  {
  }

  /** `t` is the state with the first `i` entries loaded. */
  lemma LoadStep(s: State, t: State, order: seq<Entry<RawAddress, int>>, i: nat)
    requires Loadable(s, order) && i < |order|
    requires WellFormed(t.paired, MAX_PAIRED) && ToMap(t.paired) == ToMap(s.paired) + ToMap(order[..i])
    ensures var e := order[i];
            && Evicted(t.paired, MAX_PAIRED, e.key) == None
            && WellFormed(LoadEntry(t, e).paired, MAX_PAIRED)
            && ToMap(LoadEntry(t, e).paired) == ToMap(s.paired) + ToMap(order[..i + 1])
            && LoadEntry(t, e).calls == t.calls && LoadEntry(t, e).temporary == t.temporary
            && LoadEntry(t, e).next == if e.value + 1 > t.next then e.value + 1 else t.next
  {
    hide LruSpec.Put, LruSpec.Evicted, ToMap;
    var e := order[i];
    PrefixMap(order, i);
    PutKeeps(t.paired, MAX_PAIRED, e.key, e.value);
    ToMapSize(t.paired);
    var saved, front := ToMap(s.paired), ToMap(order[..i]);
    assert (saved + front).Keys == saved.Keys + front.Keys;
    if e.key !in saved + front {
      RoomForOne(saved.Keys, front.Keys, ToMap(order).Keys, e.key);
    }
    assert t.calls + [] == t.calls;
    UnionUpdate(saved, front, e.key, e.value);
  }

  lemma UnionUpdate<K, V>(m: map<K, V>, n: map<K, V>, k: K, v: V)
    ensures (m + n)[k := v] == m + n[k := v]
  {
  }

  /** Loading one entry, whatever the cache holds: the device is the most recent one under its id, which
      is in use; the device that leaves the cache, if any, is reported under its id, and no other. */
  lemma LoadEntryActs(t: State, e: Entry<RawAddress, int>)
    requires WellFormed(t.paired, MAX_PAIRED)
    ensures var t' := LoadEntry(t, e);
            && t'.paired != [] && t'.paired[0] == e && e.value in t'.ids
            && t.calls <= t'.calls
            && forall c :: c in t'.calls[|t.calls|..] <==>
                 && c.Forgotten? && c.address in ToMap(t.paired) && c.address !in ToMap(t'.paired)
                 && c.id == ToMap(t.paired)[c.address]
  {
    hide Put, Evicted, ToMap;
    PutKeeps(t.paired, MAX_PAIRED, e.key, e.value);
    PutFront(t.paired, MAX_PAIRED, e.key, e.value);
    var gone := Evicted(t.paired, MAX_PAIRED, e.key);
    assert LoadEntry(t, e).calls[|t.calls|..] ==
           if gone.Some? then [Forgotten(gone.value.key, gone.value.value)] else [];
  }

  /** Loading a map that fits evicts nothing; before the first Init every map does, so the forget
      callback is never called before it is set. */
  lemma LoadEvictsNothing(s: State, order: seq<Entry<RawAddress, int>>, i: nat)
    requires Loadable(s, order) && i < |order|
    ensures Evicted(Load(s, order[..i]).paired, MAX_PAIRED, order[i].key) == None
  {
    LoadablePrefix(s, order, i);
    LoadMaps(s, order[..i]);
    LoadStep(s, Load(s, order[..i]), order, i);
  }

  lemma FirstMapFits(s: State, order: seq<Entry<RawAddress, int>>)
    requires s.paired == [] && DistinctKeys(order) && |order| <= MAX_PAIRED
    ensures WellFormed(s.paired, MAX_PAIRED) && Fits(s, order)
  {
    ToMapSize(order);
    assert ToMap(s.paired).Keys + ToMap(order).Keys == ToMap(order).Keys;
  }

  lemma FirstLoadEvictsNothing(s: State, order: seq<Entry<RawAddress, int>>, i: nat)
    requires DistinctKeys(order) && i < |order| <= MAX_PAIRED
    requires forall j :: 0 <= j <= i ==> IsValidId(order[j].value)
    ensures s.paired == [] ==> Evicted(Load(s, order[..i]).paired, MAX_PAIRED, order[i].key) == None
  {
    hide ToMap, Load;
    if s.paired == [] {
      var front := order[..i + 1];
      FirstMapFits(s, front);
      LoadEvictsNothing(s, front, i);
      assert front[..i] == order[..i];
    }
  }

  lemma LoadNone(s: State)
    ensures Load(s, []) == s.(next := MIN_ID, calls := [])
  {
  }

  lemma LoadNext(s: State, order: seq<Entry<RawAddress, int>>, i: nat)
    requires i < |order|
    ensures Load(s, order[..i + 1]) == LoadEntry(Load(s, order[..i]), order[i])
  {
    assert order[..i + 1][..i] == order[..i];
  }

  lemma {:induction false} LoadIds(s: State, order: seq<Entry<RawAddress, int>>, id: int)
    requires Loadable(s, order)
    ensures id in Load(s, order).ids <==>
            id in s.ids || exists i :: 0 <= i < |order| && order[i].value == id
  {
    hide Loadable, Put, Evicted, ToMap;
    if order != [] {
      var n := |order| - 1;
      LoadablePrefix(s, order, n);
      LoadEvictsNothing(s, order, n);
      LoadIds(s, order[..n], id);
      assert Load(s, order).ids == Load(s, order[..n]).ids + {order[n].value};
      if i :| 0 <= i < |order| && order[i].value == id {
        assert i < n ==> order[..n][i].value == id;
      }
    }
  }

  lemma InitMaps(s: State, order: seq<Entry<RawAddress, int>>)
    requires Loadable(s, order) && WellFormed(s.temporary, MAX_UNPAIRED)
    ensures var t := Init(s, order);
            && Caches(t) && t.temporary == s.temporary && t.initialized
            && ToMap(t.paired) == ToMap(s.paired) + ToMap(order)
            && t.ids == s.ids + ToMap(order).Values
            && t.base == ToMap(order) && t.calls == []
            && IsValidId(t.next)
  {
    hide Load, ToMap;
    LoadMaps(s, order);
    var t := Init(s, order);
    forall id ensures id in t.ids <==> id in s.ids + ToMap(order).Values {
      LoadIds(s, order, id);
      ValueInMap(order, id);
    }
  }

  lemma ValueInMap(c: seq<Entry<RawAddress, int>>, id: int)
    requires DistinctKeys(c)
    ensures id in ToMap(c).Values <==> exists i :: 0 <= i < |c| && c[i].value == id
  {
    if id in ToMap(c).Values {
      var a :| a in ToMap(c) && ToMap(c)[a] == id;
      assert c[Index(c, a)].value == id;
    }
    forall i | 0 <= i < |c| && c[i].value == id ensures id in ToMap(c).Values {
      InMap(c, i);
    }
  }

  /** What Init's caller must check, about the devices known before, the map, and the two together with
      the map taking precedence: no stored device has a temporary id, no two devices share an id, and
      no id that was in use is left without a device. */
  ghost predicate InitSafe(s: State, order: seq<Entry<RawAddress, int>>) {
    var known, stored := KnownMap(s), ToMap(order);
    && stored.Keys !! ToMap(s.temporary).Keys
    && Injective(known + stored)
    && known.Values <= (known + stored).Values
  }

  lemma UnionValues<K, V>(m: map<K, V>, n: map<K, V>)
    ensures n.Values <= (m + n).Values <= m.Values + n.Values
  {
    forall v | v in n.Values ensures v in (m + n).Values {
      var k :| k in n && n[k] == v;
      assert (m + n)[k] == v;
    }
  }

  lemma InvParts(s: State)
    requires Inv(s)
    ensures WellFormed(s.paired, MAX_PAIRED) && WellFormed(s.temporary, MAX_UNPAIRED)
    ensures ToMap(s.paired).Keys !! ToMap(s.temporary).Keys && s.ids == KnownMap(s).Values
  {
  }

  lemma InitKnown(s: State, order: seq<Entry<RawAddress, int>>)
    requires Loadable(s, order) && Inv(s)
    ensures var t := Init(s, order);
            && KnownMap(t) == KnownMap(s) + ToMap(order)
            && t.ids == KnownMap(s).Values + ToMap(order).Values
            && (ToMap(t.paired).Keys !! ToMap(t.temporary).Keys <==>
                ToMap(order).Keys !! ToMap(s.temporary).Keys)
  {
    hide Init, ToMap, Inv, Loadable;
    InvParts(s);
    InitMaps(s, order);
    UnionAgain(ToMap(s.temporary), ToMap(s.paired), ToMap(order));
  }

  lemma UnionAgain<K, V>(m: map<K, V>, n: map<K, V>, o: map<K, V>)
    requires n.Keys !! m.Keys
    ensures m + (n + o) == (m + n) + o
    ensures (n + o).Keys !! m.Keys <==> o.Keys !! m.Keys
  {
    assert (n + o).Keys == n.Keys + o.Keys;
  }

  lemma LoadedIdsValid(s: State, order: seq<Entry<RawAddress, int>>)
    requires Loadable(s, order) && Inv(s)
    ensures forall id :: id in Init(s, order).ids ==> IsValidId(id)
  {
    hide Init, ToMap, Injective;
    InitMaps(s, order);
    forall id | id in ToMap(order).Values ensures IsValidId(id) {
      ValueInMap(order, id);
    }
  }

  /** Init rejects no map for its ids. Given one that fits, the allocator's invariant holds afterwards
      exactly when the map is safe, and storage agrees with the paired cache exactly when every
      device saved since Close is in the map. */
  lemma InitKeepsIff(s: State, order: seq<Entry<RawAddress, int>>)
    requires Inv(s) && DistinctKeys(order) && OutcomeOfInit(s, order) == Ready && Fits(s, order)
    ensures Inv(Init(s, order)) <==> InitSafe(s, order)
    ensures StorageAgrees(Init(s, order)) <==> ToMap(s.paired).Keys <= ToMap(order).Keys
  {
    hide Init, ToMap, Injective, WellFormed, Fits, Replay;
    InitMaps(s, order);
    InitKnown(s, order);
    LoadedIdsValid(s, order);
    UnionValues(KnownMap(s), ToMap(order));
    ReplayNone(ToMap(order));
    UnionIsRight(ToMap(s.paired), ToMap(order));
  }

  lemma ReplayNone(m: map<RawAddress, int>)
    ensures Replay(m, []) == m
  {
  }

  lemma UnionIsRight<K, V>(m: map<K, V>, n: map<K, V>)
    ensures n == m + n <==> m.Keys <= n.Keys
  {
    if n == m + n {
      forall k | k in m ensures k in n {
        assert k in m + n;
      }
    }
  }

  // ----- the cursor

  lemma {:induction false} LoadCursor(s: State, order: seq<Entry<RawAddress, int>>)
    ensures var next := Load(s, order).next;
            && next >= MIN_ID
            && (forall i :: 0 <= i < |order| ==> order[i].value < next)
            && (next == MIN_ID || exists i :: 0 <= i < |order| && next == order[i].value + 1)
  {
    hide Put, Evicted;
    if order != [] {
      var n := |order| - 1;
      LoadCursor(s, order[..n]);
      var before, next := Load(s, order[..n]).next, Load(s, order).next;
      forall i | 0 <= i < |order| ensures order[i].value < next {
        assert i < n ==> order[..n][i] == order[i];
      }
      if next == before && before != MIN_ID {
        var i :| 0 <= i < n && before == order[..n][i].value + 1;
        assert next == order[i].value + 1;
      } else if next != before {
        assert next == order[n].value + 1;
      }
    }
  }

  /** Init leaves the cursor just above the largest stored id, or at the smallest id when the largest
      possible one is stored or nothing is. */
  lemma InitCursor(s: State, order: seq<Entry<RawAddress, int>>)
    requires forall i :: 0 <= i < |order| ==> IsValidId(order[i].value)
    ensures var next := Init(s, order).next;
            || ((forall i :: 0 <= i < |order| ==> order[i].value < next) &&
                exists i :: 0 <= i < |order| && next == order[i].value + 1)
            || (next == MIN_ID && exists i :: 0 <= i < |order| && order[i].value == MAX_ID)
            || (next == MIN_ID && order == [])
  {
    LoadCursor(s, order);
    assert order != [] ==> IsValidId(order[0].value);
    if Load(s, order).next > MAX_ID {
      var i :| 0 <= i < |order| && Load(s, order).next == order[i].value + 1;
      assert IsValidId(order[i].value);
    }
  }
}
