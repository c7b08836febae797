/** Proofs about MetricIdAllocator: every call keeps the invariant and the agreement with external
    storage, ids are stable, and a restart from storage restores the paired ids. */
module MetricIdProofs {
  import opened Wrappers
  import opened Entries
  import opened LruSpec
  import opened MetricIdSpec

  // ----- injective maps and their values

  lemma ValuesRemove<K, V>(m: map<K, V>, k: K)
    requires Injective(m) && k in m
    ensures Injective(m - {k}) && (m - {k}).Values == m.Values - {m[k]}
  {
    var m' := m - {k};
    forall v | v in m.Values - {m[k]} ensures v in m'.Values {
      var j :| j in m && m[j] == v;
      assert j in m' && m'[j] == v;
    }
  }

  lemma ValuesAdd<K, V>(m: map<K, V>, k: K, v: V)
    requires Injective(m) && k !in m && v !in m.Values
    ensures Injective(m[k := v]) && m[k := v].Values == m.Values + {v}
  {
    var m' := m[k := v];
    forall w | w in m.Values ensures w in m'.Values {
      var j :| j in m && m[j] == w;
      assert j in m' && m'[j] == w;
    }
    assert k in m' && m'[k] == v;
  }

  lemma KnownIsMap(s: State, a: RawAddress)
    ensures Known(s, a) == if a in KnownMap(s) then Some(KnownMap(s)[a]) else None
  {
  }

  // ----- AllocateId

  lemma AllocateNewKnown(s: State, a: RawAddress, id: int)
    requires Inv(s) && !Has(s.paired, a) && !Has(s.temporary, a)
    ensures var e := Evicted(s.temporary, MAX_UNPAIRED, a);
            && Caches(AllocateNew(s, a, id))
            && ToMap(s.paired).Keys !! ToMap(AllocateNew(s, a, id).temporary).Keys
            && (e.Some? ==> e.value.key in KnownMap(s) && KnownMap(s)[e.value.key] == e.value.value)
            && KnownMap(AllocateNew(s, a, id)) ==
               (if e.Some? then KnownMap(s) - {e.value.key} else KnownMap(s))[a := id]
  {
    hide Put, Evicted, ToMap, WellFormed;
    PutKeeps(s.temporary, MAX_UNPAIRED, a, id);
  }

  lemma AllocateNewKeeps(s: State, a: RawAddress, id: int)
    requires Inv(s) && !Has(s.paired, a) && !Has(s.temporary, a)
    requires IsFirstFree(s.ids, s.next, id)
    ensures Inv(AllocateNew(s, a, id)) && IsValidId(id)
  {
    AllocateNewKnown(s, a, id);
    var e := Evicted(s.temporary, MAX_UNPAIRED, a);
    var m := if e.Some? then KnownMap(s) - {e.value.key} else KnownMap(s);
    if e.Some? {
      ValuesRemove(KnownMap(s), e.value.key);
    }
    assert a !in m;
    ValuesAdd(m, a, id);
  }

  /** Allocation keeps the invariant, tells storage nothing, and leaves the device known under the
      returned id, which is in range and, for a new device, was in use by nobody. */
  lemma AllocateKeeps(s: State, a: RawAddress, s': State, id: int)
    requires Inv(s) && AllocateId(s, a, s', id)
    ensures Inv(s') && (StorageAgrees(s) ==> StorageAgrees(s'))
    ensures IsValidId(id) && Known(s', a) == Some(id)
    ensures Known(s, a) == None ==> forall b :: Known(s, b) != Some(id)
  {
    if Has(s.paired, a) {
      TouchKeeps(s.paired, MAX_PAIRED, a);
      assert KnownMap(s') == KnownMap(s);
      assert id in s.ids;
    } else if Has(s.temporary, a) {
      TouchKeeps(s.temporary, MAX_UNPAIRED, a);
      assert KnownMap(s') == KnownMap(s);
      assert id in s.ids;
    } else {
      AllocateNewKeeps(s, a, id);
      AllocateNewKnown(s, a, id);
      forall b ensures Known(s, b) != Some(id) {
        KnownIsMap(s, b);
      }
    }
    KnownIsMap(s', a);
  }

  /** The cursor moves to the place after an id that was given out, which is the smallest id after the
      largest, and stays where it was otherwise; either way the device becomes the most recent one. */
  lemma AllocateMoves(s: State, a: RawAddress, s': State, id: int)
    requires AllocateId(s, a, s', id)
    ensures Known(s, a) == None ==> s'.next == (if id == MAX_ID then MIN_ID else id + 1)
    ensures Known(s, a) != None ==> s'.next == s.next && s'.ids == s.ids
    ensures if a in ToMap(s.paired) then s'.paired != [] && s'.paired[0].key == a
            else s'.temporary != [] && s'.temporary[0].key == a
  {
    hide ToMap;
    if IsFirstFree(s.ids, s.next, id) {
      var d: nat :| d < ID_SPACE && AllUsed(s.ids, s.next, d) && id == Probe(s.next, d);
      assert IsValidId(id);
    }
  }

  // ----- SaveDevice

  lemma SaveKnownMaps(s: State, a: RawAddress, id: int, ok: bool)
    requires Inv(s) && s.callbacks && !Has(s.paired, a) && Lookup(s.temporary, a) == Some(id)
    ensures var e := Evicted(s.paired, MAX_PAIRED, a);
            var t := SaveKnown(s, a, id, ok);
            && Caches(t)
            && ToMap(t.temporary) == ToMap(s.temporary) - {a}
            && (e.Some? ==> e.value.key in ToMap(s.paired) && ToMap(s.paired)[e.value.key] == e.value.value)
            && ToMap(t.paired) == (if e.Some? then ToMap(s.paired) - {e.value.key} else ToMap(s.paired))[a := id]
  {
    PutKeeps(s.paired, MAX_PAIRED, a, id);
    TouchKeeps(s.temporary, MAX_UNPAIRED, a);
    RemoveKeeps(Touch(s.temporary, a), MAX_UNPAIRED, a);
  }

  lemma SaveKnownKeeps(s: State, a: RawAddress, id: int, ok: bool)
    requires Inv(s) && s.callbacks && !Has(s.paired, a) && Lookup(s.temporary, a) == Some(id)
    ensures var e := Evicted(s.paired, MAX_PAIRED, a);
            && Inv(SaveKnown(s, a, id, ok))
            && (e.Some? ==> e.value.key in KnownMap(s))
            && KnownMap(SaveKnown(s, a, id, ok)) ==
               if e.Some? then KnownMap(s) - {e.value.key} else KnownMap(s)
  {
    hide WellFormed, ToMap, Put, Remove, Touch, Evicted;
    SaveKnownMaps(s, a, id, ok);
    var e := Evicted(s.paired, MAX_PAIRED, a);
    if e.Some? {
      ValuesRemove(KnownMap(s), e.value.key);
    }
    var t := SaveKnown(s, a, id, ok);
    assert KnownMap(t) == if e.Some? then KnownMap(s) - {e.value.key} else KnownMap(s);
  }

  lemma SaveKnownStorage(s: State, a: RawAddress, id: int, ok: bool)
    requires Inv(s) && s.callbacks && !Has(s.paired, a) && Lookup(s.temporary, a) == Some(id)
    requires StorageAgrees(s)
    ensures StorageAgrees(SaveKnown(s, a, id, ok))
  {
    SaveKnownMaps(s, a, id, ok);
    var e := Evicted(s.paired, MAX_PAIRED, a);
    var calls := s.calls;
    if e.Some? {
      ReplayAppend(s.base, calls, Forgotten(e.value.key, e.value.value));
      calls := calls + [Forgotten(e.value.key, e.value.value)];
    } else {
      assert s.calls + [] == s.calls;
    }
    ReplayAppend(s.base, calls, Saved(a, id, ok));
  }

  /** Saving keeps the invariant and the agreement with storage, even when it evicts and even when
      the save callback answers false; a known device keeps its id. */
  lemma SaveKeeps(s: State, a: RawAddress, ok: bool)
    requires Inv(s) && (s.callbacks || !Has(s.temporary, a))
    ensures var (s', r) := SaveDevice(s, a, ok);
            && Inv(s') && (StorageAgrees(s) ==> StorageAgrees(s'))
            && Known(s', a) == Known(s, a)
            && (r <==> a in ToMap(s.paired) || (a in ToMap(s.temporary) && ok))
  {
    hide Put, Remove, Touch, Evicted, WellFormed, Injective, Replay, SaveKnown;
    if Has(s.paired, a) {
      TouchKeeps(s.paired, MAX_PAIRED, a);
      var s' := SaveDevice(s, a, ok).0;
      assert KnownMap(s') == KnownMap(s);
      KnownIsMap(s, a);
      KnownIsMap(s', a);
    } else if Lookup(s.temporary, a).Some? {
      var id := Lookup(s.temporary, a).value;
      SaveKnownMaps(s, a, id, ok);
      SaveKnownKeeps(s, a, id, ok);
      if StorageAgrees(s) {
        SaveKnownStorage(s, a, id, ok);
      }
    }
  }

  /** A known device ends up paired, as the most recent one. */
  lemma SavePairs(s: State, a: RawAddress, ok: bool)
    ensures var s' := SaveDevice(s, a, ok).0;
            a in KnownMap(s) ==> s'.paired != [] && s'.paired[0].key == a && a in ToMap(s'.paired)
    ensures a !in KnownMap(s) ==> SaveDevice(s, a, ok) == (s, false)
  {
    var s' := SaveDevice(s, a, ok).0;
    assert a in KnownMap(s) ==> Index(s'.paired, a) == 0;
  }

  /** The callbacks that saving makes: none for a device that is paired or unknown; otherwise one for
      the device that leaves the paired cache, if any, under its id, and then one for the device saved,
      with the answer it got. */
  lemma SaveReports(s: State, a: RawAddress, ok: bool)
    requires Inv(s) && (s.callbacks || !Has(s.temporary, a))
    ensures var s' := SaveDevice(s, a, ok).0;
            && s.calls <= s'.calls
            && var made := s'.calls[|s.calls|..];
               if a !in ToMap(s.temporary) then made == []
               else
                 && 1 <= |made| <= 2 && made[|made| - 1] == Saved(a, ToMap(s.temporary)[a], ok)
                 && (forall b, id :: Forgotten(b, id) in made <==>
                       b in ToMap(s.paired) && b !in ToMap(s'.paired) && id == ToMap(s.paired)[b])
  {
    hide WellFormed, ToMap, Put, Remove, Touch, Evicted, Injective;
    if Has(s.temporary, a) {
      SaveKnownMaps(s, a, Lookup(s.temporary, a).value, ok);
      var e := Evicted(s.paired, MAX_PAIRED, a);
      var made := SaveDevice(s, a, ok).0.calls[|s.calls|..];
      var saved := Saved(a, Lookup(s.temporary, a).value, ok);
      assert made == if e.Some? then [Forgotten(e.value.key, e.value.value), saved] else [saved];
    }
  }

  // ----- ForgetDevice, Close

  lemma ForgetKnown(s: State, a: RawAddress)
    requires Inv(s) && Has(s.paired, a)
    ensures var t := ForgetDevice(s, a);
            && ToMap(t.paired) == ToMap(s.paired) - {a} && Caches(t)
            && KnownMap(t) == KnownMap(s) - {a}
  {
    hide Touch, Remove, ToMap, WellFormed, Injective;
    TouchKeeps(s.paired, MAX_PAIRED, a);
    RemoveKeeps(Touch(s.paired, a), MAX_PAIRED, a);
  }

  lemma ForgetKeeps(s: State, a: RawAddress)
    requires Inv(s)
    ensures Inv(ForgetDevice(s, a)) && (StorageAgrees(s) ==> StorageAgrees(ForgetDevice(s, a)))
    ensures a !in ToMap(ForgetDevice(s, a).paired)
  {
    if Has(s.paired, a) {
      var id := Lookup(s.paired, a).value;
      ForgetKnown(s, a);
      ValuesRemove(KnownMap(s), a);
      ReplayAppend(s.base, s.calls, Forgotten(a, id));
    }
  }

  /** Forgetting makes one callback, under the device's id, if the device is paired, and none otherwise. */
  lemma ForgetReports(s: State, a: RawAddress)
    ensures ForgetDevice(s, a).calls ==
            if a in ToMap(s.paired) then s.calls + [Forgotten(a, ToMap(s.paired)[a])] else s.calls
    ensures a !in ToMap(s.paired) ==> ForgetDevice(s, a) == s
  {
  }

  /** Closing an open allocator leaves no device and no used id; the cursor, the callbacks and what
      they stored stay. */
  lemma CloseKeeps(s: State)
    requires Inv(s)
    ensures Inv(Close(s)) && StorageAgrees(Close(s))
    ensures s.initialized ==> KnownMap(Close(s)) == map[] && Close(s).ids == {}
    ensures var t := Close(s);
            t.next == s.next && t.callbacks == s.callbacks && t.base == s.base && t.calls == s.calls
  {
  }
}
