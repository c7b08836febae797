/** MetricIdAllocator of system/common/metric_id_allocator.cc, with its two caches, used-id set and
    cyclic cursor. The mutex makes each call one step; the callbacks' answers are parameters. */
module MetricIdAllocator {
  import opened Entries
  import opened LruSpec
  import opened LruCache
  import opened MetricIdInit
  import opened MetricIdSpec

  class Allocator {
    const paired: LegacyLruCache<RawAddress, int>
    const temporary: LegacyLruCache<RawAddress, int>
    var idSet: set<int>
    var nextId: int
    var initialized: bool
    var callbacks: bool
    ghost var base: map<RawAddress, int>
    ghost var calls: seq<Callback>

    /** The objects of the two caches. */
    ghost function Caches(): set<object>
      reads paired, temporary
    {
      paired.Repr + temporary.Repr
    }

    ghost predicate Valid()
      reads this, paired, temporary, paired.Repr, temporary.Repr
    {
      && paired.Valid() && paired.capacity == MAX_PAIRED
      && temporary.Valid() && temporary.capacity == MAX_UNPAIRED
      && paired.Repr !! temporary.Repr
      && this !in Caches()
    }

    ghost function View(): State
      reads this, paired, temporary
    {
      State(paired.Contents, temporary.Contents, idSet, nextId, initialized, callbacks, base, calls)
    }

    constructor ()
      ensures Valid() && fresh(Caches())
      ensures View() == State([], [], {}, MIN_ID, false, false, map[], [])
    {
      paired := new LegacyLruCache(MAX_PAIRED);
      temporary := new LegacyLruCache(MAX_UNPAIRED);
      idSet, nextId := {}, MIN_ID;
      initialized, callbacks := false, false;
      base, calls := map[], [];
    }

    /** The search loop: the cyclic distance left to a full turn is the measure. */
    method FindFreeId()
      requires IsValidId(nextId) && |idSet| < ID_SPACE
      modifies this`nextId
      ensures IsFirstFree(idSet, old(nextId), nextId)
    {
      ghost var d: nat := 0;
      while nextId in idSet
        invariant d < ID_SPACE && nextId == Probe(old(nextId), d)
        invariant AllUsed(idSet, old(nextId), d)
        decreases ID_SPACE - d
      {
        if d + 1 == ID_SPACE {
          FullCycle(idSet, old(nextId));
        }
        nextId := nextId + 1;
        if nextId > MAX_ID {
          nextId := MIN_ID;
        }
        d := d + 1;
      }
    }

    method AllocateId(mac: RawAddress) returns (id: int)
      requires Valid() && Bounded(View())
      modifies this, Caches()
      ensures Valid() && fresh(Caches() - old(Caches()))
      ensures MetricIdSpec.AllocateId(old(View()), mac, View(), id)
    {
      hide LegacyLruCache.Valid;
      var found := paired.Get(mac);
      if found.Some? {
        return found.value;
      }
      found := temporary.Get(mac);
      if found.Some? {
        return found.value;
      }
      id := AllocateNew(mac);
    }

    method AllocateNew(mac: RawAddress) returns (id: int)
      requires Valid() && Bounded(View())
      modifies this, temporary.Repr
      ensures Valid() && fresh(Caches() - old(Caches()))
      ensures IsFirstFree(old(idSet), old(nextId), id)
      ensures View() == MetricIdSpec.AllocateNew(old(View()), mac, id)
    {
      hide LegacyLruCache.Valid, Bounded, IsFirstFree, LruSpec.Put, LruSpec.Evicted, ToMap, Index;
      UsedIdsBounded(View());
      FindFreeId();
      id := nextId;
      Insert(mac);
    }

    /** The rest of AllocateId, with the cursor on the free id. */
    method Insert(mac: RawAddress)
      requires Valid()
      modifies this, temporary.Repr
      ensures Valid() && fresh(Caches() - old(Caches()))
      ensures View() == MetricIdSpec.AllocateNew(old(View()), mac, old(nextId))
    {
      hide LegacyLruCache.Valid, LruSpec.Put, LruSpec.Evicted, ToMap, Index;
      var id := nextId;
      nextId := nextId + 1;
      idSet := idSet + {id};
      var evicted := temporary.Put(mac, id);
      if evicted.Some? {
        idSet := idSet - {evicted.value.value};
      }
      if nextId > MAX_ID {
        nextId := MIN_ID;
      }
    }

    /** Calls the forget callback, which must be set. */
    method ForgetDevicePostprocess(mac: RawAddress, id: int)
      requires callbacks
      modifies this`idSet, this`calls
      ensures idSet == old(idSet) - {id} && calls == old(calls) + [Forgotten(mac, id)]
    {
      idSet := idSet - {id};
      calls := calls + [Forgotten(mac, id)];
    }

    /** A device to be saved needs the callbacks, which Init sets and Close leaves set. */
    method SaveDevice(mac: RawAddress, callbackOk: bool) returns (saved: bool)
      requires Valid() && (callbacks || !Has(temporary.Contents, mac))
      modifies this, Caches()
      ensures Valid() && fresh(Caches() - old(Caches()))
      ensures (View(), saved) == MetricIdSpec.SaveDevice(old(View()), mac, callbackOk)
      ensures saved <==> Has(old(paired.Contents), mac) || (Has(old(temporary.Contents), mac) && callbackOk)
    {
      hide LegacyLruCache.Valid, LruSpec.Put, LruSpec.Evicted, ToMap;
      var found := paired.Get(mac);
      if found.Some? {
        return true;
      }
      found := temporary.Get(mac);
      if found.None? {
        return false;
      }
      assert Index(temporary.Contents, mac) == 0;
      var removed := temporary.Remove(mac);
      if !removed {
        return false;
      }
      Pair(mac, found.value, callbackOk);
      saved := callbackOk;
    }

    /** The rest of SaveDevice, with the device out of the temporary cache. */
    method Pair(mac: RawAddress, id: int, callbackOk: bool)
      requires Valid() && callbacks
      modifies this, paired.Repr
      ensures Valid() && fresh(Caches() - old(Caches()))
      ensures View() == Paired(old(View()), mac, id, callbackOk)
    {
      hide LegacyLruCache.Valid, LruSpec.Put, LruSpec.Evicted, ToMap;
      assert calls + [] == calls;
      var evicted := paired.Put(mac, id);
      if evicted.Some? {
        ForgetDevicePostprocess(evicted.value.key, evicted.value.value);
      }
      calls := calls + [Saved(mac, id, callbackOk)];
    }

    method ForgetDevice(mac: RawAddress)
      requires Valid() && (callbacks || !Has(paired.Contents, mac))
      modifies this, Caches()
      ensures Valid() && Caches() == old(Caches())
      ensures View() == MetricIdSpec.ForgetDevice(old(View()), mac)
    {
      hide LegacyLruCache.Valid;
      var found := paired.Get(mac);
      if found.None? {
        return;
      }
      var removed := paired.Remove(mac);
      if !removed {
        return;
      }
      ForgetDevicePostprocess(mac, found.value);
    }

    /** `order` lists the paired device map in the order the loop visits it. */
    method Init(order: seq<Entry<RawAddress, int>>) returns (outcome: InitOutcome)
      requires Valid() && DistinctKeys(order)
      requires callbacks || paired.Contents == []
      modifies this, Caches()
      ensures outcome == OutcomeOfInit(old(View()), order)
      ensures !outcome.Fatal? ==> Valid() && fresh(Caches() - old(Caches()))
      ensures outcome == Ready ==> View() == MetricIdSpec.Init(old(View()), order)
      ensures outcome == AlreadyInitialized ==> View() == old(View())
    {
      hide LegacyLruCache.Valid, Load, LoadEntry, ToMap;
      if initialized {
        return AlreadyInitialized;
      }
      if |order| > MAX_PAIRED {
        return Fatal;
      }
      nextId := MIN_ID;
      calls := [];
      LoadNone(old(View()));
      for i := 0 to |order|
        invariant Valid() && fresh(Caches() - old(Caches()))
        invariant callbacks == old(callbacks)
        invariant forall j :: 0 <= j < i ==> IsValidId(order[j].value)
        invariant View() == Load(old(View()), order[..i])
      {
        if !IsValidId(order[i].value) {
          return Fatal;
        }
        LoadNext(old(View()), order, i);
        FirstLoadEvictsNothing(old(View()), order, i);
        LoadOne(order[i]);
      }
      assert order[..|order|] == order;
      if nextId > MAX_ID {
        nextId := MIN_ID;
      }
      base := ToMap(order);
      callbacks := true;
      initialized := true;
      outcome := Ready;
    }

    /** One turn of the loop of Init. */
    method LoadOne(e: Entry<RawAddress, int>)
      requires Valid()
      requires callbacks || Evicted(paired.Contents, MAX_PAIRED, e.key).None?
      modifies this, paired.Repr
      ensures Valid() && fresh(Caches() - old(Caches()))
      ensures View() == LoadEntry(old(View()), e) && callbacks == old(callbacks)
    {
      hide LegacyLruCache.Valid, LruSpec.Put, LruSpec.Evicted, ToMap;
      assert calls + [] == calls;
      var evicted := paired.Put(e.key, e.value);
      if evicted.Some? {
        ForgetDevicePostprocess(evicted.value.key, evicted.value.value);
      }
      idSet := idSet + {e.value};
      nextId := if e.value + 1 > nextId then e.value + 1 else nextId;
    }

    method Close() returns (closed: bool)
      requires Valid()
      modifies this, Caches()
      ensures Valid() && Caches() == old(Caches())
      ensures View() == MetricIdSpec.Close(old(View())) && closed == old(initialized)
    {
      if !initialized {
        return false;
      }
      paired.Clear();
      temporary.Clear();
      idSet := {};
      initialized := false;
      closed := true;
    }
  }
}
