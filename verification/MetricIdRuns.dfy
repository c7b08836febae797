/** Whole histories of MetricIdAllocator, from construction through any number of Init and Close. */
module MetricIdRuns {
  import opened Entries
  import opened LruSpec
  import opened MetricIdInit
  import opened MetricIdProofs
  import opened MetricIdSpec
  import opened Wrappers

  /** The state before the first Init. */
  const CONSTRUCTED := State([], [], {}, MIN_ID, false, false, map[], [])

  // ----- restart

  /** Close followed by Init with the replayed storage, whatever order it is listed in, succeeds and
      restores exactly the paired ids. */
  lemma RestartRestores(s: State, order: seq<Entry<RawAddress, int>>)
    requires Inv(s) && s.initialized && StorageAgrees(s)
    requires DistinctKeys(order) && ToMap(order) == Replay(s.base, s.calls)
    ensures OutcomeOfInit(Close(s), order) == Ready
    ensures Inv(Init(Close(s), order))
    ensures ToMap(Init(Close(s), order).paired) == ToMap(s.paired)
  {
    hide Load, ToMap, Inv, Replay;
    PairedIsLoadable(s, order);
    PairedIsInjective(s);
    CloseKeeps(s);
    ClosedIsEmpty(s);
    FirstMapFits(Close(s), order);
    InitMaps(Close(s), order);
    InitKeepsIff(Close(s), order);
  }

  lemma PairedIsLoadable(s: State, order: seq<Entry<RawAddress, int>>)
    requires Inv(s) && DistinctKeys(order) && ToMap(order) == ToMap(s.paired)
    ensures |order| <= MAX_PAIRED && forall i :: 0 <= i < |order| ==> IsValidId(order[i].value)
  {
    hide ToMap;
    ToMapSize(order);
    ToMapSize(s.paired);
    forall i | 0 <= i < |order| ensures IsValidId(order[i].value) {
      InMap(order, i);
      assert KnownMap(s)[order[i].key] == order[i].value;
    }
  }

  lemma PairedIsInjective(s: State)
    requires Inv(s)
    ensures Injective(ToMap(s.paired))
  {
    var m := ToMap(s.paired);
    forall a, b | a in m && b in m && m[a] == m[b] ensures a == b {
      assert KnownMap(s)[a] == KnownMap(s)[b];
    }
  }

  lemma ClosedIsEmpty(s: State)
    requires s.initialized
    ensures ToMap(Close(s).temporary) == map[] && Close(s).paired == [] && !Close(s).initialized
  {
  }

  // ----- histories

  datatype Call =
    | CallInit(order: seq<Entry<RawAddress, int>>)
    | CallClose
    | CallAllocate(address: RawAddress, id: int)
    | CallSave(address: RawAddress, callbackOk: bool)
    | CallForget(address: RawAddress)

  /** One call. Saving a device uses the callbacks, so it needs an earlier Init, closed or not; a fatal
      Init has no successor. */
  ghost predicate Step(s: State, call: Call, s': State) {
    match call
    case CallInit(order) =>
      && DistinctKeys(order)
      && (OutcomeOfInit(s, order) == Ready ==> s' == Init(s, order))
      && (OutcomeOfInit(s, order) == AlreadyInitialized ==> s' == s)
      && OutcomeOfInit(s, order) != Fatal
    case CallClose => s' == Close(s)
    case CallAllocate(a, id) => AllocateId(s, a, s', id)
    case CallSave(a, ok) => (s.callbacks || !Has(s.temporary, a)) && s' == SaveDevice(s, a, ok).0
    case CallForget(a) => s' == ForgetDevice(s, a)
  }

  /** Every device saved since Close is in the map, under its id. */
  ghost predicate Listed(s: State, order: seq<Entry<RawAddress, int>>) {
    forall a :: a in ToMap(s.paired) ==> a in ToMap(order) && ToMap(order)[a] == ToMap(s.paired)[a]
  }

  /** A call whose Init, if it takes effect, was given a safe map with all saved devices. */
  ghost predicate SafeStep(s: State, call: Call, s': State) {
    && Step(s, call, s')
    && (call.CallInit? && !s.initialized ==> InitSafe(s, call.order) && Listed(s, call.order))
  }

  lemma ListedFits(s: State, order: seq<Entry<RawAddress, int>>)
    requires Listed(s, order) && DistinctKeys(order) && |order| <= MAX_PAIRED
    ensures Fits(s, order) && ToMap(s.paired).Keys <= ToMap(order).Keys
  {
    hide ToMap;
    ToMapSize(order);
    assert ToMap(s.paired).Keys + ToMap(order).Keys == ToMap(order).Keys;
  }

  ghost predicate IsRun(states: seq<State>, calls: seq<Call>) {
    && |states| == |calls| + 1
    && states[0] == CONSTRUCTED
    && forall i :: 0 <= i < |calls| ==> SafeStep(states[i], calls[i], states[i + 1])
  }

  lemma StepKeeps(s: State, call: Call, s': State)
    requires Inv(s) && StorageAgrees(s) && SafeStep(s, call, s')
    ensures Inv(s') && StorageAgrees(s')
  {
    hide Inv, StorageAgrees, Init, AllocateId, SaveDevice, ForgetDevice, Close, ToMap, InitSafe, Listed;
    match call
    case CallInit(order) => if !s.initialized { ListedFits(s, order); InitKeepsIff(s, order); }
    case CallClose => CloseKeeps(s);
    case CallAllocate(a, id) => AllocateKeeps(s, a, s', id);
    case CallSave(a, ok) => SaveKeeps(s, a, ok);
    case CallForget(a) => ForgetKeeps(s, a);
  }

  /** In every reachable state the invariant holds and storage agrees with the paired cache. */
  lemma {:induction false} RunKeeps(states: seq<State>, calls: seq<Call>, i: nat)
    requires IsRun(states, calls) && i < |states|
    ensures Inv(states[i]) && StorageAgrees(states[i])
  {
    if i > 0 {
      RunKeeps(states, calls, i - 1);
      StepKeeps(states[i - 1], calls[i - 1], states[i]);
    }
  }

  // ----- histories with colliding ids

  /** A device saved since Close is in the map under its id or not at all. */
  ghost predicate Compatible(s: State, order: seq<Entry<RawAddress, int>>) {
    forall a :: a in ToMap(s.paired) && a in ToMap(order) ==> ToMap(order)[a] == ToMap(s.paired)[a]
  }

  ghost predicate IsAnyRun(states: seq<State>, calls: seq<Call>) {
    && |states| == |calls| + 1
    && states[0] == CONSTRUCTED
    && forall i :: 0 <= i < |calls| ==> Step(states[i], calls[i], states[i + 1])
  }

  /** Any run in which Init gives no known device a new id; ids may collide and devices be evicted. */
  ghost predicate IsCompatibleRun(states: seq<State>, calls: seq<Call>) {
    && IsAnyRun(states, calls)
    && forall i :: 0 <= i < |calls| && calls[i].CallInit? && !states[i].initialized ==>
         Compatible(states[i], calls[i].order)
  }

  lemma ValuesPut<K, V>(m: map<K, V>, k: K, v: V)
    ensures v in m[k := v].Values
    ensures forall w :: w in m.Values && (k in m ==> w != m[k]) ==> w in m[k := v].Values
  {
    var m' := m[k := v];
    assert k in m' && m'[k] == v;
    forall w | w in m.Values && (k in m ==> w != m[k]) ensures w in m'.Values {
      var j :| j in m && m[j] == w;
      assert j in m' && m'[j] == w;
    }
  }

  lemma ValuesWithout<K, V>(m: map<K, V>, k: K)
    requires k in m
    ensures forall w :: w in m.Values && w != m[k] ==> w in (m - {k}).Values
  {
    forall w | w in m.Values && w != m[k] ensures w in (m - {k}).Values {
      var j :| j in m && m[j] == w;
      assert j in m - {k} && (m - {k})[j] == w;
    }
  }

  lemma AllocateKeepsBounded(s: State, a: RawAddress, s': State, id: int)
    requires Bounded(s) && AllocateId(s, a, s', id)
    ensures Bounded(s')
  {
    hide Put, Evicted, ToMap;
    if Has(s.paired, a) {
      TouchKeeps(s.paired, MAX_PAIRED, a);
    } else if Has(s.temporary, a) {
      TouchKeeps(s.temporary, MAX_UNPAIRED, a);
    } else {
      PutKeeps(s.temporary, MAX_UNPAIRED, a, id);
      var e, m := Evicted(s.temporary, MAX_UNPAIRED, a), ToMap(s.temporary);
      if e.Some? {
        ValuesWithout(m, e.value.key);
        m := m - {e.value.key};
      }
      ValuesPut(m, a, id);
    }
  }

  lemma SaveKeepsBounded(s: State, a: RawAddress, ok: bool)
    requires Bounded(s) && (s.callbacks || !Has(s.temporary, a))
    ensures Bounded(SaveDevice(s, a, ok).0)
  {
    hide Put, Evicted, ToMap, Remove;
    if Has(s.paired, a) {
      TouchKeeps(s.paired, MAX_PAIRED, a);
    } else if Has(s.temporary, a) {
      var id := Lookup(s.temporary, a).value;
      PutKeeps(s.paired, MAX_PAIRED, a, id);
      TouchKeeps(s.temporary, MAX_UNPAIRED, a);
      RemoveKeeps(Touch(s.temporary, a), MAX_UNPAIRED, a);
      ValuesWithout(ToMap(s.temporary), a);
      var e, m := Evicted(s.paired, MAX_PAIRED, a), ToMap(s.paired);
      if e.Some? {
        ValuesWithout(m, e.value.key);
        m := m - {e.value.key};
      }
      ValuesPut(m, a, id);
    }
  }

  lemma ForgetKeepsBounded(s: State, a: RawAddress)
    requires Bounded(s)
    ensures Bounded(ForgetDevice(s, a))
  {
    if Has(s.paired, a) {
      TouchKeeps(s.paired, MAX_PAIRED, a);
      RemoveKeeps(Touch(s.paired, a), MAX_PAIRED, a);
      ValuesWithout(ToMap(s.paired), a);
    }
  }

  /** Loading keeps what is not loaded and does not use ids without a device. */
  ghost predicate LoadKeeps(s: State, t: State, order: seq<Entry<RawAddress, int>>) {
    && WellFormed(t.paired, MAX_PAIRED) && t.temporary == s.temporary
    && t.ids <= ToMap(t.paired).Values + ToMap(t.temporary).Values
    && MIN_ID <= t.next <= MAX_ID + 1
    && forall a :: a in ToMap(t.paired) && a !in ToMap(order) ==>
         a in ToMap(s.paired) && ToMap(s.paired)[a] == ToMap(t.paired)[a]
  }

  lemma LoadEntryValues(t: State, e: Entry<RawAddress, int>)
    requires WellFormed(t.paired, MAX_PAIRED) && t.ids <= ToMap(t.paired).Values + ToMap(t.temporary).Values
    requires e.key in ToMap(t.paired) ==> ToMap(t.paired)[e.key] == e.value
    ensures LoadEntry(t, e).ids <= ToMap(LoadEntry(t, e).paired).Values + ToMap(t.temporary).Values
  {
    hide Put, Evicted, ToMap, WellFormed;
    PutKeeps(t.paired, MAX_PAIRED, e.key, e.value);
    var gone, m := Evicted(t.paired, MAX_PAIRED, e.key), ToMap(t.paired);
    if gone.Some? {
      ValuesWithout(m, gone.value.key);
      m := m - {gone.value.key};
    }
    ValuesPut(m, e.key, e.value);
  }

  lemma LoadEntryBounded(s: State, t: State, front: seq<Entry<RawAddress, int>>, e: Entry<RawAddress, int>)
    requires LoadKeeps(s, t, front) && IsValidId(e.value) && e.key !in ToMap(front)
    requires e.key in ToMap(s.paired) ==> ToMap(s.paired)[e.key] == e.value
    ensures LoadKeeps(s, LoadEntry(t, e), front + [e])
  {
    hide Put, Evicted, ToMap, WellFormed;
    PutKeeps(t.paired, MAX_PAIRED, e.key, e.value);
    ToMapSnoc(front, e);
    LoadEntryValues(t, e);
  }

  lemma {:induction false} LoadBounded(s: State, order: seq<Entry<RawAddress, int>>)
    requires Bounded(s) && Compatible(s, order) && DistinctKeys(order)
    requires forall i :: 0 <= i < |order| ==> IsValidId(order[i].value)
    ensures LoadKeeps(s, Load(s, order), order)
  {
    hide LoadEntry, ToMap, LoadKeeps;
    if order == [] {
      LoadNoneBounded(s);
    } else {
      var n := |order| - 1;
      var front := order[..n];
      assert front + [order[n]] == order;
      assert Index(front, order[n].key) == n;
      forall i | 0 <= i < |order| ensures order[i].key in ToMap(order) && ToMap(order)[order[i].key] == order[i].value {
        InMap(order, i);
      }
      forall a | a in ToMap(front) ensures a in ToMap(order) && ToMap(order)[a] == ToMap(front)[a] {
        var i := Index(front, a);
        assert front[i] == order[i];
      }
      LoadBounded(s, front);
      LoadEntryBounded(s, Load(s, front), front, order[n]);
    }
  }

  lemma LoadNoneBounded(s: State)
    requires Bounded(s)
    ensures LoadKeeps(s, Load(s, []), [])
  {
  }

  lemma InitKeepsBounded(s: State, order: seq<Entry<RawAddress, int>>)
    requires Bounded(s) && DistinctKeys(order) && OutcomeOfInit(s, order) == Ready && Compatible(s, order)
    ensures Bounded(Init(s, order))
  {
    hide ToMap, Load;
    LoadBounded(s, order);
  }

  /** Over any compatible calls, colliding ids included, the search for a free id ends: the used ids
      are fewer than the id space and the cursor is in range. */
  lemma {:induction false} CompatibleRunKeepsBounded(states: seq<State>, calls: seq<Call>, i: nat)
    requires IsCompatibleRun(states, calls) && i < |states|
    ensures Bounded(states[i]) && |states[i].ids| < ID_SPACE
  {
    hide Bounded, ToMap, Step, Compatible;
    if i == 0 {
      ConstructedIsBounded();
    } else {
      CompatibleRunKeepsBounded(states, calls, i - 1);
      StepKeepsBounded(states[i - 1], calls[i - 1], states[i]);
    }
    UsedIdsBounded(states[i]);
  }

  lemma ConstructedIsBounded()
    ensures Bounded(CONSTRUCTED)
  {
  }

  lemma StepKeepsBounded(s: State, call: Call, s': State)
    requires Bounded(s) && Step(s, call, s')
    requires call.CallInit? && !s.initialized ==> Compatible(s, call.order)
    ensures Bounded(s')
  {
    hide ToMap, SaveDevice, ForgetDevice, AllocateId, Init, Compatible;
    match call
    case CallInit(order) => if !s.initialized { InitKeepsBounded(s, order); }
    case CallClose =>
    case CallAllocate(a, id) => AllocateKeepsBounded(s, a, s', id);
    case CallSave(a, ok) => SaveKeepsBounded(s, a, ok);
    case CallForget(a) => ForgetKeepsBounded(s, a);
  }

  // ----- stable ids

  /** The calls that make a device lose its id: closing, forgetting it when paired, or a newcomer
      evicting it from the tail of a full cache. */
  ghost predicate Loses(s: State, call: Call, a: RawAddress) {
    match call
    case CallClose => s.initialized
    case CallForget(b) => a == b && Has(s.paired, a)
    case CallAllocate(b, _) =>
      var e := Evicted(s.temporary, MAX_UNPAIRED, b);
      !Has(s.paired, b) && e.Some? && e.value.key == a
    case CallSave(b, _) =>
      var e := Evicted(s.paired, MAX_PAIRED, b);
      Has(s.temporary, b) && e.Some? && e.value.key == a
    case CallInit(_) => false
  }

  /** A known device loses its id in exactly those calls, and keeps it in all others. */
  lemma StepKeepsId(s: State, call: Call, s': State, a: RawAddress)
    requires Inv(s) && SafeStep(s, call, s') && Known(s, a).Some?
    ensures Known(s', a) == if Loses(s, call, a) then None else Known(s, a)
  {
    hide ToMap, Init, AllocateId, SaveDevice, ForgetDevice, Inv, Evicted, Injective;
    KnownIsMap(s, a);
    KnownIsMap(s', a);
    match call
    case CallInit(order) => if !s.initialized { InitKeepsId(s, order); }
    case CallClose => if s.initialized { ClosedIsEmpty(s); }
    case CallAllocate(b, id) => AllocateKeepsId(s, b, s', id, a);
    case CallSave(b, ok) => SaveKeepsId(s, b, ok, a);
    case CallForget(b) => ForgetKeepsId(s, b, a);
  }

  lemma InitKeepsId(s: State, order: seq<Entry<RawAddress, int>>)
    requires Inv(s) && DistinctKeys(order) && OutcomeOfInit(s, order) == Ready
    requires InitSafe(s, order) && Listed(s, order)
    ensures var known := KnownMap(Init(s, order));
            forall a :: a in KnownMap(s) ==> a in known && known[a] == KnownMap(s)[a]
  {
    hide ToMap, Init, Injective;
    ListedFits(s, order);
    InitKnown(s, order);
  }

  lemma AllocateKeepsId(s: State, b: RawAddress, s': State, id: int, a: RawAddress)
    requires Inv(s) && AllocateId(s, b, s', id) && a in KnownMap(s)
    ensures a in KnownMap(s') <==> !Loses(s, CallAllocate(b, id), a)
    ensures a in KnownMap(s') ==> KnownMap(s')[a] == KnownMap(s)[a]
  {
    hide ToMap, Put, Evicted, Touch, Injective;
    if Has(s.paired, b) {
      TouchKeeps(s.paired, MAX_PAIRED, b);
    } else if Has(s.temporary, b) {
      TouchKeeps(s.temporary, MAX_UNPAIRED, b);
      PutKeeps(s.temporary, MAX_UNPAIRED, b, id);
    } else {
      AllocateNewKnown(s, b, id);
    }
  }

  lemma SaveKeepsId(s: State, b: RawAddress, ok: bool, a: RawAddress)
    requires Inv(s) && (s.callbacks || !Has(s.temporary, b)) && a in KnownMap(s)
    ensures var s' := SaveDevice(s, b, ok).0;
            && (a in KnownMap(s') <==> !Loses(s, CallSave(b, ok), a))
            && (a in KnownMap(s') ==> KnownMap(s')[a] == KnownMap(s)[a])
  {
    hide ToMap, Put, Evicted, Touch, Injective, SaveKnown;
    if Has(s.paired, b) {
      TouchKeeps(s.paired, MAX_PAIRED, b);
      PutKeeps(s.paired, MAX_PAIRED, b, 0);
    } else if Has(s.temporary, b) {
      SaveKnownKeeps(s, b, Lookup(s.temporary, b).value, ok);
    }
  }

  lemma ForgetKeepsId(s: State, b: RawAddress, a: RawAddress)
    requires Inv(s) && a in KnownMap(s)
    ensures var s' := ForgetDevice(s, b);
            && (a in KnownMap(s') <==> !Loses(s, CallForget(b), a))
            && (a in KnownMap(s') ==> KnownMap(s')[a] == KnownMap(s)[a])
  {
    hide ToMap, Touch, Remove, Injective;
    if Has(s.paired, b) {
      ForgetKnown(s, b);
    }
  }

  /** From allocation on, a device has one id until the first call that makes it lose it. */
  lemma {:induction false} RunKeepsId(states: seq<State>, calls: seq<Call>, i: nat, j: nat, a: RawAddress)
    requires IsRun(states, calls) && i <= j < |states| && Known(states[i], a).Some?
    requires forall k :: i <= k < j ==> !Loses(states[k], calls[k], a)
    ensures Known(states[j], a) == Known(states[i], a)
    ensures j < |calls| && Loses(states[j], calls[j], a) ==> Known(states[j + 1], a) == None
  {
    hide Known, Loses, Inv, StorageAgrees, SafeStep;
    if i < j {
      RunKeepsId(states, calls, i, j - 1, a);
      RunKeeps(states, calls, j - 1);
      StepKeepsId(states[j - 1], calls[j - 1], states[j], a);
    }
    if j < |calls| {
      RunKeeps(states, calls, j);
      StepKeepsId(states[j], calls[j], states[j + 1], a);
    }
  }
}
