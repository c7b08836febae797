/** The state of MetricIdAllocator (system/common/metric_id_allocator.cc) as a value, the effect of
    each call on it, and the properties that every reachable state keeps. */
module MetricIdSpec {
  import opened Wrappers
  import opened Entries
  import opened LruSpec

  const MAX_UNPAIRED := 200
  const MAX_PAIRED := 65000
  const MIN_ID := 1
  const MAX_ID := 65534
  const ID_SPACE := MAX_ID - MIN_ID + 1

  datatype RawAddress = RawAddress(value: nat)

  /** A call that the allocator makes to its owner; `ok` is what the save callback answered. */
  datatype Callback = Saved(address: RawAddress, id: int, ok: bool) | Forgotten(address: RawAddress, id: int)

  /** `callbacks` is whether an Init has set the callbacks, which Close leaves set; `base` is the map
      given to the latest Init and `calls` are the callbacks made since it began. */
  datatype State = State(
    paired: seq<Entry<RawAddress, int>>,
    temporary: seq<Entry<RawAddress, int>>,
    ids: set<int>,
    next: int,
    initialized: bool,
    callbacks: bool,
    base: map<RawAddress, int>,
    calls: seq<Callback>)

  // ----- effect of the calls

  predicate IsValidId(id: int) {
    MIN_ID <= id <= MAX_ID
  }

  function Advance(id: int): int {
    if id + 1 > MAX_ID then MIN_ID else id + 1
  }

  /** The id that is `d` places after `next` in cyclic order. */
  function Probe(next: int, d: nat): int {
    MIN_ID + (next - MIN_ID + d) % ID_SPACE
  }

  /** `id` is the first id not in `ids`, searching cyclically from `next`. */
  ghost predicate IsFirstFree(ids: set<int>, next: int, id: int) {
    id !in ids && exists d: nat :: d < ID_SPACE && AllUsed(ids, next, d) && id == Probe(next, d)
  }

  ghost predicate AllUsed(ids: set<int>, next: int, d: nat) {
    forall e: nat :: e < d ==> Probe(next, e) in ids
  }

  function Known(s: State, a: RawAddress): Option<int> {
    if Has(s.paired, a) then Lookup(s.paired, a) else Lookup(s.temporary, a)
  }

  /** AllocateId for a device that is in neither cache, given the id that the search found. */
  function AllocateNew(s: State, a: RawAddress, id: int): State {
    var evicted := Evicted(s.temporary, MAX_UNPAIRED, a);
    s.(temporary := Put(s.temporary, MAX_UNPAIRED, a, id),
       ids := if evicted.Some? then s.ids + {id} - {evicted.value.value} else s.ids + {id},
       next := Advance(id))
  }

  ghost predicate AllocateId(s: State, a: RawAddress, s': State, id: int) {
    if Has(s.paired, a) then
      s' == s.(paired := Touch(s.paired, a)) && Known(s, a) == Some(id)
    else if Has(s.temporary, a) then
      s' == s.(temporary := Touch(s.temporary, a)) && Known(s, a) == Some(id)
    else
      IsFirstFree(s.ids, s.next, id) && s' == AllocateNew(s, a, id)
  }

  /** A device enters the paired cache and is saved. */
  function Paired(s: State, a: RawAddress, id: int, callbackOk: bool): State {
    var evicted := Evicted(s.paired, MAX_PAIRED, a);
    s.(paired := Put(s.paired, MAX_PAIRED, a, id),
       ids := if evicted.Some? then s.ids - {evicted.value.value} else s.ids,
       calls := s.calls +
                (if evicted.Some? then [Forgotten(evicted.value.key, evicted.value.value)] else []) +
                [Saved(a, id, callbackOk)])
  }

  /** A device moves from the temporary cache to the paired one. */
  function SaveKnown(s: State, a: RawAddress, id: int, callbackOk: bool): State {
    Paired(s.(temporary := Remove(Touch(s.temporary, a), a)), a, id, callbackOk)
  }

  function SaveDevice(s: State, a: RawAddress, callbackOk: bool): (State, bool) {
    if Has(s.paired, a) then (s.(paired := Touch(s.paired, a)), true)
    else
      match Lookup(s.temporary, a)
      case None => (s, false)
      case Some(id) => (SaveKnown(s, a, id, callbackOk), callbackOk)
  }

  function ForgetDevice(s: State, a: RawAddress): State {
    match Lookup(s.paired, a)
    case None => s
    case Some(id) =>
      s.(paired := Remove(Touch(s.paired, a), a),
         ids := s.ids - {id},
         calls := s.calls + [Forgotten(a, id)])
  }

  function Close(s: State): State {
    if !s.initialized then s
    else s.(paired := [], temporary := [], ids := {}, initialized := false)
  }

  /** Fatal stands for LOG(FATAL): the process ends there. */
  datatype InitOutcome = Ready | AlreadyInitialized | Fatal

  function OutcomeOfInit(s: State, order: seq<Entry<RawAddress, int>>): InitOutcome {
    if s.initialized then AlreadyInitialized
    else if |order| > MAX_PAIRED then Fatal
    else if exists i :: 0 <= i < |order| && !IsValidId(order[i].value) then Fatal
    else Ready
  }

  /** The loop of Init over the first entries of the map, in the order it visits them. */
  function Load(s: State, order: seq<Entry<RawAddress, int>>): State {
    if order == [] then s.(next := MIN_ID, calls := [])
    else LoadEntry(Load(s, order[..|order| - 1]), order[|order| - 1])
  }

  /** One turn of that loop. A device saved since Close may be in the cache already, or be evicted. */
  function LoadEntry(s: State, e: Entry<RawAddress, int>): State {
    var evicted := Evicted(s.paired, MAX_PAIRED, e.key);
    s.(paired := Put(s.paired, MAX_PAIRED, e.key, e.value),
       ids := (if evicted.Some? then s.ids - {evicted.value.value} else s.ids) + {e.value},
       next := if e.value + 1 > s.next then e.value + 1 else s.next,
       calls := s.calls + if evicted.Some? then [Forgotten(evicted.value.key, evicted.value.value)] else [])
  }

  ghost function Init(s: State, order: seq<Entry<RawAddress, int>>): State {
    var t := Load(s, order);
    t.(next := if t.next > MAX_ID then MIN_ID else t.next,
       initialized := true,
       callbacks := true,
       base := ToMap(order))
  }

  // ----- the invariant

  /** Every device that has an id, with its id. */
  ghost function KnownMap(s: State): map<RawAddress, int> {
    ToMap(s.temporary) + ToMap(s.paired)
  }

  ghost predicate Injective<K, V>(m: map<K, V>) {
    forall a, b :: a in m && b in m && m[a] == m[b] ==> a == b
  }

  /** No more used ids than devices, and a cursor in range. */
  ghost predicate Bounded(s: State) {
    && Caches(s)
    && s.ids <= ToMap(s.paired).Values + ToMap(s.temporary).Values
    && IsValidId(s.next)
  }

  ghost predicate Caches(s: State) {
    && WellFormed(s.paired, MAX_PAIRED)
    && WellFormed(s.temporary, MAX_UNPAIRED)
    && (s.initialized ==> s.callbacks)
    && (!s.callbacks ==> s.paired == [])
  }

  /** The caches share no address, no two devices share an id, the used-id set is exactly the ids
      in the caches, and all ids and the cursor are in range. */
  ghost predicate Inv(s: State) {
    && Caches(s)
    && ToMap(s.paired).Keys !! ToMap(s.temporary).Keys
    && s.ids == KnownMap(s).Values
    && Injective(KnownMap(s))
    && (forall id :: id in s.ids ==> IsValidId(id))
    && IsValidId(s.next)
  }

  function Store(m: map<RawAddress, int>, call: Callback): map<RawAddress, int> {
    match call
    case Saved(a, id, _) => m[a := id]
    case Forgotten(a, _) => m - {a}
  }

  /** The contents of storage after the owner carried out each callback, whatever it answered. */
  function Replay(m: map<RawAddress, int>, calls: seq<Callback>): map<RawAddress, int> {
    if calls == [] then m
    else Store(Replay(m, calls[..|calls| - 1]), calls[|calls| - 1])
  }

  ghost predicate StorageAgrees(s: State) {
    s.initialized ==> Replay(s.base, s.calls) == ToMap(s.paired)
  }

  lemma ReplayAppend(m: map<RawAddress, int>, calls: seq<Callback>, call: Callback)
    ensures Replay(m, calls + [call]) == Store(Replay(m, calls), call)
  {
    assert (calls + [call])[..|calls|] == calls;
  }

  // ----- the free-id search

  ghost function Range(lo: int, hi: int): (r: set<int>)
    requires lo <= hi
    ensures |r| == hi - lo
    ensures forall i :: i in r <==> lo <= i < hi
    decreases hi - lo
  {
    if lo == hi then {} else Range(lo, hi - 1) + {hi - 1}
  }

  lemma ProbeCovers(next: int, id: int) returns (d: nat)
    requires IsValidId(next) && IsValidId(id)
    ensures d < ID_SPACE && Probe(next, d) == id
  {
    d := if id >= next then id - next else id - next + ID_SPACE;
  }

  /** The cyclic order: from the cursor upward, and from the largest id to the smallest. */
  lemma ProbeIsSuccessor(next: int, d: nat)
    requires IsValidId(next)
    ensures Probe(next, 0) == next
    ensures Probe(next, d + 1) == if Probe(next, d) == MAX_ID then MIN_ID else Probe(next, d) + 1
  {
  }

  /** If the whole cycle is used then so is every id, and there are ID_SPACE of them. */
  lemma FullCycle(ids: set<int>, next: int)
    requires IsValidId(next) && AllUsed(ids, next, ID_SPACE)
    ensures |ids| >= ID_SPACE
  {
    var all := Range(MIN_ID, MAX_ID + 1);
    forall id | id in all ensures id in ids {
      var d := ProbeCovers(next, id);
    }
    assert all <= ids;
    assert ids == all + (ids - all);
  }

  /** The search has one answer. */
  lemma FirstFreeUnique(ids: set<int>, next: int, a: int, b: int)
    requires IsFirstFree(ids, next, a) && IsFirstFree(ids, next, b)
    ensures a == b
  {
    var d: nat :| d < ID_SPACE && AllUsed(ids, next, d) && a == Probe(next, d);
    var e: nat :| e < ID_SPACE && AllUsed(ids, next, e) && b == Probe(next, e);
    assert d < e ==> Probe(next, d) in ids;
    assert e < d ==> Probe(next, e) in ids;
  }

  lemma {:induction false} ToMapSize(c: seq<Entry<RawAddress, int>>)
    requires DistinctKeys(c)
    ensures |ToMap(c)| == |c|
  {
    if c != [] {
      ToMapSize(c[1..]);
      assert Index(c[1..], c[0].key) == |c| - 1;
      assert ToMap(c).Keys == ToMap(c[1..]).Keys + {c[0].key};
    }
  }

  lemma {:induction false} ValuesSize<K, V>(m: map<K, V>)
    ensures |m.Values| <= |m|
    decreases |m|
  {
    if |m| == 0 {
      assert m.Values == {};
    } else {
      var k :| k in m;
      var m' := m - {k};
      assert m.Keys == m'.Keys + {k};
      ValuesSize(m');
      assert m.Values <= m'.Values + {m[k]};
      assert m'.Values + {m[k]} == m.Values + (m'.Values + {m[k]} - m.Values);
    }
  }

  /** The cache capacities keep the used ids fewer than the id space. */
  lemma UsedIdsBounded(s: State)
    requires Bounded(s)
    ensures |s.ids| <= MAX_PAIRED + MAX_UNPAIRED < ID_SPACE && IsValidId(s.next)
  {
    ToMapSize(s.paired);
    ToMapSize(s.temporary);
    ValuesSize(ToMap(s.paired));
    ValuesSize(ToMap(s.temporary));
    SubsetSize(s.ids, ToMap(s.paired).Values + ToMap(s.temporary).Values);
  }
}
