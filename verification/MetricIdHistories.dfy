/** Histories in which MetricIdAllocator lets ids collide, leak or run out. */
module MetricIdHistories {
  import opened Entries
  import opened LruSpec
  import opened MetricIdInit
  import opened MetricIdProofs
  import opened MetricIdRuns
  import opened MetricIdSpec
  import opened Wrappers

  const DUPLICATED: seq<Entry<RawAddress, int>> :=
    [Entry(RawAddress(1), 1), Entry(RawAddress(2), 1), Entry(RawAddress(3), MAX_ID)]

  lemma LoadDuplicated()
    ensures var t := Init(CONSTRUCTED, DUPLICATED);
            && t.paired == [DUPLICATED[2], DUPLICATED[1], DUPLICATED[0]]
            && t.temporary == [] && t.next == 1 && t.ids == {1, MAX_ID}
  {
    var e := DUPLICATED;
    var t0 := Load(CONSTRUCTED, []);
    assert [e[0]][..0] == [];
    var t1 := Load(CONSTRUCTED, [e[0]]);
    assert t1.paired == [e[0]] && t1.ids == {1} && t1.next == 2;
    assert [e[0], e[1]][..1] == [e[0]];
    var t2 := Load(CONSTRUCTED, [e[0], e[1]]);
    assert t2.paired == [e[1], e[0]] && t2.ids == {1} && t2.next == 2;
    assert e[..2] == [e[0], e[1]];
  }

  lemma ForgetFirst(t: State)
    requires t.paired == [DUPLICATED[2], DUPLICATED[1], DUPLICATED[0]] && t.ids == {1, MAX_ID}
    ensures var u := ForgetDevice(t, RawAddress(1));
            u.paired == [DUPLICATED[2], DUPLICATED[1]] && u.ids == {MAX_ID} && u.next == t.next &&
            u.temporary == t.temporary
  {
    assert Index(t.paired, RawAddress(1)) == 2;
    assert Touch(t.paired, RawAddress(1)) == [DUPLICATED[0], DUPLICATED[2], DUPLICATED[1]];
  }

  /** With two stored devices under id 1, forgetting one of them frees the id that the other still
      holds, and the next new device gets it: devices 2 and 4 then share id 1. */
  lemma DuplicateIdsCollide(s': State, id: int)
    requires AllocateId(ForgetDevice(Init(CONSTRUCTED, DUPLICATED), RawAddress(1)), RawAddress(4), s', id)
    ensures id == 1 && Known(s', RawAddress(2)) == Some(1) && Known(s', RawAddress(4)) == Some(1)
  {
    hide Init, ForgetDevice, Load, ToMap;
    LoadDuplicated();
    var e := DUPLICATED;
    var t := Init(CONSTRUCTED, e);
    ForgetFirst(t);
    var u := ForgetDevice(t, RawAddress(1));
    assert Index(u.paired, RawAddress(4)) == 2;
    var d: nat :| d < ID_SPACE && AllUsed(u.ids, u.next, d) && id == Probe(u.next, d);
    assert Probe(1, 0) == 1;
    assert d == 0;
    assert s'.temporary == [Entry(RawAddress(4), 1)];
    assert Index(s'.paired, RawAddress(2)) == 1;
  }

  /** A device scanned before Init gets id 1; Init then loads another device stored under id 1. */
  lemma EarlyAllocationCollides(s': State, id: int)
    requires AllocateId(CONSTRUCTED, RawAddress(1), s', id)
    ensures var t := Init(s', [Entry(RawAddress(2), 1)]);
            && id == 1 && OutcomeOfInit(s', [Entry(RawAddress(2), 1)]) == Ready
            && Known(t, RawAddress(1)) == Some(1) && Known(t, RawAddress(2)) == Some(1)
  {
    var d: nat :| d < ID_SPACE && AllUsed({}, MIN_ID, d) && id == Probe(MIN_ID, d);
    assert Probe(MIN_ID, 0) == MIN_ID;
    assert d == 0;
    assert s'.temporary == [Entry(RawAddress(1), 1)] && s'.paired == [];
    var order := [Entry(RawAddress(2), 1)];
    assert order[..0] == [];
    assert Load(s', order[..0]).paired == [];
    assert Load(s', order).paired == order;
  }

  // ----- devices saved after Close

  /** Closed after an Init, with devices 0 to n - 1 saved since under ids 1 to n. */
  ghost predicate Filled(s: State, n: nat) {
    && Inv(s) && !s.initialized && s.callbacks
    && s.temporary == [] && |s.paired| == n && s.next == n + 1
    && (forall a: RawAddress :: a in ToMap(s.paired) <==> a.value < n)
    && (forall id :: id in s.ids <==> 1 <= id <= n)
  }

  lemma FillOne(s: State, n: nat) returns (s1: State, s2: State)
    requires Filled(s, n) && n < MAX_PAIRED
    ensures Step(s, CallAllocate(RawAddress(n), n + 1), s1)
    ensures Step(s1, CallSave(RawAddress(n), true), s2) && Filled(s2, n + 1)
  {
    var a := RawAddress(n);
    s1 := AllocateNew(s, a, n + 1);
    s2 := SaveDevice(s1, a, true).0;
    FillAllocates(s, n);
    AllocateKeeps(s, a, s1, n + 1);
    FillSaves(s, s1, n);
    SaveKeeps(s1, a, true);
  }

  lemma FillAllocates(s: State, n: nat)
    requires Filled(s, n) && n < MAX_PAIRED
    ensures var s1 := AllocateNew(s, RawAddress(n), n + 1);
            && AllocateId(s, RawAddress(n), s1, n + 1)
            && s1 == s.(temporary := [Entry(RawAddress(n), n + 1)], ids := s.ids + {n + 1}, next := n + 2)
  {
    hide ToMap, Inv;
    assert Probe(s.next, 0) == n + 1 && AllUsed(s.ids, s.next, 0);
  }

  lemma FillSaves(s: State, s1: State, n: nat)
    requires Filled(s, n) && n < MAX_PAIRED && Inv(s1)
    requires s1 == s.(temporary := [Entry(RawAddress(n), n + 1)], ids := s.ids + {n + 1}, next := n + 2)
    ensures var s2 := SaveDevice(s1, RawAddress(n), true).0;
            && s2.temporary == [] && |s2.paired| == n + 1 && s2.next == n + 2 && s2.ids == s1.ids
            && !s2.initialized && s2.callbacks
            && forall a: RawAddress :: a in ToMap(s2.paired) <==> a.value < n + 1
  {
    hide ToMap, Inv;
    SaveKnownMaps(s1, RawAddress(n), n + 1, true);
  }

  lemma {:induction false} Fill(n: nat) returns (states: seq<State>, calls: seq<Call>)
    requires n <= MAX_PAIRED
    ensures IsAnyRun(states, calls) && Filled(states[|states| - 1], n)
  {
    hide Step, Filled;
    if n == 0 {
      var s1, s2 := OpenAndClose();
      states, calls := [CONSTRUCTED, s1, s2], [CallInit([]), CallClose];
    } else {
      var before, earlier := Fill(n - 1);
      var s1, s2 := FillOne(before[|before| - 1], n - 1);
      states := before + [s1, s2];
      calls := earlier + [CallAllocate(RawAddress(n - 1), n), CallSave(RawAddress(n - 1), true)];
    }
  }

  lemma OpenAndClose() returns (s1: State, s2: State)
    ensures Step(CONSTRUCTED, CallInit([]), s1) && Step(s1, CallClose, s2) && Filled(s2, 0)
  {
    s1, s2 := Init(CONSTRUCTED, []), Close(Init(CONSTRUCTED, []));
  }

  lemma FilledFits(s: State, n: nat, order: seq<Entry<RawAddress, int>>, m: nat)
    requires Filled(s, n) && n <= MAX_PAIRED && DistinctKeys(order)
    requires forall i :: 0 <= i < |order| ==> order[i].key.value < m
    requires n <= m <= MAX_PAIRED
    ensures Fits(s, order)
  {
    hide ToMap, Inv;
    var all := Addresses(m);
    forall a | a in ToMap(order) ensures a in all {
      assert order[Index(order, a)].key == a;
    }
    SubsetSize(ToMap(s.paired).Keys + ToMap(order).Keys, all);
  }

  ghost function Addresses(n: nat): (r: set<RawAddress>)
    ensures |r| == n && forall a: RawAddress :: a in r <==> a.value < n
  {
    if n == 0 then {} else Addresses(n - 1) + {RawAddress(n - 1)}
  }

  const OTHER: seq<Entry<RawAddress, int>> := [Entry(RawAddress(1), 1)]

  /** Init, Close, and then a device is scanned and saved: it gets id 1, and an Init whose map has
      another device under id 1 accepts it, so that they share the id and storage lacks the first. */
  lemma SavedAfterCloseCollides() returns (states: seq<State>, calls: seq<Call>)
    ensures IsAnyRun(states, calls)
    ensures var s := states[|states| - 1];
            var t := Init(s, OTHER);
            && OutcomeOfInit(s, OTHER) == Ready
            && Known(t, RawAddress(0)) == Known(t, RawAddress(1)) == Some(1)
            && !InitSafe(s, OTHER) && !StorageAgrees(t)
  {
    states, calls := Fill(1);
    CollidesWithSaved(states[|states| - 1]);
  }

  lemma CollidesWithSaved(s: State)
    requires Filled(s, 1)
    ensures var t := Init(s, OTHER);
            && OutcomeOfInit(s, OTHER) == Ready
            && Known(t, RawAddress(0)) == Known(t, RawAddress(1)) == Some(1)
            && !InitSafe(s, OTHER) && !StorageAgrees(t)
  {
    hide Init, ToMap, Inv, Fits, Known, StorageAgrees;
    FilledFits(s, 1, OTHER, 2);
    FilledIsClosed(s, 1);
    InitKeepsIff(s, OTHER);
    InitKnown(s, OTHER);
    InMap(OTHER, 0);
    assert Index(OTHER, RawAddress(0)) == 1;
    SavedHasFirstId(s);
    var t, known := Init(s, OTHER), KnownMap(s) + ToMap(OTHER);
    KnownIsMap(t, RawAddress(0));
    KnownIsMap(t, RawAddress(1));
    assert known[RawAddress(0)] == known[RawAddress(1)] == 1;
  }

  lemma SavedHasFirstId(s: State)
    requires Filled(s, 1)
    ensures RawAddress(0) in ToMap(s.paired) && ToMap(s.paired)[RawAddress(0)] == 1
    ensures KnownMap(s) == ToMap(s.paired)
  {
    assert KnownMap(s)[RawAddress(0)] in s.ids;
  }

  // ----- ids run out

  /** The devices 0 to MAX_PAIRED - 1 under new ids, from the largest down. */
  const RENUMBERED: seq<Entry<RawAddress, int>> :=
    seq(MAX_PAIRED, (i: nat) => Entry(RawAddress(i), MAX_ID - i))

  /** As many devices as fit are saved after Close and Init then loads a map that gives each of them
      another id: their old ids stay in use, so all ids are in use, and the search for a free id in the
      next AllocateId finds none and does not end. */
  lemma RenumberingExhaustsIds() returns (states: seq<State>, calls: seq<Call>)
    ensures IsAnyRun(states, calls)
    ensures var t := states[|states| - 1];
            var newcomer := RawAddress(MAX_PAIRED);
            && Known(t, newcomer) == None
            && (forall id :: IsValidId(id) ==> id in t.ids)
            && forall s', id :: !AllocateId(t, newcomer, s', id)
  {
    var before, earlier := Fill(MAX_PAIRED);
    var s := before[|before| - 1];
    var t := RenumberFilled(s);
    states, calls := before + [t], earlier + [CallInit(RENUMBERED)];
    forall s', id ensures !AllocateId(t, RawAddress(MAX_PAIRED), s', id) {
      NoIdLeft(t, RawAddress(MAX_PAIRED), s', id);
    }
  }

  lemma RenumberFilled(s: State) returns (t: State)
    requires Filled(s, MAX_PAIRED)
    ensures Step(s, CallInit(RENUMBERED), t) && Known(t, RawAddress(MAX_PAIRED)) == None
    ensures forall id :: IsValidId(id) ==> id in t.ids
  {
    hide Init, ToMap, Filled, Fits, Known;
    t := Init(s, RENUMBERED);
    FilledFits(s, MAX_PAIRED, RENUMBERED, MAX_PAIRED);
    RenumberedIds(s);
    NewcomerUnknown(s);
    FilledIsClosed(s, MAX_PAIRED);
  }

  lemma FilledIsClosed(s: State, n: nat)
    requires Filled(s, n)
    ensures !s.initialized && WellFormed(s.paired, MAX_PAIRED) && WellFormed(s.temporary, MAX_UNPAIRED)
  {
  }

  lemma RenumberedIds(s: State)
    requires Filled(s, MAX_PAIRED) && Fits(s, RENUMBERED)
    ensures forall id :: IsValidId(id) ==> id in Init(s, RENUMBERED).ids
  {
    hide Init, ToMap, Inv, Fits;
    FilledIsClosed(s, MAX_PAIRED);
    InitMaps(s, RENUMBERED);
    forall id | MAX_PAIRED < id <= MAX_ID ensures id in ToMap(RENUMBERED).Values {
      InMap(RENUMBERED, MAX_ID - id);
    }
  }

  lemma NewcomerUnknown(s: State)
    requires Filled(s, MAX_PAIRED) && Fits(s, RENUMBERED)
    ensures Known(Init(s, RENUMBERED), RawAddress(MAX_PAIRED)) == None
  {
    hide Init, ToMap, Inv, Fits, Known;
    var newcomer := RawAddress(MAX_PAIRED);
    FilledIsClosed(s, MAX_PAIRED);
    InitKnown(s, RENUMBERED);
    KnownIsMap(Init(s, RENUMBERED), newcomer);
    assert Index(RENUMBERED, newcomer) == MAX_PAIRED;
    NoTemporary(s);
  }

  lemma NoTemporary(s: State)
    requires s.temporary == []
    ensures KnownMap(s) == ToMap(s.paired)
  {
  }

  lemma NoIdLeft(t: State, a: RawAddress, s': State, id: int)
    requires Known(t, a) == None && forall id :: IsValidId(id) ==> id in t.ids
    ensures !AllocateId(t, a, s', id)
  {
    hide ToMap, AllocateNew;
  }
}
