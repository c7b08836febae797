/** Proofs about the module registry: what Start starts and in which order, when it returns at all,
    and what StopAll does to whom. */
module ModuleProofs {
  import opened Wrappers
  import opened ModuleSpec

  // ----- Start

  lemma {:induction false} PathRank(deps: Deps, rank: Factory -> nat, universe: iset<Factory>, p: seq<Factory>)
    requires Ranked(deps, rank, universe) && IsPath(deps, p) && p[0] in universe
    ensures rank(p[|p| - 1]) <= rank(p[0]) && p[|p| - 1] in universe
  {
    if |p| > 1 {
      assert p[1] in deps(p[0]);
      forall i | 0 <= i < |p| - 2 ensures p[1..][i + 1] in deps(p[1..][i]) {
        assert p[i + 2] in deps(p[i + 1]);
      }
      PathRank(deps, rank, universe, p[1..]);
    }
  }

  lemma StartedIsNotBelow(deps: Deps, rank: Factory -> nat, universe: iset<Factory>, f: Factory)
    requires Ranked(deps, rank, universe) && f in universe
    ensures !ReachableFromAny(deps, deps(f), f)
  {
    forall d | d in deps(f) ensures !Reachable(deps, d, f) {
      forall p ensures !PathFromTo(deps, p, d, f) {
        if PathFromTo(deps, p, d, f) {
          PathRank(deps, rank, universe, p);
          assert false;
        }
      }
    }
  }

  /** The tail of StartOne, once the dependencies are up. */
  lemma StartTail(deps: Deps, r: Registry, f: Factory, r1: Registry)
    requires f !in r1.order
    requires Extends(deps, r.(log := r.log + [Construct(f)]), deps(f), r1)
    ensures Extends(deps, r, [f], Registry(r1.order + [f], r1.log + [Start(f)]))
  {
    hide Ordered, StartsOf, ConstructsOf, ConstructedFirst, Reachable;
    var r' := Registry(r1.order + [f], r1.log + [Start(f)]);
    var o1, l1 := r1.order[|r.order|..], r1.log[|r.log| + 1..];
    OrderedAppend(deps, r1.order, f);
    assert r'.order[|r.order|..] == o1 + [f];
    assert r'.log[|r.log|..] == [Construct(f)] + l1 + [Start(f)] by {
      assert r1.log[|r.log|] == Construct(f);
    }
    StartTailLog(f, l1);
    ConstructedFirstBracket(f, l1);
    forall g | g in o1 + [f] ensures ReachableFromAny(deps, [f], g) {
      assert f in [f];
      if g == f {
        ReachSelf(deps, f);
      } else {
        var d :| d in deps(f) && Reachable(deps, d, g);
        ReachStep(deps, f, d, g);
      }
    }
  }

  lemma StartTailLog(f: Factory, l: seq<Event>)
    ensures StartsOf([Construct(f)] + l + [Start(f)]) == StartsOf(l) + [f]
    ensures ConstructsOf([Construct(f)] + l + [Start(f)]) == [f] + ConstructsOf(l)
  {
    StartsAppend([Construct(f)] + l, [Start(f)]);
    StartsAppend([Construct(f)], l);
    ConstructsAppend([Construct(f)] + l, [Start(f)]);
    ConstructsAppend([Construct(f)], l);
  }

  lemma {:induction false} StartOneExtends(deps: Deps, rank: Factory -> nat, universe: iset<Factory>,
                                           r: Registry, f: Factory)
    requires Ranked(deps, rank, universe) && f in universe && Ordered(deps, r.order)
    ensures Extends(deps, r, [f], StartOne(deps, rank, universe, r, f))
    decreases rank(f), 1, 0
  {
    if f !in r.order {
      var r0 := r.(log := r.log + [Construct(f)]);
      StartListExtends(deps, rank, universe, r0, deps(f), rank(f));
      var r1 := StartList(deps, rank, universe, r0, deps(f), rank(f));
      StartedIsNotBelow(deps, rank, universe, f);
      assert r1.order == r.order + r1.order[|r.order|..];
      StartTail(deps, r, f, r1);
    }
  }

  lemma ExtendsNothing(deps: Deps, r: Registry)
    requires Ordered(deps, r.order)
    ensures Extends(deps, r, [], r)
  {
  }

  lemma ExtendsOrdered(deps: Deps, r: Registry, requested: seq<Factory>, r': Registry)
    requires Extends(deps, r, requested, r')
    ensures Ordered(deps, r'.order)
  {
  }

  /** Start(ModuleList): the reachable modules that were not started, each constructed and started
      once, dependencies first. */
  lemma {:induction false} StartListExtends(deps: Deps, rank: Factory -> nat, universe: iset<Factory>, r: Registry,
                                            fs: seq<Factory>, bound: nat)
    requires Ranked(deps, rank, universe) && AllIn(fs, universe) && Ordered(deps, r.order)
    requires forall f :: f in fs ==> rank(f) < bound
    ensures Extends(deps, r, fs, StartList(deps, rank, universe, r, fs, bound))
    decreases bound, 0, |fs|
  {
    hide Extends, Ordered;
    if fs == [] {
      ExtendsNothing(deps, r);
    } else {
      var r1 := StartOne(deps, rank, universe, r, fs[0]);
      StartOneExtends(deps, rank, universe, r, fs[0]);
      ExtendsOrdered(deps, r, [fs[0]], r1);
      StartListExtends(deps, rank, universe, r1, fs[1..], bound);
      ExtendsTrans(deps, r, [fs[0]], r1, fs[1..], StartList(deps, rank, universe, r1, fs[1..], bound));
      assert [fs[0]] + fs[1..] == fs;
    }
  }

  lemma {:induction false} ClosedUnderPaths(deps: Deps, order: seq<Factory>, p: seq<Factory>)
    requires DependenciesFirst(deps, order) && IsPath(deps, p) && p[0] in order
    ensures p[|p| - 1] in order
  {
    if |p| > 1 {
      var n := |p| - 1;
      ClosedUnderPaths(deps, order, p[..n]);
      var i :| 0 <= i < |order| && order[i] == p[n - 1];
      assert p[n] in order[..i];
    }
  }

  /** Exactly the modules reachable from the request, and those started before, are started. */
  lemma StartsExactlyReachable(deps: Deps, r: Registry, requested: seq<Factory>, r': Registry, g: Factory)
    requires Extends(deps, r, requested, r')
    ensures g in r'.order <==> g in r.order || ReachableFromAny(deps, requested, g)
  {
    assert r'.order == r.order + r'.order[|r.order|..];
    if ReachableFromAny(deps, requested, g) {
      var f :| f in requested && Reachable(deps, f, g);
      var p :| PathFromTo(deps, p, f, g);
      ClosedUnderPaths(deps, r'.order, p);
    }
  }

  // ----- when Start returns

  /** Start with a bound on the depth of the recursion; None when the bound is exceeded. */
  function TryOne(deps: Deps, order: seq<Factory>, f: Factory, depth: nat): Option<seq<Factory>>
    decreases depth, 0
  {
    if f in order then Some(order)
    else if depth == 0 then None
    else
      match TryList(deps, order, deps(f), depth - 1)
      case Some(o) => Some(o + [f])
      case None => None
  }

  function TryList(deps: Deps, order: seq<Factory>, fs: seq<Factory>, depth: nat): Option<seq<Factory>>
    decreases depth, |fs| + 1
  {
    if fs == [] then Some(order)
    else
      match TryOne(deps, order, fs[0], depth)
      case Some(o) => TryList(deps, o, fs[1..], depth)
      case None => None
  }

  ghost predicate Returns(deps: Deps, order: seq<Factory>, f: Factory) {
    exists depth: nat :: TryOne(deps, order, f, depth).Some?
  }

  /** The dependencies reachable from `f` can be ranked: they contain no cycle and no endless chain. */
  ghost predicate Rankable(deps: Deps, f: Factory) {
    exists rank: Factory -> nat, universe: iset<Factory> :: Ranked(deps, rank, universe) && f in universe
  }

  lemma {:induction false} RankedOneReturns(deps: Deps, rank: Factory -> nat, universe: iset<Factory>, r: Registry,
                                            f: Factory, depth: nat)
    requires Ranked(deps, rank, universe) && f in universe && depth > rank(f)
    ensures TryOne(deps, r.order, f, depth) == Some(StartOne(deps, rank, universe, r, f).order)
    decreases depth, 0
  {
    if f !in r.order {
      RankedListReturns(deps, rank, universe, r.(log := r.log + [Construct(f)]), deps(f), rank(f), depth - 1);
    }
  }

  lemma {:induction false} RankedListReturns(deps: Deps, rank: Factory -> nat, universe: iset<Factory>, r: Registry,
                                             fs: seq<Factory>, bound: nat, depth: nat)
    requires Ranked(deps, rank, universe) && AllIn(fs, universe) && depth >= bound
    requires forall f :: f in fs ==> rank(f) < bound
    ensures TryList(deps, r.order, fs, depth) == Some(StartList(deps, rank, universe, r, fs, bound).order)
    decreases depth, |fs| + 1
  {
    if fs != [] {
      RankedOneReturns(deps, rank, universe, r, fs[0], depth);
      RankedListReturns(deps, rank, universe, StartOne(deps, rank, universe, r, fs[0]), fs[1..], bound, depth);
    }
  }

  lemma {:induction false} TryOneOrdered(deps: Deps, order: seq<Factory>, f: Factory, depth: nat)
    requires DependenciesFirst(deps, order) && TryOne(deps, order, f, depth).Some?
    ensures var o := TryOne(deps, order, f, depth).value;
            order <= o && f in o && DependenciesFirst(deps, o)
    decreases depth, 0
  {
    if f !in order {
      TryListOrdered(deps, order, deps(f), depth - 1);
      DependenciesFirstAppend(deps, TryList(deps, order, deps(f), depth - 1).value, f);
    }
  }

  lemma {:induction false} TryListOrdered(deps: Deps, order: seq<Factory>, fs: seq<Factory>, depth: nat)
    requires DependenciesFirst(deps, order) && TryList(deps, order, fs, depth).Some?
    ensures var o := TryList(deps, order, fs, depth).value;
            order <= o && (forall f :: f in fs ==> f in o) && DependenciesFirst(deps, o)
    decreases depth, |fs| + 1
  {
    if fs != [] {
      TryOneOrdered(deps, order, fs[0], depth);
      TryListOrdered(deps, TryOne(deps, order, fs[0], depth).value, fs[1..], depth);
      assert fs == [fs[0]] + fs[1..];
    }
  }

  ghost function FirstIndex(s: seq<Factory>, f: Factory): (i: nat)
    ensures f in s ==> i < |s| && s[i] == f
    ensures f !in s[..if i < |s| then i else |s|]
    ensures forall j :: 0 <= j < |s| && s[j] == f ==> i <= j
  {
    if s == [] || s[0] == f then 0 else 1 + FirstIndex(s[1..], f)
  }

  /** A start order that puts dependencies first is itself a ranking. */
  lemma OrderIsRanking(deps: Deps, order: seq<Factory>)
    requires DependenciesFirst(deps, order)
    ensures Ranked(deps, g => FirstIndex(order, g), iset g | g in order)
  {
    forall f, d | f in order && d in deps(f) ensures d in order && FirstIndex(order, d) < FirstIndex(order, f) {
      var i := FirstIndex(order, f);
      assert d in order[..i];
    }
  }

  /** Start has no cycle check: it returns if and only if the dependencies reachable from the
      request can be ranked. */
  lemma ReturnsIffRankable(deps: Deps, r: Registry, f: Factory)
    requires DependenciesFirst(deps, r.order)
    ensures Returns(deps, r.order, f) <==> Rankable(deps, f)
  {
    if Rankable(deps, f) {
      var rank: Factory -> nat, universe: iset<Factory> :| Ranked(deps, rank, universe) && f in universe;
      RankedOneReturns(deps, rank, universe, r, f, rank(f) + 1);
    }
    if Returns(deps, r.order, f) {
      var depth: nat :| TryOne(deps, r.order, f, depth).Some?;
      TryOneOrdered(deps, r.order, f, depth);
      OrderIsRanking(deps, TryOne(deps, r.order, f, depth).value);
    }
  }

  // ----- when there are finitely many modules

  ghost predicate Closed(deps: Deps, modules: set<Factory>) {
    forall f, d :: f in modules && d in deps(f) ==> d in modules
  }

  /** No module that `f` needs needs itself. */
  ghost predicate Acyclic(deps: Deps, f: Factory) {
    forall g :: Reachable(deps, f, g) ==> !ReachableFromAny(deps, deps(g), g)
  }

  ghost function Needed(deps: Deps, modules: set<Factory>, f: Factory): set<Factory> {
    set g | g in modules && Reachable(deps, f, g)
  }

  lemma ReachTrans(deps: Deps, f: Factory, g: Factory, d: Factory)
    requires Reachable(deps, f, g) && d in deps(g)
    ensures Reachable(deps, f, d)
  {
    var p :| PathFromTo(deps, p, f, g);
    var q := p + [d];
    forall i | 0 <= i < |q| - 1 ensures q[i + 1] in deps(q[i]) {
      assert i < |p| - 1 ==> p[i + 1] in deps(p[i]);
    }
    assert PathFromTo(deps, q, f, d);
  }

  /** Without cycles a module needs strictly more modules than any of its dependencies. */
  lemma NeedsMore(deps: Deps, modules: set<Factory>, f: Factory, d: Factory)
    requires f in modules && d in deps(f) && !ReachableFromAny(deps, deps(f), f)
    ensures |Needed(deps, modules, d)| < |Needed(deps, modules, f)|
  {
    var below, all := Needed(deps, modules, d), Needed(deps, modules, f);
    forall g | g in below ensures g in all {
      ReachStep(deps, f, d, g);
    }
    ReachSelf(deps, f);
    assert f in all && f !in below;
    SmallerSet(below, all, f);
  }

  lemma SmallerSet<T>(a: set<T>, b: set<T>, x: T)
    requires a <= b && x in b && x !in a
    ensures |a| < |b|
  {
    assert b == a + (b - a) && x in b - a;
  }

  lemma AcyclicIsRankable(deps: Deps, modules: set<Factory>, f: Factory)
    requires Closed(deps, modules) && f in modules && Acyclic(deps, f)
    ensures Rankable(deps, f)
  {
    var rank := g => |Needed(deps, modules, g)|;
    var universe := iset g | g in modules && Reachable(deps, f, g);
    forall g, d | g in universe && d in deps(g) ensures d in universe && rank(d) < rank(g) {
      ReachTrans(deps, f, g, d);
      NeedsMore(deps, modules, g, d);
    }
    ReachSelf(deps, f);
    assert Ranked(deps, rank, universe);
  }

  lemma RankableIsAcyclic(deps: Deps, f: Factory)
    requires Rankable(deps, f)
    ensures Acyclic(deps, f)
  {
    var rank: Factory -> nat, universe: iset<Factory> :| Ranked(deps, rank, universe) && f in universe;
    forall g | Reachable(deps, f, g) ensures !ReachableFromAny(deps, deps(g), g) {
      var p :| PathFromTo(deps, p, f, g);
      PathRank(deps, rank, universe, p);
      StartedIsNotBelow(deps, rank, universe, g);
    }
  }

  /** Among finitely many modules, Start returns if and only if no module that the request needs
      depends, directly or not, on itself. */
  lemma ReturnsIffAcyclic(deps: Deps, modules: set<Factory>, r: Registry, f: Factory)
    requires Closed(deps, modules) && f in modules && DependenciesFirst(deps, r.order)
    ensures Returns(deps, r.order, f) <==> Acyclic(deps, f)
  {
    hide Returns, Rankable, Acyclic, DependenciesFirst;
    ReturnsIffRankable(deps, r, f);
    if Acyclic(deps, f) {
      AcyclicIsRankable(deps, modules, f);
    }
    if Rankable(deps, f) {
      RankableIsAcyclic(deps, f);
    }
  }

  /** A module that is reached from its own dependencies is never started, whatever is started. */
  lemma CycleNeverReturns(deps: Deps, r: Registry, f: Factory)
    requires DependenciesFirst(deps, r.order) && ReachableFromAny(deps, deps(f), f)
    ensures !Returns(deps, r.order, f)
  {
    ReachSelf(deps, f);
    if Returns(deps, r.order, f) {
      ReturnsIffRankable(deps, r, f);
      RankableIsAcyclic(deps, f);
      assert false;
    }
  }

  /** Two modules that list each other: starting either of them on a new registry never returns. */
  lemma MutualDependencyNeverReturns()
    ensures var deps := (f: Factory) => if f.id < 2 then [Factory(1 - f.id)] else [];
            !Returns(deps, [], Factory(0)) && !Returns(deps, [], Factory(1))
  {
    var deps := (f: Factory) => if f.id < 2 then [Factory(1 - f.id)] else [];
    forall f: Factory | f.id < 2 ensures !Returns(deps, [], f) {
      var g := Factory(1 - f.id);
      assert g in deps(f) && f in deps(g);
      ReachSelf(deps, f);
      ReachStep(deps, g, f, f);
      assert ReachableFromAny(deps, deps(f), f);
      CycleNeverReturns(deps, Registry([], []), f);
    }
  }

  // ----- StopAll

  lemma {:induction false} StopEventsAt(order: seq<Factory>, k: nat)
    requires k < |order|
    ensures |StopEvents(order)| == |order| && StopEvents(order)[k] == Stop(order[|order| - 1 - k])
  {
    var n := |order| - 1;
    if n > 0 {
      StopEventsAt(order[..n], if k > 0 then k - 1 else 0);
    }
  }

  lemma {:induction false} DeleteEventsAt(order: seq<Factory>, k: nat)
    requires k < |order|
    ensures |DeleteEvents(order)| == |order| && DeleteEvents(order)[k] == Delete(order[|order| - 1 - k])
  {
    var n := |order| - 1;
    if n > 0 {
      DeleteEventsAt(order[..n], if k > 0 then k - 1 else 0);
    }
  }

  lemma StopAllLength(order: seq<Factory>)
    ensures |StopEvents(order)| == |order| && |DeleteEvents(order)| == |order|
  {
    if order != [] {
      StopEventsAt(order, 0);
      DeleteEventsAt(order, 0);
    }
  }

  lemma StopNext(order: seq<Factory>, i: nat)
    requires i < |order|
    ensures StopEvents(order[..i + 1]) == [Stop(order[i])] + StopEvents(order[..i])
  {
    assert order[..i + 1][..i] == order[..i];
  }

  lemma DeleteNext(order: seq<Factory>, i: nat)
    requires i < |order|
    ensures DeleteEvents(order[..i + 1]) == [Delete(order[i])] + DeleteEvents(order[..i])
  {
    assert order[..i + 1][..i] == order[..i];
  }

  lemma StopNone()
    ensures StopEvents([]) == []
  {
  }

  lemma DeleteNone()
    ensures DeleteEvents([]) == []
  {
  }

  lemma PrefixMembers(deps: Deps, order: seq<Factory>, i: nat)
    requires Ordered(deps, order) && i < |order|
    ensures forall f :: f in order[..i] <==> f in order[..i + 1] && f != order[i]
    ensures order[i] in order[..i + 1]
  {
    assert order[..i + 1] == order[..i] + [order[i]];
  }

  function Teardown(order: seq<Factory>): seq<Event> {
    StopEvents(order) + DeleteEvents(order)
  }

  lemma TeardownAt(order: seq<Factory>, i: nat)
    requires i < 2 * |order|
    ensures |Teardown(order)| == 2 * |order|
    ensures var n := |order|;
            Teardown(order)[i] == if i < n then Stop(order[n - 1 - i]) else Delete(order[2 * n - 1 - i])
  {
    var n := |order|;
    StopAllLength(order);
    if i < n {
      StopEventsAt(order, i);
    } else {
      DeleteEventsAt(order, i - n);
    }
  }

  lemma TeardownLength(order: seq<Factory>)
    ensures |Teardown(order)| == 2 * |order|
  {
    StopAllLength(order);
  }

  lemma TeardownOnceEach(order: seq<Factory>)
    requires NoDuplicates(order)
    ensures NoDuplicates(Teardown(order))
    ensures forall f :: f in order ==> Stop(f) in Teardown(order) && Delete(f) in Teardown(order)
  {
    hide StopEvents, DeleteEvents, Teardown;
    var n := |order|;
    var log := Teardown(order);
    TeardownLength(order);
    forall i, j | 0 <= i < j < |log| ensures log[i] != log[j] {
      TeardownAt(order, i);
      TeardownAt(order, j);
    }
    forall f | f in order ensures Stop(f) in log && Delete(f) in log {
      var k :| 0 <= k < n && order[k] == f;
      TeardownAt(order, n - 1 - k);
      TeardownAt(order, 2 * n - 1 - k);
    }
  }

  lemma TeardownKinds(order: seq<Factory>)
    ensures var log := Teardown(order);
            && |log| == 2 * |order|
            && forall i :: 0 <= i < |log| ==>
                 log[i].f in order && (if i < |order| then log[i].Stop? else log[i].Delete?)
  {
    hide StopEvents, DeleteEvents, Teardown;
    TeardownLength(order);
    forall i | 0 <= i < 2 * |order|
      ensures var e := Teardown(order)[i]; e.f in order && (if i < |order| then e.Stop? else e.Delete?)
    {
      TeardownAt(order, i);
    }
  }

  lemma TeardownDependentsFirst(deps: Deps, order: seq<Factory>, i: nat, d: Factory)
    requires Ordered(deps, order) && i < |order| <= |Teardown(order)|
    requires d in deps(Teardown(order)[i].f)
    ensures Stop(d) !in Teardown(order)[..i] && Delete(d) !in Teardown(order)[..i]
  {
    hide StopEvents, DeleteEvents, Teardown;
    var n := |order|;
    TeardownAt(order, i);
    assert d in order[..n - 1 - i];
    var k :| 0 <= k < n - 1 - i && order[k] == d;
    forall j | 0 <= j < i ensures Teardown(order)[j] != Stop(d) && Teardown(order)[j] != Delete(d) {
      TeardownAt(order, j);
    }
  }

  lemma TeardownTearsDown(deps: Deps, order: seq<Factory>)
    requires Ordered(deps, order)
    ensures TornDown(deps, order, Teardown(order))
  {
    hide StopEvents, DeleteEvents, Teardown;
    var log := Teardown(order);
    TeardownOnceEach(order);
    TeardownKinds(order);
    forall i, d | 0 <= i < |log| && log[i].Stop? && d in deps(log[i].f)
      ensures Stop(d) !in log[..i] && Delete(d) !in log[..i]
    {
      TeardownDependentsFirst(deps, order, i, d);
    }
  }

  /** StopAll forgets the start order and adds to the log exactly what tears the started modules down:
      one Stop and one Delete each, all stops before all deletions, dependents before dependencies. */
  lemma StopAllTearsDown(deps: Deps, r: Registry)
    requires Ordered(deps, r.order)
    ensures var r' := StopAll(r);
            r'.order == [] && r.log <= r'.log && TornDown(deps, r.order, r'.log[|r.log|..])
  {
    hide StopEvents, DeleteEvents, TornDown;
    TeardownTearsDown(deps, r.order);
    assert StopAll(r).log == r.log + Teardown(r.order);
  }

  /** A Start that finds the module not started begins with its construction and ends with its start, so
      whatever dependencies it starts are started in between. */
  lemma StartOneBrackets(deps: Deps, rank: Factory -> nat, universe: iset<Factory>, r: Registry, f: Factory)
    requires Ranked(deps, rank, universe) && f in universe && Ordered(deps, r.order)
    ensures var r' := StartOne(deps, rank, universe, r, f);
            && r.log <= r'.log
            && var added := r'.log[|r.log|..];
               if f in r.order then added == []
               else |added| >= 2 && added[0] == Construct(f) && added[|added| - 1] == Start(f)
  {
    if f !in r.order {
      var r0 := r.(log := r.log + [Construct(f)]);
      StartListExtends(deps, rank, universe, r0, deps(f), rank(f));
      var r1 := StartList(deps, rank, universe, r0, deps(f), rank(f));
      assert r1.log[|r.log|] == r0.log[|r.log|];
    }
  }
}
