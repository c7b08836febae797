/** Dependency-ordered start and reverse-order stop of ModuleRegistry (system/gd/module.cc), on
    values. `deps` is what each module's ListDependencies lists. */
module ModuleSpec {
  datatype Factory = Factory(id: nat)

  type Deps = Factory -> seq<Factory>

  /** The calls made on module instances, in the order they happen. */
  datatype Event = Construct(f: Factory) | Start(f: Factory) | Stop(f: Factory) | Delete(f: Factory)

  /** start_order_, and every call made so far. */
  datatype Registry = Registry(order: seq<Factory>, log: seq<Event>)

  /** `universe` is closed under dependencies and `rank` decreases along them, which is what makes
      the recursion of Start end. */
  ghost predicate Ranked(deps: Deps, rank: Factory -> nat, universe: iset<Factory>) {
    forall f, d :: f in universe && d in deps(f) ==> d in universe && rank(d) < rank(f)
  }

  ghost predicate AllIn(fs: seq<Factory>, universe: iset<Factory>) {
    forall f :: f in fs ==> f in universe
  }

  // ----- Start

  ghost function StartOne(deps: Deps, rank: Factory -> nat, universe: iset<Factory>, r: Registry, f: Factory): Registry
    requires Ranked(deps, rank, universe) && f in universe
    decreases rank(f), 1, 0
  {
    if f in r.order then r
    else
      var r1 := StartList(deps, rank, universe, r.(log := r.log + [Construct(f)]), deps(f), rank(f));
      Registry(r1.order + [f], r1.log + [Start(f)])
  }

  ghost function StartList(deps: Deps, rank: Factory -> nat, universe: iset<Factory>, r: Registry,
                           fs: seq<Factory>, bound: nat): Registry
    requires Ranked(deps, rank, universe) && AllIn(fs, universe)
    requires forall f :: f in fs ==> rank(f) < bound
    decreases bound, 0, |fs|
  {
    if fs == [] then r
    else StartList(deps, rank, universe, StartOne(deps, rank, universe, r, fs[0]), fs[1..], bound)
  }

  // ----- what a started registry satisfies

  ghost predicate NoDuplicates<T>(s: seq<T>) {
    forall i, j :: 0 <= i < j < |s| ==> s[i] != s[j]
  }

  /** Every dependency stands before the modules that depend on it. */
  ghost predicate DependenciesFirst(deps: Deps, order: seq<Factory>) {
    forall i, d :: 0 <= i < |order| && d in deps(order[i]) ==> d in order[..i]
  }

  ghost predicate Ordered(deps: Deps, order: seq<Factory>) {
    NoDuplicates(order) && DependenciesFirst(deps, order)
  }

  /** A chain of dependencies. */
  ghost predicate IsPath(deps: Deps, p: seq<Factory>) {
    p != [] && forall i :: 0 <= i < |p| - 1 ==> p[i + 1] in deps(p[i])
  }

  ghost predicate PathFromTo(deps: Deps, p: seq<Factory>, f: Factory, g: Factory) {
    IsPath(deps, p) && p[0] == f && p[|p| - 1] == g
  }

  ghost predicate Reachable(deps: Deps, f: Factory, g: Factory) {
    exists p :: PathFromTo(deps, p, f, g)
  }

  ghost predicate ReachableFromAny(deps: Deps, fs: seq<Factory>, g: Factory) {
    exists f :: f in fs && Reachable(deps, f, g)
  }

  /** What starting `requested` may do: append, in dependency order, the modules it reaches that were
      not started yet, constructing and starting each of those once and no other. */
  ghost predicate Extends(deps: Deps, r: Registry, requested: seq<Factory>, r': Registry) {
    && r.order <= r'.order && r.log <= r'.log
    && Ordered(deps, r'.order)
    && (forall f :: f in requested ==> f in r'.order)
    && (forall g :: g in r'.order[|r.order|..] ==> ReachableFromAny(deps, requested, g))
    && StartsOf(r'.log[|r.log|..]) == r'.order[|r.order|..]
    && ConstructedFirst(r'.log[|r.log|..])
    && multiset(ConstructsOf(r'.log[|r.log|..])) == multiset(r'.order[|r.order|..])
  }

  /** No module is started before it is constructed. */
  ghost predicate ConstructedFirst(log: seq<Event>) {
    forall i :: 0 <= i < |log| && log[i].Start? ==> Construct(log[i].f) in log[..i]
  }

  lemma ConstructedFirstAppend(a: seq<Event>, b: seq<Event>)
    requires ConstructedFirst(a) && ConstructedFirst(b)
    ensures ConstructedFirst(a + b)
  {
    var c := a + b;
    forall i | 0 <= i < |c| && c[i].Start? ensures Construct(c[i].f) in c[..i] {
      if i < |a| {
        assert c[..i] == a[..i];
      } else {
        assert c[..i] == a + b[..i - |a|];
        assert b[i - |a|] == c[i];
      }
    }
  }

  lemma ConstructedFirstBracket(f: Factory, log: seq<Event>)
    requires ConstructedFirst(log)
    ensures ConstructedFirst([Construct(f)] + log + [Start(f)])
  {
    ConstructedFirstAppend([Construct(f)], log);
    var c := [Construct(f)] + log;
    forall i | 0 <= i < |c + [Start(f)]| && (c + [Start(f)])[i].Start?
      ensures Construct((c + [Start(f)])[i].f) in (c + [Start(f)])[..i]
    {
      if i < |c| {
        assert (c + [Start(f)])[..i] == c[..i];
      } else {
        assert (c + [Start(f)])[..i] == c && c[0] == Construct(f);
      }
    }
  }

  function StartsOf(log: seq<Event>): seq<Factory> {
    if log == [] then []
    else (if log[0].Start? then [log[0].f] else []) + StartsOf(log[1..])
  }

  function ConstructsOf(log: seq<Event>): seq<Factory> {
    if log == [] then []
    else (if log[0].Construct? then [log[0].f] else []) + ConstructsOf(log[1..])
  }

  lemma {:induction false} StartsAppend(a: seq<Event>, b: seq<Event>)
    ensures StartsOf(a + b) == StartsOf(a) + StartsOf(b)
  {
    if a == [] {
      assert a + b == b;
    } else {
      StartsAppend(a[1..], b);
      assert (a + b)[0] == a[0] && (a + b)[1..] == a[1..] + b;
      var x, y, z := if a[0].Start? then [a[0].f] else [], StartsOf(a[1..]), StartsOf(b);
      assert x + (y + z) == (x + y) + z;
    }
  }

  lemma {:induction false} ConstructsAppend(a: seq<Event>, b: seq<Event>)
    ensures ConstructsOf(a + b) == ConstructsOf(a) + ConstructsOf(b)
  {
    if a == [] {
      assert a + b == b;
    } else {
      ConstructsAppend(a[1..], b);
      assert (a + b)[0] == a[0] && (a + b)[1..] == a[1..] + b;
      var x, y, z := if a[0].Construct? then [a[0].f] else [], ConstructsOf(a[1..]), ConstructsOf(b);
      assert x + (y + z) == (x + y) + z;
    }
  }

  lemma DependenciesFirstAppend(deps: Deps, order: seq<Factory>, f: Factory)
    requires DependenciesFirst(deps, order)
    requires forall d :: d in deps(f) ==> d in order
    ensures DependenciesFirst(deps, order + [f])
  {
    var o := order + [f];
    forall i, d | 0 <= i < |o| && d in deps(o[i]) ensures d in o[..i] {
      assert o[..i] == if i < |order| then order[..i] else order;
    }
  }

  lemma OrderedAppend(deps: Deps, order: seq<Factory>, f: Factory)
    requires Ordered(deps, order) && f !in order
    requires forall d :: d in deps(f) ==> d in order
    ensures Ordered(deps, order + [f])
  {
    DependenciesFirstAppend(deps, order, f);
  }

  lemma ReachSelf(deps: Deps, f: Factory)
    ensures Reachable(deps, f, f)
  {
    assert PathFromTo(deps, [f], f, f);
  }

  lemma ReachStep(deps: Deps, f: Factory, d: Factory, g: Factory)
    requires d in deps(f) && Reachable(deps, d, g)
    ensures Reachable(deps, f, g)
  {
    var p :| PathFromTo(deps, p, d, g);
    assert PathFromTo(deps, [f] + p, f, g);
  }

  lemma ExtendsTrans(deps: Deps, r: Registry, a: seq<Factory>, r1: Registry, b: seq<Factory>, r2: Registry)
    requires Extends(deps, r, a, r1) && Extends(deps, r1, b, r2)
    ensures Extends(deps, r, a + b, r2)
  {
    hide StartsOf, ConstructsOf, ConstructedFirst, Reachable, Ordered;
    var o1, o2 := r1.order[|r.order|..], r2.order[|r1.order|..];
    var l1, l2 := r1.log[|r.log|..], r2.log[|r1.log|..];
    assert r2.order[|r.order|..] == o1 + o2;
    assert r2.log[|r.log|..] == l1 + l2;
    StartsAppend(l1, l2);
    ConstructsAppend(l1, l2);
    ConstructedFirstAppend(l1, l2);
    forall g | g in r2.order[|r.order|..] ensures ReachableFromAny(deps, a + b, g) {
      if g in o1 {
        var f :| f in a && Reachable(deps, f, g);
        assert f in a + b;
      } else {
        var f :| f in b && Reachable(deps, f, g);
        assert f in a + b;
      }
    }
  }

  // ----- StopAll

  /** The Stop calls of the first loop: once per module, in reverse order of start. */
  function StopEvents(order: seq<Factory>): seq<Event> {
    if order == [] then []
    else [Stop(order[|order| - 1])] + StopEvents(order[..|order| - 1])
  }

  /** The deletions of the second loop. */
  function DeleteEvents(order: seq<Factory>): seq<Event> {
    if order == [] then []
    else [Delete(order[|order| - 1])] + DeleteEvents(order[..|order| - 1])
  }

  /** What the calls added by StopAll must be: each started module is stopped once and deleted once and
      nothing else happens, no module is deleted before all are stopped, and when a module is stopped
      none of its dependencies has been stopped or deleted. */
  ghost predicate TornDown(deps: Deps, order: seq<Factory>, added: seq<Event>) {
    && NoDuplicates(added)
    && (forall e :: e in added ==> e.f in order && (e.Stop? || e.Delete?))
    && (forall f :: f in order ==> Stop(f) in added && Delete(f) in added)
    && (forall i, j :: 0 <= i < |added| && 0 <= j < |added| && added[i].Stop? && added[j].Delete? ==> i < j)
    && (forall i, d :: 0 <= i < |added| && added[i].Stop? && d in deps(added[i].f) ==>
          Stop(d) !in added[..i] && Delete(d) !in added[..i])
  }

  function StopAll(r: Registry): Registry {
    Registry([], r.log + StopEvents(r.order) + DeleteEvents(r.order))
  }

  // ----- GetDependency

  /** NotListed and NotStarted are the two failing assertions. */
  datatype Lookup<+T> = Found(instance: T) | NotListed | NotStarted

  function GetDependency<T>(started: map<Factory, T>, listed: seq<Factory>, d: Factory): Lookup<T> {
    if d !in listed then NotListed
    else if d in started then Found(started[d])
    else NotStarted
  }
}
