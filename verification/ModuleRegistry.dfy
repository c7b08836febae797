/** ModuleRegistry of system/gd/module.cc. Handlers, threads and log messages are left out; the
    calls made on module instances are recorded in `log`. */
module ModuleRegistry {
  import opened ModuleSpec
  import opened ModuleProofs

  /** A constructed module: its factory and the list its ListDependencies filled in. */
  datatype Module = Module(factory: Factory, dependencies: seq<Factory>)

  class Registry {
    const deps: Deps
    var startedModules: map<Factory, Module>
    var startOrder: seq<Factory>
    ghost var log: seq<Event>

    ghost predicate Valid()
      reads this
    {
      && Ordered(deps, startOrder)
      && (forall f :: f in startedModules <==> f in startOrder)
      && (forall f :: f in startedModules ==> startedModules[f] == Module(f, deps(f)))
    }

    ghost function View(): ModuleSpec.Registry
      reads this
    {
      ModuleSpec.Registry(startOrder, log)
    }

    constructor (deps: Deps)
      ensures Valid() && this.deps == deps && View() == ModuleSpec.Registry([], [])
    {
      this.deps := deps;
      startedModules, startOrder, log := map[], [], [];
    }

    /** Module::GetDependency and ModuleRegistry::Get. */
    method GetDependency(instance: Module, d: Factory) returns (found: Lookup<Module>)
      ensures found == ModuleSpec.GetDependency(startedModules, instance.dependencies, d)
      ensures found.NotListed? <==> d !in instance.dependencies
      ensures found.Found? <==> d in instance.dependencies && d in startedModules
      ensures found.Found? ==> found.instance == startedModules[d]
    {
      for i := 0 to |instance.dependencies|
        invariant d !in instance.dependencies[..i]
      {
        if instance.dependencies[i] == d {
          return if d in startedModules then Found(startedModules[d]) else NotStarted;
        }
      }
      found := NotListed;
    }

    /** All listed lookups of `instance` succeed. */
    ghost predicate CanReachDependencies(instance: Module)
      reads this
    {
      forall d :: d in instance.dependencies ==>
        ModuleSpec.GetDependency(startedModules, instance.dependencies, d).Found?
    }

    /** Module::Start and Module::Stop may use every listed dependency. */
    method CallStart(instance: Module)
      requires CanReachDependencies(instance)
      modifies this`log
      ensures log == old(log) + [Start(instance.factory)]
    {
      log := log + [Start(instance.factory)];
    }

    method CallStop(instance: Module)
      requires CanReachDependencies(instance)
      modifies this`log
      ensures log == old(log) + [Stop(instance.factory)]
    {
      log := log + [Stop(instance.factory)];
    }

    method StartModule(f: Factory, ghost rank: Factory -> nat, ghost universe: iset<Factory>) returns (instance: Module)
      requires Valid() && Ranked(deps, rank, universe) && f in universe
      modifies this
      ensures Valid() && f in startedModules && instance == startedModules[f]
      ensures View() == StartOne(deps, rank, universe, old(View()), f)
      decreases rank(f), 1, 0
    {
      hide Ordered, StartsOf, ConstructsOf, ConstructedFirst, ReachableFromAny;
      StartOneExtends(deps, rank, universe, View(), f);
      if f in startedModules {
        return startedModules[f];
      }
      log := log + [Construct(f)];
      instance := Module(f, deps(f));
      StartListExtends(deps, rank, universe, View(), deps(f), rank(f));
      StartModules(deps(f), rank, universe, rank(f));
      CallStart(instance);
      startOrder := startOrder + [f];
      startedModules := startedModules[f := instance];
    }

    method StartModules(fs: seq<Factory>, ghost rank: Factory -> nat, ghost universe: iset<Factory>, ghost bound: nat)
      requires Valid() && Ranked(deps, rank, universe) && AllIn(fs, universe)
      requires forall f :: f in fs ==> rank(f) < bound
      modifies this
      ensures Valid()
      ensures View() == StartList(deps, rank, universe, old(View()), fs, bound)
      decreases bound, 0, |fs|
    {
      var i := 0;
      while i < |fs|
        invariant 0 <= i <= |fs| && Valid()
        invariant StartList(deps, rank, universe, old(View()), fs, bound) ==
                  StartList(deps, rank, universe, View(), fs[i..], bound)
      {
        assert fs[i..][0] == fs[i] && fs[i..][1..] == fs[i + 1..];
        var instance := StartModule(fs[i], rank, universe);
        i := i + 1;
      }
    }

    method StopModules()
      requires Valid()
      modifies this`log
      ensures log == old(log) + StopEvents(startOrder)
    {
      hide Ordered, StopEvents;
      var i := |startOrder|;
      assert startOrder[..i] == startOrder;
      while i > 0
        invariant 0 <= i <= |startOrder|
        invariant old(log) + StopEvents(startOrder) == log + StopEvents(startOrder[..i])
      {
        i := i - 1;
        StopNext(startOrder, i);
        var f := startOrder[i];
        assert f in startedModules;
        StartedReachesDependencies(f);
        CallStop(startedModules[f]);
      }
      StopNone();
    }

    lemma StartedReachesDependencies(f: Factory)
      requires Valid() && f in startedModules
      ensures CanReachDependencies(startedModules[f])
    {
      var i :| 0 <= i < |startOrder| && startOrder[i] == f;
      assert forall d :: d in deps(f) ==> d in startOrder[..i];
    }

    method DeleteModules()
      requires Valid()
      modifies this`startedModules, this`log
      ensures startedModules == map[]
      ensures log == old(log) + DeleteEvents(startOrder)
    {
      hide Ordered, DeleteEvents;
      var i := |startOrder|;
      assert startOrder[..i] == startOrder;
      while i > 0
        invariant 0 <= i <= |startOrder|
        invariant forall f :: f in startedModules <==> f in startOrder[..i]
        invariant old(log) + DeleteEvents(startOrder) == log + DeleteEvents(startOrder[..i])
      {
        i := i - 1;
        DeleteNext(startOrder, i);
        PrefixMembers(deps, startOrder, i);
        assert startOrder[i] in startedModules;
        log := log + [Delete(startOrder[i])];
        startedModules := startedModules - {startOrder[i]};
      }
      DeleteNone();
    }

    method StopAll()
      requires Valid()
      modifies this
      ensures Valid() && startedModules == map[]
      ensures View() == ModuleSpec.StopAll(old(View()))
      ensures startOrder == [] && old(log) <= log && TornDown(deps, old(startOrder), log[|old(log)|..])
    {
      hide TornDown, StopEvents, DeleteEvents;
      StopAllTearsDown(deps, View());
      StopModules();
      DeleteModules();
      assert startedModules == map[];
      startOrder := [];
    }
  }
}
