/** What the timer protocol guarantees, and fails to guarantee, over whole runs. */
module TimerRuns {
  import opened Wrappers
  import opened TimerProtocol
  import opened TimerProofs

  // ----- starting a task

  /** The step takes a callback that gets past RunTask's guard. */
  predicate StartsTask(s: State, step: Step) {
    && step.RunClosure? && step.loop in s.loops && step.index < |s.loops[step.loop].queue|
    && s.loops[step.loop].queue[step.index].Callback?
    && TaskWouldRun(TakeClosure(s, step.loop, step.index), s.loops[step.loop].queue[step.index].gen)
  }

  function StartedGen(s: State, step: Step): nat
    requires StartsTask(s, step)
  {
    s.loops[step.loop].queue[step.index].gen
  }

  /** RunTask runs the closure of its own generation, on the loop that the timer is scheduled on: the
      CHECK_EQ in RunTask cannot fail and task_ is not null. */
  lemma StartedTaskIsCurrent(s: State, step: Step)
    requires Live(s) && Issued(s) && StartsTask(s, step)
    ensures var g := StartedGen(s, step);
            Startable(s, g) && s.thread == Some(step.loop) && s.task == Some(g)
  {
    QueuedAt(s.loops, step.loop, step.index);
    assert LiveAt(s, step.loop, step.index);
  }

  lemma StartsOfStep(s: State, step: Step)
    requires Live(s) && Issued(s) && Enabled(s, step)
    ensures Next(s, step).starts == s.starts + if StartsTask(s, step) then [StartedGen(s, step)] else []
  {
    if StartsTask(s, step) {
      StartedTaskIsCurrent(s, step);
    }
  }

  // ----- the remaining invariants

  lemma KeepsRetired(s: State, step: Step)
    requires Inv(s) && Enabled(s, step)
    ensures RetiredStay(Next(s, step))
  {
    var s' := Next(s, step);
    forall g: nat | Startable(s', g) ensures g >= s'.retired {
      if step.WaitReturns? && s.waiting[step.actor].target.Some? {
        assert g == s.nextGen;
      } else {
        StartableIssued(s, step, g);
        StartableShrinks(s, step, g);
        if step.WaitReturns? {
          ReturnedIsNotStartable(s, step.actor, g);
        }
      }
    }
  }

  lemma StartableIssued(s: State, step: Step, g: nat)
    requires Issued(s) && Enabled(s, step) && Startable(Next(s, step), g)
    requires !(step.WaitReturns? && s.waiting[step.actor].target.Some?)
    ensures g < s.nextGen
  {
  }

  /** When a blocking call returns, nothing scheduled before it was made can start. */
  lemma ReturnedIsNotStartable(s: State, a: Actor, g: nat)
    requires WaitersCovered(s) && Enabled(s, WaitReturns(a)) && Startable(s, g)
    ensures g >= s.waiting[a].floor
  {
    if g < s.waiting[a].floor {
      assert Cancel(s.waiting[a].promise) in s.loops[s.thread.value].queue;
      assert Queued(s.loops, Cancel(s.waiting[a].promise));
      assert false;
    }
  }

  lemma KeepsOnce(s: State, step: Step)
    requires Inv(s) && Enabled(s, step)
    ensures OnceOnly(Next(s, step))
  {
    hide Queued;
    StartsOfStep(s, step);
    KindStays(s, step);
    if s.kind.Once? {
      if StartsTask(s, step) {
        StartedTaskIsCurrent(s, step);
        StartUnarms(s, step);
      } else {
        StartedStaysUnstartable(s, step);
      }
    }
  }

  lemma StartUnarms(s: State, step: Step)
    requires s.kind.Once? && Enabled(s, step) && StartsTask(s, step)
    ensures Next(s, step).wrapper == None
  {
  }

  lemma StartedStaysUnstartable(s: State, step: Step)
    requires Inv(s) && Enabled(s, step) && s.kind.Once?
    ensures forall g: nat :: g in s.starts ==> !Startable(Next(s, step), g)
  {
    hide Next, Startable;
    forall g: nat | g in s.starts ensures !Startable(Next(s, step), g) {
      if Startable(Next(s, step), g) {
        StartableShrinks(s, step, g);
        assert false;
      }
    }
  }

  lemma StepKeeps(s: State, step: Step)
    requires Inv(s) && Enabled(s, step)
    ensures Inv(Next(s, step))
  {
    hide Issued, OneLiveCallback, LiveOnThread, WaitersCovered, RetiredStay, OnceOnly;
    KeepsIssued(s, step);
    KeepsLive(s, step);
    KeepsWaiters(s, step);
    KeepsRetired(s, step);
    KeepsOnce(s, step);
  }

  // ----- runs

  ghost predicate IsRun(kind: Kind, states: seq<State>, steps: seq<Step>) {
    && |states| == |steps| + 1
    && states[0] == Initial(kind)
    && forall i :: 0 <= i < |steps| ==>
         Enabled(states[i], steps[i]) && states[i + 1] == Next(states[i], steps[i])
  }

  lemma {:induction false} RunKeeps(kind: Kind, states: seq<State>, steps: seq<Step>, i: nat)
    requires IsRun(kind, states, steps) && i < |states|
    ensures Inv(states[i]) && states[i].kind == kind
  {
    hide Inv;
    if i == 0 {
      InitialKeeps(kind);
    } else {
      RunKeeps(kind, states, steps, i - 1);
      StepKeeps(states[i - 1], steps[i - 1]);
      KindStays(states[i - 1], steps[i - 1]);
    }
  }

  lemma InitialKeeps(kind: Kind)
    ensures Inv(Initial(kind))
  {
  }

  lemma KindStays(s: State, step: Step)
    requires Enabled(s, step)
    ensures Next(s, step).kind == s.kind && s.retired <= Next(s, step).retired
  {
  }

  /** A returning call retires everything scheduled before it was made. */
  lemma ReturnRetires(s: State, a: Actor)
    requires Enabled(s, WaitReturns(a))
    ensures var w := s.waiting[a];
            var r := Next(s, WaitReturns(a)).retired;
            r >= w.floor || w.target.Some?
    ensures s.waiting[a].target.Some? ==> Next(s, WaitReturns(a)).retired >= s.nextGen
  {
  }

  lemma {:induction false} RetiredGrows(kind: Kind, states: seq<State>, steps: seq<Step>, i: nat, k: nat)
    requires IsRun(kind, states, steps) && i <= k < |states|
    ensures states[i].retired <= states[k].retired
  {
    if i < k {
      RetiredGrows(kind, states, steps, i, k - 1);
      KindStays(states[k - 1], steps[k - 1]);
    }
  }

  /** The step is a blocking call by `a`. */
  predicate BlockingCall(step: Step, a: Actor) {
    (step.CallSchedule? || step.CallCancelAndWait?) && step.actor == a
  }

  lemma WaitingStays(s: State, step: Step, a: Actor)
    requires Enabled(s, step) && a in s.waiting && step != WaitReturns(a)
    ensures a in Next(s, step).waiting && Next(s, step).waiting[a] == s.waiting[a]
  {
  }

  lemma CallFloor(s: State, call: Step, a: Actor)
    requires Enabled(s, call) && BlockingCall(call, a)
    ensures a in Next(s, call).waiting
    ensures Next(s, call).waiting[a].floor == s.nextGen
    ensures Next(s, call).waiting[a].target.Some? <==> call.CallSchedule?
  {
  }

  /** Until it returns, a blocking call waits with what it found when it was made. */
  lemma {:induction false} WaitsSinceCall(kind: Kind, states: seq<State>, steps: seq<Step>, c: nat, i: nat, a: Actor)
    requires IsRun(kind, states, steps) && c < i < |states| && BlockingCall(steps[c], a)
    requires forall m :: c < m < i ==> steps[m] != WaitReturns(a)
    ensures a in states[i].waiting
    ensures states[i].waiting[a].floor == states[c].nextGen
    ensures states[i].waiting[a].target.Some? <==> steps[c].CallSchedule?
  {
    hide Next, Enabled;
    if c + 1 == i {
      CallFloor(states[c], steps[c], a);
    } else {
      WaitsSinceCall(kind, states, steps, c, i - 1, a);
      WaitingStays(states[i - 1], steps[i - 1], a);
    }
  }

  /** Once CancelAndWait or Schedule, called at step `c`, has returned at step `i`, no task scheduled
      before `c` ever starts; after Schedule not even one scheduled before `i` does. */
  lemma NoStaleStart(kind: Kind, states: seq<State>, steps: seq<Step>, c: nat, i: nat, k: nat, a: Actor)
    requires IsRun(kind, states, steps) && c < i < k < |steps|
    requires BlockingCall(steps[c], a) && steps[i] == WaitReturns(a)
    requires forall m :: c < m < i ==> steps[m] != WaitReturns(a)
    requires StartsTask(states[k], steps[k])
    ensures StartedGen(states[k], steps[k]) >= states[c].nextGen
    ensures steps[c].CallSchedule? ==> StartedGen(states[k], steps[k]) >= states[i].nextGen
  {
    hide Next, Enabled, StartsTask, StartedGen;
    WaitsSinceCall(kind, states, steps, c, i, a);
    ReturnBlocksEarlier(kind, states, steps, i, k);
  }

  lemma ReturnBlocksEarlier(kind: Kind, states: seq<State>, steps: seq<Step>, i: nat, k: nat)
    requires IsRun(kind, states, steps) && i < k < |steps|
    requires steps[i].WaitReturns? && StartsTask(states[k], steps[k])
    ensures var w := states[i].waiting[steps[i].actor];
            var g := StartedGen(states[k], steps[k]);
            g >= w.floor && (w.target.Some? ==> g >= states[i].nextGen)
  {
    RunKeeps(kind, states, steps, i);
    RunKeeps(kind, states, steps, k);
    IssuedFloors(states[i], steps[i].actor);
    ReturnRetires(states[i], steps[i].actor);
    RetiredGrows(kind, states, steps, i + 1, k);
    StartedTaskIsCurrent(states[k], steps[k]);
    assert states[k].retired <= StartedGen(states[k], steps[k]);
  }

  /** Each OnceTimer schedule runs its task at most once. */
  lemma OnceRunsAtMostOnce(states: seq<State>, steps: seq<Step>, j: nat, k: nat)
    requires IsRun(Once, states, steps) && j < k < |steps|
    requires StartsTask(states[j], steps[j]) && StartsTask(states[k], steps[k])
    ensures StartedGen(states[j], steps[j]) != StartedGen(states[k], steps[k])
  {
    RunKeeps(Once, states, steps, j);
    RunKeeps(Once, states, steps, k);
    StartsOfStep(states[j], steps[j]);
    StartsGrow(Once, states, steps, j + 1, k);
    StartedTaskIsCurrent(states[k], steps[k]);
    var g := StartedGen(states[j], steps[j]);
    assert states[j + 1].starts[|states[j].starts|] == g;
    assert g in states[k].starts;
  }

  lemma {:induction false} StartsGrow(kind: Kind, states: seq<State>, steps: seq<Step>, i: nat, k: nat)
    requires IsRun(kind, states, steps) && i <= k < |states|
    ensures states[i].starts <= states[k].starts
  {
    if i < k {
      StartsGrow(kind, states, steps, i, k - 1);
      RunKeeps(kind, states, steps, k - 1);
      StartsOfStep(states[k - 1], steps[k - 1]);
    }
  }

  /** In no reachable state are two callbacks of the current generation queued, on any loops. */
  lemma AtMostOneLiveCallback(kind: Kind, states: seq<State>, steps: seq<Step>, k: nat, l: nat, i: nat, m: nat, j: nat)
    requires IsRun(kind, states, steps) && k < |states|
    requires LiveAt(states[k], l, i) && LiveAt(states[k], m, j)
    ensures l == m && i == j
  {
    RunKeeps(kind, states, steps, k);
  }
}
