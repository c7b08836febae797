/** What each call on a timer, and each closure a loop takes, brings about. */
module TimerCalls {
  import opened TimerProofs
  import opened TimerProtocol
  import opened TimerRuns
  import opened Wrappers

  // ----- Cancel

  /** The timer is scheduled on a live loop that is not the caller's own. */
  predicate ScheduledElsewhere(s: State, a: Actor) {
    s.thread.Some? && a != OnLoop(s.thread.value) && Alive(s.loops, s.thread.value)
  }

  /** Cancel posts a closure with a promise that no closure had before to the scheduled loop, or, when
      there is no other live loop to post to, leaves nothing that can start. */
  lemma CancelActs(s: State, a: Actor)
    requires Inv(s) && Enabled(s, CallCancel(a))
    ensures !Queued(s.loops, Cancel(s.nextPromise))
    ensures var s' := Next(s, CallCancel(a));
            if ScheduledElsewhere(s, a) then
              var l := s.thread.value;
              l in s'.loops && s'.loops[l].queue == s.loops[l].queue + [Cancel(s.nextPromise)]
            else
              !Queued(s'.loops, Cancel(s.nextPromise)) && forall g: nat :: !Startable(s', g)
  {
    InvParts(s);
    StepKeeps(s, CallCancel(a));
    var s' := Next(s, CallCancel(a));
    InvParts(s');
    forall g: nat ensures Startable(s', g) ==> Alive(s'.loops, s'.thread.value) {
      if Startable(s', g) {
        StartableOnThread(s', g);
      }
    }
  }

  lemma {:induction false} CoveredSince(kind: Kind, states: seq<State>, steps: seq<Step>, i: nat, k: nat, w: Waiting)
    requires IsRun(kind, states, steps) && i <= k < |states|
    requires Covered(states[i], w) && w.floor <= states[i].nextGen
    ensures Covered(states[k], w) && w.floor <= states[k].nextGen
  {
    hide Covered, Next, Enabled, Inv;
    if i < k {
      CoveredSince(kind, states, steps, i, k - 1, w);
      RunKeeps(kind, states, steps, k - 1);
      InvParts(states[k - 1]);
      StaysCovered(states[k - 1], steps[k - 1], w);
      GenGrows(states[k - 1], steps[k - 1]);
    }
  }

  lemma GenGrows(s: State, step: Step)
    requires Enabled(s, step)
    ensures s.nextGen <= Next(s, step).nextGen
  {
  }

  lemma {:induction false} DeadStays(kind: Kind, states: seq<State>, steps: seq<Step>, i: nat, k: nat, g: nat)
    requires IsRun(kind, states, steps) && i <= k < |states|
    requires g < states[i].nextGen && !Startable(states[i], g)
    ensures g < states[k].nextGen && !Startable(states[k], g)
  {
    hide Startable, Next, Enabled;
    if i < k {
      DeadStays(kind, states, steps, i, k - 1, g);
      GenGrows(states[k - 1], steps[k - 1]);
      if Startable(states[k], g) {
        StartableShrinks(states[k - 1], steps[k - 1], g);
      }
    }
  }

  lemma UncoveredIsDead(s: State, w: Waiting, g: nat)
    requires Covered(s, w) && g < w.floor && !Queued(s.loops, Cancel(w.promise))
    ensures !Startable(s, g)
  {
    assert forall l: nat :: l in s.loops ==> Cancel(w.promise) !in s.loops[l].queue;
  }

  /** Once the closure that a Cancel, called at step `c`, posted has been taken or dropped, or at once
      if it posted none, nothing scheduled before `c` ever starts. */
  lemma CancelStopsEarlier(kind: Kind, states: seq<State>, steps: seq<Step>, c: nat, j: nat, k: nat, a: Actor)
    requires IsRun(kind, states, steps) && c < j <= k < |steps| && steps[c] == CallCancel(a)
    requires !Queued(states[j].loops, Cancel(states[c].nextPromise))
    requires StartsTask(states[k], steps[k])
    ensures StartedGen(states[k], steps[k]) >= states[c].nextGen
  {
    hide Covered, Startable, Queued, StartsTask, StartedGen, Inv;
    var s, g := states[c], StartedGen(states[k], steps[k]);
    var w := Waiting(s.nextPromise, s.nextGen, None);
    RunKeeps(kind, states, steps, c);
    InvParts(s);
    NewWaiterCovered(s, a, None);
    GenGrows(s, steps[c]);
    CoveredSince(kind, states, steps, c + 1, j, w);
    RunKeeps(kind, states, steps, k);
    InvParts(states[k]);
    StartedTaskIsCurrent(states[k], steps[k]);
    if g < s.nextGen {
      UncoveredIsDead(states[j], w, g);
      DeadStays(kind, states, steps, j, k, g);
    }
  }

  /** The two ways in which a Cancel at step `c` takes effect. */
  lemma CancelTakesEffect(kind: Kind, states: seq<State>, steps: seq<Step>, c: nat, k: nat, a: Actor)
    requires IsRun(kind, states, steps) && c < k < |steps| && steps[c] == CallCancel(a)
    requires StartsTask(states[k], steps[k]) && StartedGen(states[k], steps[k]) < states[c].nextGen
    ensures ScheduledElsewhere(states[c], a)
    ensures var l, p := states[c].thread.value, states[c].nextPromise;
            l in states[c + 1].loops && Cancel(p) in states[c + 1].loops[l].queue
    ensures forall j :: c < j <= k ==> Queued(states[j].loops, Cancel(states[c].nextPromise))
  {
    hide Queued, Startable, StartsTask, StartedGen, Inv;
    var s := states[c];
    RunKeeps(kind, states, steps, c);
    CancelActs(s, a);
    forall j | c < j <= k ensures Queued(states[j].loops, Cancel(s.nextPromise)) {
      if !Queued(states[j].loops, Cancel(s.nextPromise)) {
        CancelStopsEarlier(kind, states, steps, c, j, k, a);
      }
    }
    assert Queued(states[c + 1].loops, Cancel(s.nextPromise));
    if ScheduledElsewhere(s, a) {
      var q := s.loops[s.thread.value].queue;
      assert (q + [Cancel(s.nextPromise)])[|q|] == Cancel(s.nextPromise);
    }
  }

  /** Taking a cancel closure leaves the timer without a thread and with nothing that can start. */
  lemma CancelClosureUnschedules(s: State, l: nat, i: nat)
    requires Enabled(s, RunClosure(l, i)) && s.loops[l].queue[i].Cancel?
    ensures Next(s, RunClosure(l, i)).thread == None
    ensures forall g: nat :: !Startable(Next(s, RunClosure(l, i)), g)
  {
  }

  // ----- Schedule

  /** When Schedule returns, the new closure is armed on the loop given and nowhere else if that loop
      is alive; otherwise the timer is not scheduled at all. */
  lemma ScheduleArms(s: State, a: Actor)
    requires Inv(s) && Enabled(s, WaitReturns(a)) && s.waiting[a].target.Some?
    ensures var s', g, t := Next(s, WaitReturns(a)), s.nextGen, s.waiting[a].target.value;
            && s'.nextGen == g + 1
            && (forall h: nat :: Startable(s', h) <==> h == g && Alive(s.loops, t))
            && s'.thread == (if Alive(s.loops, t) then Some(t) else None)
            && (Alive(s.loops, t) ==> t in s'.loops && s'.loops[t].queue == s.loops[t].queue + [Callback(g)])
  {
    var s', t := Next(s, WaitReturns(a)), s.waiting[a].target.value;
    if Alive(s.loops, t) {
      var q := s.loops[t].queue;
      assert s'.loops[t].queue[|q|] == Callback(s.nextGen);
      assert Queued(s'.loops, Callback(s.nextGen));
    }
  }

  // ----- firing

  lemma TakenIsQueued(s: State, l: nat, i: nat)
    requires l in s.loops && i < |s.loops[l].queue|
    ensures Queued(s.loops, s.loops[l].queue[i])
  {
  }

  /** A callback that a loop takes starts its closure exactly when it is armed. */
  lemma FiresIffArmed(s: State, l: nat, i: nat)
    requires Inv(s) && Enabled(s, RunClosure(l, i))
    ensures StartsTask(s, RunClosure(l, i)) <==>
            s.loops[l].queue[i].Callback? && Startable(s, s.loops[l].queue[i].gen)
  {
    InvParts(s);
    TakenIsQueued(s, l, i);
    if s.loops[l].queue[i].Callback? && Startable(s, s.loops[l].queue[i].gen) {
      StartableOnThread(s, s.loops[l].queue[i].gen);
    }
  }

  /** The closure that starts is the armed one, it runs on the loop that took it, and a repeating timer
      stays armed while a one-shot timer does not. */
  lemma FiringActs(s: State, l: nat, i: nat)
    requires Inv(s) && Enabled(s, RunClosure(l, i)) && StartsTask(s, RunClosure(l, i))
    ensures var s', g := Next(s, RunClosure(l, i)), StartedGen(s, RunClosure(l, i));
            && s'.starts == s.starts + [g]
            && l in s'.loops && s'.loops[l].running == Some(g)
            && (Startable(s', g) <==> s.kind.Repeating?)
  {
    InvParts(s);
    StartedTaskIsCurrent(s, RunClosure(l, i));
    StartsOfStep(s, RunClosure(l, i));
    if s.kind.Repeating? {
      var g := StartedGen(s, RunClosure(l, i));
      var q := TakeClosure(s, l, i).loops[l].queue;
      assert (q + [Callback(g)])[|q|] == Callback(g);
      assert Callback(g) in Next(s, RunClosure(l, i)).loops[l].queue;
    }
  }

  /** When the scheduled thread object goes away the timer is not scheduled any more. */
  lemma DestroyedThreadUnschedules(s: State, l: nat)
    requires Enabled(s, ThreadDestroyed(l))
    ensures var s' := Next(s, ThreadDestroyed(l));
            && s'.thread == (if s.thread == Some(l) then None else s.thread)
            && (s.thread == Some(l) ==> forall g: nat :: !Startable(s', g))
  {
  }

  // ----- the API mutex

  /** Whoever is inside Schedule holds the mutex. */
  ghost predicate SchedulersHoldLock(s: State) {
    forall a :: a in s.waiting && s.waiting[a].target.Some? ==> s.lock == Some(a)
  }

  lemma LockStep(s: State, step: Step, a: Actor)
    requires SchedulersHoldLock(s) && Enabled(s, step)
    ensures SchedulersHoldLock(Next(s, step))
    ensures s.lock == Some(a) && a in s.waiting && s.waiting[a].target.Some? && step != WaitReturns(a) ==>
              Next(s, step).lock == Some(a) && a in Next(s, step).waiting && Next(s, step).waiting[a] == s.waiting[a]
    ensures step.CallSchedule? ==> Next(s, step).lock == Some(step.actor)
  {
  }

  lemma {:induction false} RunHoldsLock(kind: Kind, states: seq<State>, steps: seq<Step>, i: nat)
    requires IsRun(kind, states, steps) && i < |states|
    ensures SchedulersHoldLock(states[i])
  {
    hide Next, Enabled;
    if i > 0 {
      RunHoldsLock(kind, states, steps, i - 1);
      LockStep(states[i - 1], steps[i - 1], User(0));
    }
  }

  /** From the call of Schedule at step `c` to its return no other call on the timer is made. */
  lemma {:induction false} ScheduleExcludesCalls(kind: Kind, states: seq<State>, steps: seq<Step>, c: nat, m: nat)
    requires IsRun(kind, states, steps) && c < m < |steps| && steps[c].CallSchedule?
    requires forall i :: c < i < m ==> steps[i] != WaitReturns(steps[c].actor)
    ensures !steps[m].CallSchedule? && !steps[m].CallCancel? && !steps[m].CallCancelAndWait?
    ensures states[m].lock == Some(steps[c].actor) && steps[c].actor in states[m].waiting
    ensures states[m].waiting[steps[c].actor].target == Some(steps[c].target)
  {
    hide Next;
    var a := steps[c].actor;
    RunHoldsLock(kind, states, steps, m - 1);
    LockStep(states[m - 1], steps[m - 1], a);
    if c + 1 == m {
      ScheduleWaits(states[c], a, steps[c].target);
    } else {
      ScheduleExcludesCalls(kind, states, steps, c, m - 1);
    }
  }

  lemma ScheduleWaits(s: State, a: Actor, target: nat)
    requires Enabled(s, CallSchedule(a, target))
    ensures var s' := Next(s, CallSchedule(a, target)); a in s'.waiting && s'.waiting[a].target == Some(target)
  {
  }
}
