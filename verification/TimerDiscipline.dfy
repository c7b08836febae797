/** A rule for callers under which no schedule that a timer accepted is lost and, in its strict form,
    no blocking call returns while a closure of the timer runs. */
module TimerDiscipline {
  import opened TimerLoss
  import opened TimerProofs
  import opened TimerProtocol
  import opened TimerRuns
  import opened Wrappers

  /** Nobody else is inside a blocking call, and the call is not made from the timer's own closure,
      which is allowed to a repeating timer unless `strict`. */
  predicate CallsAlone(s: State, a: Actor, strict: bool) {
    && s.waiting == map[]
    && ((strict || s.kind.Once?) && a.OnLoop? && a.loop in s.loops ==> s.loops[a.loop].running == None)
  }

  /** Cancel always waits, calls are made one after another, and a closure leaves its timer alone. */
  predicate Disciplined(s: State, step: Step, strict: bool) {
    match step
    case CallCancel(_) => false
    case CallSchedule(a, _) => CallsAlone(s, a, strict)
    case CallCancelAndWait(a) => CallsAlone(s, a, strict)
    case _ => true
  }

  // ----- what disciplined runs keep

  /** At most one caller waits, and nothing was scheduled since it called. */
  ghost predicate OneWaits(s: State) {
    && (forall a, b :: a in s.waiting && b in s.waiting ==> a == b)
    && (forall a :: a in s.waiting ==> s.waiting[a].floor == s.nextGen)
  }

  /** A queued cancel closure is the one that a caller waits for, on the scheduled thread if any. */
  ghost predicate CancelsAwaited(s: State) {
    forall l: nat, p: nat :: l in s.loops && Cancel(p) in s.loops[l].queue ==>
      && (s.thread == None || s.thread == Some(l))
      && exists a :: a in s.waiting && s.waiting[a].promise == p
  }

  /** A closure runs on the scheduled thread, and who waits, waits behind it. */
  ghost predicate RunsOnThread(s: State, strict: bool) {
    strict || s.kind.Once? ==>
      forall l: nat :: l in s.loops && s.loops[l].running != None ==>
        && s.thread == Some(l)
        && forall a :: a in s.waiting ==> Cancel(s.waiting[a].promise) in s.loops[l].queue
  }

  ghost predicate Orderly(s: State, strict: bool) {
    OneWaits(s) && CancelsAwaited(s) && RunsOnThread(s, strict)
  }

  lemma NobodyWaits(s: State)
    requires CancelsAwaited(s) && s.waiting == map[]
    ensures forall l: nat, p: nat :: l in s.loops ==> Cancel(p) !in s.loops[l].queue
  {
  }

  lemma CallPosts(s: State, a: Actor, strict: bool)
    requires Issued(s) && RunsOnThread(s, strict) && CallsAlone(s, a, strict)
    ensures var s' := CancelHelper(s, a);
            && (forall l: nat, c :: l in s'.loops && c in s'.loops[l].queue ==>
                  (l in s.loops && c in s.loops[l].queue) ||
                  (c == Cancel(s.nextPromise) && s'.thread == Some(l)))
            && (strict || s.kind.Once? ==> forall l: nat :: l in s'.loops && s'.loops[l].running != None ==>
                  s'.thread == Some(l) && Cancel(s.nextPromise) in s'.loops[l].queue)
  {
    var s' := CancelHelper(s, a);
    if s.thread.Some? && Alive(s.loops, s.thread.value) {
      var q := s.loops[s.thread.value].queue;
      assert (q + [Cancel(s.nextPromise)])[|q|] == Cancel(s.nextPromise);
    }
  }

  lemma OrderlyCall(s: State, step: Step, strict: bool)
    requires Issued(s) && Orderly(s, strict) && Enabled(s, step) && Disciplined(s, step, strict)
    requires step.CallSchedule? || step.CallCancelAndWait?
    ensures Orderly(Next(s, step), strict)
  {
    hide CancelHelper, Issued;
    var a := step.actor;
    var s' := Next(s, step);
    CallPosts(s, a, strict);
    NobodyWaits(s);
    HelperKeeps(s, a);
    assert s'.waiting[a].promise == s.nextPromise && s'.waiting.Keys == {a};
  }

  lemma HelperKeeps(s: State, a: Actor)
    ensures CancelHelper(s, a).kind == s.kind && CancelHelper(s, a).nextGen == s.nextGen
  {
  }

  lemma OrderlyReturn(s: State, a: Actor, strict: bool)
    requires Orderly(s, strict) && Enabled(s, WaitReturns(a))
    ensures Orderly(Next(s, WaitReturns(a)), strict) && Next(s, WaitReturns(a)).waiting == map[]
    ensures forall l: nat, p: nat :: l in s.loops ==> Cancel(p) !in s.loops[l].queue
    ensures strict || s.kind.Once? ==> forall l: nat :: l in s.loops ==> s.loops[l].running == None
  {
    forall l: nat, p: nat | l in s.loops ensures Cancel(p) !in s.loops[l].queue {
      assert Cancel(p) in s.loops[l].queue ==> Queued(s.loops, Cancel(p));
    }
    assert s.waiting.Keys == {a};
  }

  lemma TakeKeepsOthers(q: seq<Closure>, i: nat, c: Closure)
    requires i < |q|
    ensures c in q[..i] + q[i + 1..] ==> c in q
    ensures c in q && c != q[i] ==> c in q[..i] + q[i + 1..]
  {
    var q' := q[..i] + q[i + 1..];
    if c in q && c != q[i] {
      var j :| 0 <= j < |q| && q[j] == c;
      assert q'[if j < i then j else j - 1] == c;
    }
  }

  lemma OrderlyTakeCancel(s: State, l: nat, i: nat, strict: bool)
    requires Orderly(s, strict) && Enabled(s, RunClosure(l, i)) && s.loops[l].queue[i].Cancel?
    ensures Orderly(Next(s, RunClosure(l, i)), strict)
  {
    var q := s.loops[l].queue;
    assert q[i] in q;
    forall c ensures c in q[..i] + q[i + 1..] ==> c in q {
      TakeKeepsOthers(q, i, c);
    }
  }

  /** Taking a callback leaves the cancel closures where they are. */
  lemma OrderlyTaken(s: State, l: nat, i: nat, strict: bool)
    requires Orderly(s, strict) && l in s.loops && i < |s.loops[l].queue| && s.loops[l].queue[i].Callback?
    ensures Orderly(TakeClosure(s, l, i), strict)
    ensures forall p: nat :: Cancel(p) in s.loops[l].queue ==> Cancel(p) in TakeClosure(s, l, i).loops[l].queue
  {
    var q := s.loops[l].queue;
    forall c ensures (c in q[..i] + q[i + 1..] ==> c in q) && (c in q && c != q[i] ==> c in q[..i] + q[i + 1..]) {
      TakeKeepsOthers(q, i, c);
    }
  }

  lemma OrderlyStart(s: State, l: nat, g: nat, strict: bool)
    requires Orderly(s, strict) && TaskWouldRun(s, g) && l in s.loops && s.thread == Some(l)
    requires forall a :: a in s.waiting ==> Cancel(s.waiting[a].promise) in s.loops[l].queue
    ensures Orderly(StartTask(s, l, g), strict)
  {
    var q := s.loops[l].queue;
    assert forall p: nat :: Cancel(p) in q + [Callback(g)] <==> Cancel(p) in q;
  }

  lemma OrderlyTake(s: State, l: nat, i: nat, strict: bool)
    requires Inv(s) && Orderly(s, strict) && Enabled(s, RunClosure(l, i))
    ensures Orderly(Next(s, RunClosure(l, i)), strict)
  {
    hide Orderly, TakeClosure, StartTask;
    if s.loops[l].queue[i].Cancel? {
      OrderlyTakeCancel(s, l, i, strict);
    } else {
      var g := s.loops[l].queue[i].gen;
      var s1 := TakeClosure(s, l, i);
      OrderlyTaken(s, l, i, strict);
      if TaskWouldRun(s1, g) {
        WaitsBehindStart(s, l, i, strict);
        OrderlyStart(s1, l, g, strict);
      }
    }
  }

  /** Who waits while a task starts, waits behind a cancel closure on the same loop. */
  lemma WaitsBehindStart(s: State, l: nat, i: nat, strict: bool)
    requires Inv(s) && Orderly(s, strict) && Enabled(s, RunClosure(l, i)) && StartsTask(s, RunClosure(l, i))
    ensures var s1 := TakeClosure(s, l, i);
            && l in s1.loops && s1.thread == Some(l)
            && forall a :: a in s1.waiting ==> Cancel(s1.waiting[a].promise) in s1.loops[l].queue
  {
    InvParts(s);
    StartedTaskIsCurrent(s, RunClosure(l, i));
    OrderlyTaken(s, l, i, strict);
  }

  lemma OrderlyOther(s: State, step: Step, strict: bool)
    requires Issued(s) && Orderly(s, strict) && Enabled(s, step)
    requires step.TaskEnds? || step.LoopStarts? || step.LoopDies? || step.ThreadDestroyed?
    ensures Orderly(Next(s, step), strict)
  {
    if step.TaskEnds? {
      OrderlyTaskEnds(s, step.loop, strict);
    } else if step.ThreadDestroyed? {
    } else {
      OrderlyCleared(s, step.loop, step.LoopStarts?, strict);
    }
  }

  lemma OrderlyTaskEnds(s: State, l: nat, strict: bool)
    requires Orderly(s, strict) && Enabled(s, TaskEnds(l))
    ensures Orderly(Next(s, TaskEnds(l)), strict)
  {
  }

  lemma OrderlyCleared(s: State, l: nat, alive: bool, strict: bool)
    requires Orderly(s, strict)
    ensures Orderly(s.(loops := s.loops[l := Loop(alive, [], None)]), strict)
  {
  }

  lemma StepKeepsOrder(s: State, step: Step, strict: bool)
    requires Inv(s) && Orderly(s, strict) && Enabled(s, step) && Disciplined(s, step, strict)
    ensures Orderly(Next(s, step), strict)
  {
    hide Orderly, Next, Issued, OneLiveCallback, LiveOnThread, WaitersCovered, RetiredStay, OnceOnly;
    match step
    case CallSchedule(_, _) => OrderlyCall(s, step, strict);
    case CallCancelAndWait(_) => OrderlyCall(s, step, strict);
    case WaitReturns(a) => OrderlyReturn(s, a, strict);
    case RunClosure(l, i) => OrderlyTake(s, l, i, strict);
    case _ => OrderlyOther(s, step, strict);
  }

  ghost predicate IsDisciplinedRun(kind: Kind, states: seq<State>, steps: seq<Step>, strict: bool) {
    IsRun(kind, states, steps) && forall i :: 0 <= i < |steps| ==> Disciplined(states[i], steps[i], strict)
  }

  lemma {:induction false} RunKeepsOrder(kind: Kind, states: seq<State>, steps: seq<Step>, i: nat, strict: bool)
    requires IsDisciplinedRun(kind, states, steps, strict) && i < |states|
    ensures Orderly(states[i], strict)
  {
    if i > 0 {
      hide Orderly, Next, Enabled, Inv;
      RunKeepsOrder(kind, states, steps, i - 1, strict);
      RunKeeps(kind, states, steps, i - 1);
      StepKeepsOrder(states[i - 1], steps[i - 1], strict);
    }
  }

  lemma OrderlyReturnCalms(s: State, a: Actor, strict: bool)
    requires Orderly(s, strict) && Enabled(s, WaitReturns(a)) && s.waiting[a].target.Some?
    requires Alive(s.loops, s.waiting[a].target.value)
    ensures Startable(Next(s, WaitReturns(a)), s.nextGen) && Undisturbed(Next(s, WaitReturns(a)))
  {
    OrderlyReturn(s, a, strict);
    var s' := Next(s, WaitReturns(a));
    var t := s.waiting[a].target.value;
    assert s'.loops[t].queue[|s.loops[t].queue|] == Callback(s.nextGen);
    assert Callback(s.nextGen) in s'.loops[t].queue;
  }

  /** In a disciplined run, whenever Schedule returns with its callback on a live loop, the timer is
      undisturbed, so the schedule stays armed through everything that may happen before the next
      call on the timer. */
  lemma DisciplinedScheduleSurvives(kind: Kind, states: seq<State>, steps: seq<Step>, i: nat, strict: bool)
    requires IsDisciplinedRun(kind, states, steps, strict) && i < |steps| && steps[i].WaitReturns?
    requires var target := states[i].waiting[steps[i].actor].target;
             target.Some? && Alive(states[i].loops, target.value)
    ensures Startable(states[i + 1], states[i].nextGen) && Undisturbed(states[i + 1])
    ensures StaysArmed(states[i + 1], states[i].nextGen)
  {
    hide Orderly, Next, Inv, StaysArmed, Undisturbed, Startable;
    RunKeepsOrder(kind, states, steps, i, strict);
    OrderlyReturnCalms(states[i], steps[i].actor, strict);
    RunKeeps(kind, states, steps, i + 1);
    ScheduleSurvivesIff(states[i + 1], states[i].nextGen);
  }

  /** In a disciplined run of a OnceTimer, and in a strictly disciplined run of either timer, no closure
      of the timer is running anywhere when CancelAndWait or Schedule returns. */
  lemma DisciplinedReturnIsQuiet(kind: Kind, states: seq<State>, steps: seq<Step>, i: nat, strict: bool)
    requires IsDisciplinedRun(kind, states, steps, strict) && i < |steps| && steps[i].WaitReturns?
    requires strict || kind.Once?
    ensures forall l: nat :: l in states[i].loops ==> states[i].loops[l].running == None
  {
    hide Orderly, Next, Inv;
    RunKeepsOrder(kind, states, steps, i, strict);
    RunKeeps(kind, states, steps, i);
    OrderlyReturn(states[i], steps[i].actor, strict);
  }
}
