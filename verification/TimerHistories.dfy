/** Histories in which a timer loses a schedule that it accepted, one for each rule of TimerDiscipline
    that a caller may break, and one in which a closure outlives CancelAndWait. */
module TimerHistories {
  import opened TimerDiscipline
  import opened TimerLoss
  import opened TimerProtocol
  import opened TimerQuiescence
  import opened TimerRuns
  import opened Wrappers

  /** In `s` schedule `g` is armed and `step`, which is not a call, disarms it. */
  ghost predicate LosesBy(s: State, g: nat, step: Step) {
    && Startable(s, g)
    && Enabled(s, step) && Quiet(s, step, g)
    && !Startable(Next(s, step), g)
  }

  /** One loop, with this queue and running task. */
  function OneLoop(queue: seq<Closure>, running: Option<nat>): map<nat, Loop> {
    map[0 := Loop(true, queue, running)]
  }

  /** A timer between calls, on one loop. */
  predicate Rests(s: State, queue: seq<Closure>, running: Option<nat>, thread: Option<nat>, gen: nat, promise: nat) {
    && s.loops == OneLoop(queue, running)
    && s.thread == thread && s.nextGen == gen && s.nextPromise == promise
    && s.lock == None
  }

  /** Schedule by a user on a timer without a thread: it does not wait. */
  lemma ScheduleIdle(s: State, queue: seq<Closure>, gen: nat, promise: nat) returns (s1: State, s2: State)
    requires Rests(s, queue, None, None, gen, promise) && User(0) !in s.waiting && Cancel(promise) !in queue
    ensures Enabled(s, CallSchedule(User(0), 0)) && s1 == Next(s, CallSchedule(User(0), 0))
    ensures Enabled(s1, WaitReturns(User(0))) && s2 == Next(s1, WaitReturns(User(0)))
    ensures Rests(s2, queue + [Callback(gen)], None, Some(0), gen + 1, promise + 1)
    ensures s2.wrapper == Some(gen) && s2.waiting == s.waiting && s2.kind == s.kind
  {
    s1 := Next(s, CallSchedule(User(0), 0));
    assert !Queued(s1.loops, Cancel(promise));
    s2 := Next(s1, WaitReturns(User(0)));
  }

  lemma FirstSchedule(kind: Kind) returns (s1: State, s2: State, s3: State)
    ensures Enabled(Initial(kind), LoopStarts(0)) && s1 == Next(Initial(kind), LoopStarts(0))
    ensures Enabled(s1, CallSchedule(User(0), 0)) && s2 == Next(s1, CallSchedule(User(0), 0))
    ensures Enabled(s2, WaitReturns(User(0))) && s3 == Next(s2, WaitReturns(User(0)))
    ensures Rests(s3, [Callback(0)], None, Some(0), 1, 1) && s3.wrapper == Some(0) && s3.waiting == map[]
    ensures s1.waiting == map[] && s3.kind == kind
  {
    s1 := Next(Initial(kind), LoopStarts(0));
    s2, s3 := ScheduleIdle(s1, [], 0, 0);
    assert [] + [Callback(0)] == [Callback(0)];
  }

  /** The callback of the first schedule starts its task. */
  lemma Fire(s: State, rest: seq<Closure>, promise: nat) returns (s1: State)
    requires Rests(s, [Callback(0)] + rest, None, Some(0), 1, promise)
    requires s.kind == Once && s.wrapper == Some(0) && s.waiting == map[]
    ensures Enabled(s, RunClosure(0, 0)) && s1 == Next(s, RunClosure(0, 0))
    ensures Rests(s1, rest, Some(0), Some(0), 1, promise)
    ensures s1.kind == Once && s1.wrapper == None && s1.waiting == map[]
  {
    var q := [Callback(0)] + rest;
    assert q[..0] + q[1..] == rest;
    s1 := Next(s, RunClosure(0, 0));
  }

  lemma TakingCancelLoses(s: State, queue: seq<Closure>, i: nat, g: nat)
    requires s.loops == OneLoop(queue, None) && OnLoop(0) !in s.waiting && Startable(s, g)
    requires i < |queue| && queue[i].Cancel?
    ensures LosesBy(s, g, RunClosure(0, i))
  {
  }

  // ----- Cancel without waiting

  const STALE_CANCEL: seq<Step> := [
    LoopStarts(0), CallSchedule(User(0), 0), WaitReturns(User(0)), CallCancel(User(0)),
    RunClosure(0, 0), TaskEnds(0), CallSchedule(User(0), 0), WaitReturns(User(0))]

  /** Schedule, Cancel without waiting, let the first closure fire before the cancel closure, then
      Schedule again: the second Schedule sees no thread, so it does not wait, and the left-over
      closure of the first Cancel goes on to cancel the second schedule. */
  lemma StaleCancelKillsSchedule() returns (states: seq<State>)
    ensures |states| == 9 && IsRun(Once, states, STALE_CANCEL)
    ensures LosesBy(states[8], 1, RunClosure(0, 0))
    ensures forall i :: 0 <= i < 8 ==> (Disciplined(states[i], STALE_CANCEL[i], false) <==> i != 3)
  {
    hide Next, Enabled, LosesBy, Rests;
    var s1, s2, s3 := FirstSchedule(Once);
    var s4 := PostCancel(s3);
    assert [Callback(0)] + [Cancel(1)] == [Callback(0), Cancel(1)];
    var s5 := Fire(s4, [Cancel(1)], 2);
    var s6 := EndTask(s5, [Cancel(1)], 2);
    var s7, s8 := ScheduleIdle(s6, [Cancel(1)], 1, 2);
    states := [Initial(Once), s1, s2, s3, s4, s5, s6, s7, s8];
    SecondIsLost(s8, [Cancel(1)] + [Callback(1)], 0, 1);
  }

  lemma PostCancel(s: State) returns (s1: State)
    requires Rests(s, [Callback(0)], None, Some(0), 1, 1) && s.waiting == map[]
    ensures Enabled(s, CallCancel(User(0))) && s1 == Next(s, CallCancel(User(0)))
    ensures Rests(s1, [Callback(0)] + [Cancel(1)], None, Some(0), 1, 2)
    ensures s1.kind == s.kind && s1.wrapper == s.wrapper && s1.waiting == map[]
  {
    s1 := Next(s, CallCancel(User(0)));
  }

  lemma EndTask(s: State, queue: seq<Closure>, promise: nat) returns (s1: State)
    requires Rests(s, queue, Some(0), Some(0), 1, promise) && s.kind == Once && s.waiting == map[]
    ensures Enabled(s, TaskEnds(0)) && s1 == Next(s, TaskEnds(0))
    ensures Rests(s1, queue, None, None, 1, promise) && s1.waiting == map[]
  {
    s1 := Next(s, TaskEnds(0));
  }

  lemma SecondIsLost(s: State, queue: seq<Closure>, i: nat, promise: nat)
    requires s.loops == OneLoop(queue, None) && s.thread == Some(0) && s.wrapper == Some(1)
    requires i < |queue| && queue[i] == Cancel(promise) && Callback(1) in queue && OnLoop(0) !in s.waiting
    ensures LosesBy(s, 1, RunClosure(0, i))
  {
    assert Callback(1) in s.loops[0].queue;
    TakingCancelLoses(s, queue, i, 1);
  }

  // ----- two callers at once

  const TWO_WAITERS: seq<Step> := [
    LoopStarts(0), CallSchedule(User(0), 0), WaitReturns(User(0)), CallCancelAndWait(User(0)),
    CallCancelAndWait(User(1)), RunClosure(0, 1), WaitReturns(User(0)),
    CallSchedule(User(0), 0), WaitReturns(User(0))]

  /** Two callers wait for their cancellations; the first returns and schedules again, and the cancel
      closure of the other, still queued, cancels that schedule. */
  lemma SecondWaiterKillsSchedule() returns (states: seq<State>)
    ensures |states| == 10 && IsRun(Once, states, TWO_WAITERS)
    ensures LosesBy(states[9], 1, RunClosure(0, 1))
    ensures forall i :: 0 <= i < 9 ==> (Disciplined(states[i], TWO_WAITERS[i], false) <==> i != 4 && i != 7)
  {
    hide Next, Enabled, LosesBy, Rests;
    var s1, s2, s3 := FirstSchedule(Once);
    var s4, s5 := BothWait(s3);
    var s6, s7 := FirstReturns(s5);
    assert User(1) in s7.waiting;
    var s8, s9 := ScheduleIdle(s7, [Callback(0), Cancel(2)], 1, 3);
    states := [Initial(Once), s1, s2, s3, s4, s5, s6, s7, s8, s9];
    SecondIsLost(s9, [Callback(0), Cancel(2)] + [Callback(1)], 1, 2);
  }

  lemma BothWait(s: State) returns (s1: State, s2: State)
    requires Rests(s, [Callback(0)], None, Some(0), 1, 1) && s.waiting == map[]
    ensures Enabled(s, CallCancelAndWait(User(0))) && s1 == Next(s, CallCancelAndWait(User(0)))
    ensures Enabled(s1, CallCancelAndWait(User(1))) && s2 == Next(s1, CallCancelAndWait(User(1)))
    ensures Rests(s2, [Callback(0), Cancel(1), Cancel(2)], None, Some(0), 1, 3) && s1.waiting != map[]
    ensures s2.waiting == map[User(0) := Waiting(1, 1, None), User(1) := Waiting(2, 1, None)]
  {
    assert [Callback(0)] + [Cancel(1)] == [Callback(0), Cancel(1)];
    s1 := Next(s, CallCancelAndWait(User(0)));
    assert User(0) in s1.waiting;
    assert s1.loops == OneLoop([Callback(0), Cancel(1)], None);
    assert [Callback(0), Cancel(1)] + [Cancel(2)] == [Callback(0), Cancel(1), Cancel(2)];
    s2 := Next(s1, CallCancelAndWait(User(1)));
  }

  lemma FirstReturns(s: State) returns (s1: State, s2: State)
    requires Rests(s, [Callback(0), Cancel(1), Cancel(2)], None, Some(0), 1, 3)
    requires s.waiting == map[User(0) := Waiting(1, 1, None), User(1) := Waiting(2, 1, None)]
    ensures Enabled(s, RunClosure(0, 1)) && s1 == Next(s, RunClosure(0, 1))
    ensures Enabled(s1, WaitReturns(User(0))) && s2 == Next(s1, WaitReturns(User(0)))
    ensures Rests(s2, [Callback(0), Cancel(2)], None, None, 1, 3)
    ensures s2.waiting == map[User(1) := Waiting(2, 1, None)]
  {
    var q := [Callback(0), Cancel(1), Cancel(2)];
    assert q[..1] + q[2..] == [Callback(0), Cancel(2)];
    s1 := Next(s, RunClosure(0, 1));
    assert !Queued(s1.loops, Cancel(1));
    s2 := Next(s1, WaitReturns(User(0)));
  }

  // ----- Schedule from the timer's own task

  const FROM_OWN_TASK: seq<Step> := [
    LoopStarts(0), CallSchedule(User(0), 0), WaitReturns(User(0)), RunClosure(0, 0),
    CallSchedule(OnLoop(0), 0), WaitReturns(OnLoop(0))]

  /** A OnceTimer scheduled again from inside its closure: when that returns, RunTask clears the
      thread of the new schedule. */
  lemma ScheduleFromOwnTaskIsLost() returns (states: seq<State>)
    ensures |states| == 7 && IsRun(Once, states, FROM_OWN_TASK)
    ensures LosesBy(states[6], 1, TaskEnds(0))
    ensures forall i :: 0 <= i < 6 ==> (Disciplined(states[i], FROM_OWN_TASK[i], false) <==> i != 4)
  {
    hide Next, Enabled, LosesBy, Rests;
    var s1, s2, s3 := FirstSchedule(Once);
    assert [Callback(0)] + [] == [Callback(0)];
    var s4 := Fire(s3, [], 1);
    var s5, s6 := ScheduleInside(s4);
    states := [Initial(Once), s1, s2, s3, s4, s5, s6];
  }

  lemma ScheduleInside(s: State) returns (s1: State, s2: State)
    requires Rests(s, [], Some(0), Some(0), 1, 1) && s.kind == Once && s.waiting == map[]
    ensures Enabled(s, CallSchedule(OnLoop(0), 0)) && s1 == Next(s, CallSchedule(OnLoop(0), 0))
    ensures Enabled(s1, WaitReturns(OnLoop(0))) && s2 == Next(s1, WaitReturns(OnLoop(0)))
    ensures LosesBy(s2, 1, TaskEnds(0)) && !Disciplined(s, CallSchedule(OnLoop(0), 0), false)
  {
    s1 := Next(s, CallSchedule(OnLoop(0), 0));
    assert !Queued(s1.loops, Cancel(1));
    assert [] + [Callback(1)] == [Callback(1)];
    s2 := Next(s1, WaitReturns(OnLoop(0)));
    assert s2.loops == OneLoop([Callback(1)], Some(0));
    assert Callback(1) in s2.loops[0].queue;
  }

  // ----- CancelAndWait from a repeating timer's own closure

  const FROM_OWN_CLOSURE: seq<Step> := [
    LoopStarts(0), CallSchedule(User(0), 0), WaitReturns(User(0)), RunClosure(0, 0),
    CallCancelAndWait(OnLoop(0)), WaitReturns(OnLoop(0)),
    CallCancelAndWait(User(0)), WaitReturns(User(0))]

  /** The closure of a repeating timer cancels the timer inline, which forgets the thread; a later
      CancelAndWait by another caller then returns while that closure is still running. */
  lemma ClosureOutlivesCancelAndWait() returns (states: seq<State>)
    ensures |states| == 9 && IsRun(Repeating, states, FROM_OWN_CLOSURE)
    ensures 0 in states[8].loops && states[8].loops[0].running == Some(0)
    ensures forall i :: 0 <= i < 8 ==> Disciplined(states[i], FROM_OWN_CLOSURE[i], false)
    ensures forall i :: 0 <= i < 8 ==> (Disciplined(states[i], FROM_OWN_CLOSURE[i], true) <==> i != 4)
    ensures !Watched(states[6], User(0))
  {
    hide Next, Enabled, Rests, Watched;
    var s1, s2, s3 := FirstSchedule(Repeating);
    var s4 := FireRepeating(s3);
    var s5, s6 := CancelInside(s4);
    var s7, s8 := CancelOutside(s6);
    states := [Initial(Repeating), s1, s2, s3, s4, s5, s6, s7, s8];
  }

  lemma FireRepeating(s: State) returns (s1: State)
    requires Rests(s, [Callback(0)], None, Some(0), 1, 1)
    requires s.kind == Repeating && s.wrapper == Some(0) && s.waiting == map[]
    ensures Enabled(s, RunClosure(0, 0)) && s1 == Next(s, RunClosure(0, 0))
    ensures Rests(s1, [Callback(0)], Some(0), Some(0), 1, 1) && s1.kind == Repeating && s1.waiting == map[]
  {
    var q := [Callback(0)];
    assert q[..0] + q[1..] == [] && [] + [Callback(0)] == q;
    s1 := Next(s, RunClosure(0, 0));
  }

  lemma CancelInside(s: State) returns (s1: State, s2: State)
    requires Rests(s, [Callback(0)], Some(0), Some(0), 1, 1) && s.kind == Repeating && s.waiting == map[]
    ensures Enabled(s, CallCancelAndWait(OnLoop(0))) && s1 == Next(s, CallCancelAndWait(OnLoop(0)))
    ensures Enabled(s1, WaitReturns(OnLoop(0))) && s2 == Next(s1, WaitReturns(OnLoop(0)))
    ensures Rests(s2, [Callback(0)], Some(0), None, 1, 2) && s2.kind == Repeating && s2.waiting == map[]
    ensures !Disciplined(s, CallCancelAndWait(OnLoop(0)), true) && Disciplined(s, CallCancelAndWait(OnLoop(0)), false)
  {
    s1 := Next(s, CallCancelAndWait(OnLoop(0)));
    assert !Queued(s1.loops, Cancel(1));
    s2 := Next(s1, WaitReturns(OnLoop(0)));
  }

  lemma CancelOutside(s: State) returns (s1: State, s2: State)
    requires Rests(s, [Callback(0)], Some(0), None, 1, 2) && s.waiting == map[]
    ensures Enabled(s, CallCancelAndWait(User(0))) && s1 == Next(s, CallCancelAndWait(User(0)))
    ensures Enabled(s1, WaitReturns(User(0))) && s2 == Next(s1, WaitReturns(User(0)))
    ensures 0 in s2.loops && s2.loops[0].running == Some(0) && !Watched(s, User(0))
  {
    s1 := Next(s, CallCancelAndWait(User(0)));
    assert !Queued(s1.loops, Cancel(2));
    s2 := Next(s1, WaitReturns(User(0)));
    assert RunsEarlier(s, User(0), 1, 0);
  }
}
