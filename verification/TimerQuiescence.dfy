/** Whether a closure of the timer can still be running when a blocking call returns to another thread,
    which is what an owner that deletes the timer after CancelAndWait relies on. */
module TimerQuiescence {
  import opened TimerProofs
  import opened TimerProtocol
  import opened TimerRuns
  import opened Wrappers

  /** On loop `l`, not the caller's own, a closure scheduled before `floor` is running. */
  predicate RunsEarlier(s: State, a: Actor, floor: nat, l: nat) {
    l in s.loops && s.loops[l].running.Some? && s.loops[l].running.value < floor && a != OnLoop(l)
  }

  ghost predicate EarlierEnded(s: State, a: Actor, floor: nat) {
    forall l: nat :: !RunsEarlier(s, a, floor, l)
  }

  /** The closures running elsewhere run on the scheduled thread. */
  ghost predicate Watched(s: State, a: Actor) {
    forall l: nat :: RunsEarlier(s, a, s.nextGen, l) ==> s.thread == Some(l)
  }

  /** The cancel closure that `a` waits for is queued behind every earlier closure that runs. */
  ghost predicate Behind(s: State, a: Actor)
    requires a in s.waiting
  {
    forall l: nat :: RunsEarlier(s, a, s.waiting[a].floor, l) ==>
      Cancel(s.waiting[a].promise) in s.loops[l].queue
  }

  lemma PostKeeps(loops: map<nat, Loop>, l: nat, c: Closure, m: nat)
    requires m in loops
    ensures m in Post(loops, l, c) && Post(loops, l, c)[m].running == loops[m].running
    ensures forall d :: d in loops[m].queue ==> d in Post(loops, l, c)[m].queue
    ensures Alive(loops, l) && m == l ==> c in Post(loops, l, c)[m].queue
  {
    if Alive(loops, l) && m == l {
      var q := loops[l].queue;
      assert (q + [c])[|q|] == c;
    }
  }

  lemma CallIsBehind(s: State, call: Step, a: Actor)
    requires Issued(s) && Enabled(s, call) && BlockingCall(call, a) && Watched(s, a)
    ensures a in Next(s, call).waiting && Behind(Next(s, call), a)
  {
    var s' := Next(s, call);
    forall l: nat | RunsEarlier(s', a, s.nextGen, l) ensures Cancel(s.nextPromise) in s'.loops[l].queue {
      assert l in s.loops;
      HelperKeepsLoop(s, a, l);
      assert s.thread == Some(l) && s.loops[l].alive;
      PostKeeps(s.loops, l, Cancel(s.nextPromise), l);
    }
  }

  lemma HelperKeepsLoop(s: State, a: Actor, l: nat)
    requires l in s.loops
    ensures var s' := CancelHelper(s, a);
            && l in s'.loops && s'.loops[l].running == s.loops[l].running
            && forall d :: d in s.loops[l].queue ==> d in s'.loops[l].queue
  {
    if s.thread.Some? {
      PostKeeps(s.loops, s.thread.value, Cancel(s.nextPromise), l);
    }
  }

  lemma TakeKeepsBehind(s: State, l: nat, i: nat, a: Actor)
    requires Inv(s) && Enabled(s, RunClosure(l, i)) && a in s.waiting && Behind(s, a)
    ensures Next(s, RunClosure(l, i)).waiting == s.waiting && Behind(Next(s, RunClosure(l, i)), a)
  {
    hide Startable;
    var s' := Next(s, RunClosure(l, i));
    var cancel := Cancel(s.waiting[a].promise);
    forall m: nat | RunsEarlier(s', a, s.waiting[a].floor, m) ensures cancel in s'.loops[m].queue {
      if m == l {
        assert StartsTask(s, RunClosure(l, i));
        StartedWaitsBehind(s, l, i, a);
      } else {
        assert s'.loops[m] == s.loops[m] by {
          if StartsTask(s, RunClosure(l, i)) {
            InvParts(s);
            StartedTaskIsCurrent(s, RunClosure(l, i));
          }
        }
      }
    }
  }

  lemma StartedWaitsBehind(s: State, l: nat, i: nat, a: Actor)
    requires Inv(s) && Enabled(s, RunClosure(l, i)) && StartsTask(s, RunClosure(l, i))
    requires a in s.waiting && StartedGen(s, RunClosure(l, i)) < s.waiting[a].floor
    ensures Cancel(s.waiting[a].promise) in Next(s, RunClosure(l, i)).loops[l].queue
  {
    InvParts(s);
    StartedTaskIsCurrent(s, RunClosure(l, i));
    var q, c := s.loops[l].queue, Cancel(s.waiting[a].promise);
    var j: nat :| j < |q| && q[j] == c;
    var q' := q[..i] + q[i + 1..];
    assert q'[if j < i then j else j - 1] == c;
    var s1 := TakeClosure(s, l, i);
    assert c in s1.loops[l].queue;
    PostKeeps(s1.loops, l, Callback(q[i].gen), l);
  }

  lemma StaysBehind(s: State, step: Step, a: Actor)
    requires Inv(s) && Enabled(s, step) && a in s.waiting && Behind(s, a) && step != WaitReturns(a)
    ensures a in Next(s, step).waiting && Next(s, step).waiting[a] == s.waiting[a] && Behind(Next(s, step), a)
  {
    hide Inv, Queued;
    var s' := Next(s, step);
    WaitingStays(s, step, a);
    if step.RunClosure? {
      TakeKeepsBehind(s, step.loop, step.index, a);
    } else {
      forall l: nat | RunsEarlier(s', a, s.waiting[a].floor, l)
        ensures Cancel(s.waiting[a].promise) in s'.loops[l].queue
      {
        OtherStepKeepsLoop(s, step, l);
      }
    }
  }

  lemma OtherStepKeepsLoop(s: State, step: Step, l: nat)
    requires Enabled(s, step) && !step.RunClosure?
    requires l in Next(s, step).loops && Next(s, step).loops[l].running.Some?
    ensures l in s.loops && Next(s, step).loops[l].running == s.loops[l].running
    ensures forall d :: d in s.loops[l].queue ==> d in Next(s, step).loops[l].queue
  {
    hide Queued;
    assert l in s.loops;
    match step
    case CallSchedule(a, _) => HelperKeepsLoop(s, a, l);
    case CallCancel(a) => HelperKeepsLoop(s, a, l);
    case CallCancelAndWait(a) => HelperKeepsLoop(s, a, l);
    case WaitReturns(a) =>
      if s.waiting[a].target.Some? {
        PostKeeps(s.loops, s.waiting[a].target.value, Callback(s.nextGen), l);
      }
    case _ =>
  }

  // ----- a call and its return

  ghost predicate IsPath(s: State, steps: seq<Step>, s': State)
    decreases |steps|
  {
    if steps == [] then s' == s
    else Enabled(s, steps[0]) && IsPath(Next(s, steps[0]), steps[1..], s')
  }

  /** `call`, made by `a` in `s`, returns in `s'`, with the steps `mid` in between. */
  ghost predicate ReturnsAfter(s: State, call: Step, a: Actor, mid: seq<Step>, s': State) {
    && Enabled(s, call) && BlockingCall(call, a)
    && WaitReturns(a) !in mid && IsPath(Next(s, call), mid + [WaitReturns(a)], s')
  }

  /** Whatever happens meanwhile, the call does not return while an earlier closure runs elsewhere. */
  ghost predicate AwaitsClosures(s: State, call: Step, a: Actor) {
    forall mid, s' :: ReturnsAfter(s, call, a, mid, s') ==> EarlierEnded(s', a, s.nextGen)
  }

  lemma {:induction false} EndedAtReturn(s: State, a: Actor, mid: seq<Step>, s': State)
    requires Inv(s) && a in s.waiting && Behind(s, a)
    requires WaitReturns(a) !in mid && IsPath(s, mid + [WaitReturns(a)], s')
    ensures EarlierEnded(s', a, s.waiting[a].floor)
    decreases |mid|
  {
    var steps := mid + [WaitReturns(a)];
    var s1 := Next(s, steps[0]);
    if mid == [] {
      assert steps[1..] == [];
      ReturnedEnded(s, a);
    } else {
      hide Inv, Behind, Next, Enabled;
      assert mid[0] != WaitReturns(a);
      StaysBehind(s, mid[0], a);
      StepKeeps(s, mid[0]);
      assert steps[1..] == mid[1..] + [WaitReturns(a)];
      EndedAtReturn(s1, a, mid[1..], s');
    }
  }

  lemma ReturnedEnded(s: State, a: Actor)
    requires Enabled(s, WaitReturns(a)) && Behind(s, a)
    ensures EarlierEnded(Next(s, WaitReturns(a)), a, s.waiting[a].floor)
  {
    var s' := Next(s, WaitReturns(a));
    var cancel := Cancel(s.waiting[a].promise);
    assert forall l: nat :: l in s.loops ==> cancel !in s.loops[l].queue;
    forall l: nat ensures !RunsEarlier(s', a, s.waiting[a].floor, l) {
      if l in s'.loops && s'.loops[l].running.Some? {
        OtherStepKeepsLoop(s, WaitReturns(a), l);
      }
    }
  }

  // ----- the converse

  /** The loop that the call posts to, if any, is not itself blocked in a timer call. */
  ghost predicate Unblocked(s: State, a: Actor) {
    s.thread.Some? && a != OnLoop(s.thread.value) && Alive(s.loops, s.thread.value) ==>
      OnLoop(s.thread.value) !in s.waiting
  }

  lemma PathFirst(s: State, first: Step, rest: seq<Step>, s': State)
    requires Enabled(s, first) && IsPath(Next(s, first), rest, s')
    ensures IsPath(s, [first] + rest, s')
  {
    assert ([first] + rest)[1..] == rest;
  }

  lemma PathReturn(s: State, a: Actor, l: nat, floor: nat) returns (s': State)
    requires Enabled(s, WaitReturns(a)) && RunsEarlier(s, a, floor, l)
    ensures IsPath(s, [WaitReturns(a)], s') && RunsEarlier(s', a, floor, l)
  {
    s' := Next(s, WaitReturns(a));
    if s.waiting[a].target.Some? {
      PostKeeps(s.loops, s.waiting[a].target.value, Callback(s.nextGen), l);
    }
    assert IsPath(s', [], s');
    PathFirst(s, WaitReturns(a), [], s');
    assert [WaitReturns(a)] + [] == [WaitReturns(a)];
  }

  lemma NotQueuedYet(s: State)
    requires Issued(s)
    ensures !Queued(s.loops, Cancel(s.nextPromise))
  {
  }

  /** The call posts nothing, so it can return at once. */
  lemma ReturnsAtOnce(s: State, call: Step, a: Actor, l: nat) returns (s': State)
    requires Issued(s) && Enabled(s, call) && BlockingCall(call, a) && RunsEarlier(s, a, s.nextGen, l)
    requires s.thread.None? || a == OnLoop(s.thread.value) || !Alive(s.loops, s.thread.value)
    ensures ReturnsAfter(s, call, a, [], s') && RunsEarlier(s', a, s.nextGen, l)
  {
    NotQueuedYet(s);
    s' := PathReturn(Next(s, call), a, l, s.nextGen);
    assert [] + [WaitReturns(a)] == [WaitReturns(a)];
  }

  /** Where the cancel closure of `a` stands once it is posted: last on `m`, and nowhere else. */
  ghost predicate PostedLast(s: State, a: Actor, m: nat) {
    && Alive(s.loops, m) && a in s.waiting && OnLoop(m) !in s.waiting
    && |s.loops[m].queue| > 0
    && (forall l: nat, i: nat :: l in s.loops && i < |s.loops[l].queue| ==>
          (s.loops[l].queue[i] == Cancel(s.waiting[a].promise) <==> l == m && i == |s.loops[l].queue| - 1))
  }

  lemma CallPostsLast(s: State, call: Step, a: Actor, m: nat)
    requires Issued(s) && Enabled(s, call) && BlockingCall(call, a) && Unblocked(s, a)
    requires s.thread == Some(m) && a != OnLoop(m) && Alive(s.loops, m)
    ensures PostedLast(Next(s, call), a, m)
  {
  }

  lemma LastTaken(s: State, a: Actor, m: nat)
    requires PostedLast(s, a, m)
    ensures var loops := TakeClosure(s, m, |s.loops[m].queue| - 1).loops;
            !Queued(loops, Cancel(s.waiting[a].promise))
  {
    var i := |s.loops[m].queue| - 1;
    var q, loops := s.loops[m].queue, TakeClosure(s, m, i).loops;
    assert q[..i] + q[i + 1..] == q[..i];
    forall k: nat | k in loops ensures Cancel(s.waiting[a].promise) !in loops[k].queue {
      assert forall j: nat :: j < |loops[k].queue| ==> loops[k].queue[j] == s.loops[k].queue[j];
    }
  }

  lemma TakeLast(s: State, a: Actor, m: nat, l: nat, floor: nat) returns (s': State)
    requires PostedLast(s, a, m) && s.loops[m].running == None && RunsEarlier(s, a, floor, l)
    ensures IsPath(s, [RunClosure(m, |s.loops[m].queue| - 1), WaitReturns(a)], s') && RunsEarlier(s', a, floor, l)
  {
    hide Queued;
    var i := |s.loops[m].queue| - 1;
    var s1 := Next(s, RunClosure(m, i));
    LastTaken(s, a, m);
    s' := PathReturn(s1, a, l, floor);
    PathFirst(s, RunClosure(m, i), [WaitReturns(a)], s');
    assert [RunClosure(m, i)] + [WaitReturns(a)] == [RunClosure(m, i), WaitReturns(a)];
  }

  lemma CallKeepsRunning(s: State, call: Step, a: Actor, l: nat)
    requires Enabled(s, call) && BlockingCall(call, a) && RunsEarlier(s, a, s.nextGen, l)
    ensures RunsEarlier(Next(s, call), a, s.nextGen, l)
  {
    HelperKeepsLoop(s, a, l);
  }

  lemma EndOther(s: State, a: Actor, m: nat, l: nat, floor: nat) returns (s': State)
    requires PostedLast(s, a, m) && s.loops[m].running != None && m != l && RunsEarlier(s, a, floor, l)
    ensures Enabled(s, TaskEnds(m)) && s' == Next(s, TaskEnds(m))
    ensures PostedLast(s', a, m) && s'.loops[m].queue == s.loops[m].queue && s'.loops[m].running == None
    ensures RunsEarlier(s', a, floor, l)
  {
    s' := Next(s, TaskEnds(m));
  }

  lemma ReturnsPastOther(s: State, call: Step, a: Actor, l: nat, m: nat) returns (mid: seq<Step>, s': State)
    requires Issued(s) && Enabled(s, call) && BlockingCall(call, a) && RunsEarlier(s, a, s.nextGen, l)
    requires s.thread == Some(m) && m != l && a != OnLoop(m) && Alive(s.loops, m) && Unblocked(s, a)
    ensures ReturnsAfter(s, call, a, mid, s') && RunsEarlier(s', a, s.nextGen, l)
  {
    hide Issued, Unblocked, Next, Enabled, IsPath;
    var s1 := Next(s, call);
    CallPostsLast(s, call, a, m);
    CallKeepsRunning(s, call, a, l);
    var take := RunClosure(m, |s1.loops[m].queue| - 1);
    if s1.loops[m].running == None {
      s' := TakeLast(s1, a, m, l, s.nextGen);
      mid := [take];
      assert mid + [WaitReturns(a)] == [take, WaitReturns(a)];
    } else {
      var s2 := EndOther(s1, a, m, l, s.nextGen);
      s' := TakeLast(s2, a, m, l, s.nextGen);
      PathFirst(s1, TaskEnds(m), [take, WaitReturns(a)], s');
      mid := [TaskEnds(m), take];
      assert mid + [WaitReturns(a)] == [TaskEnds(m)] + [take, WaitReturns(a)];
    }
  }

  /** For both kinds of timer and in every reachable state: CancelAndWait and Schedule do not return
      while an earlier closure of the timer runs on another thread if, and when the loop they post to
      is not blocked only if, the closures running elsewhere run on the scheduled thread when the call
      is made. */
  lemma AwaitsClosuresIff(s: State, call: Step, a: Actor)
    requires Inv(s) && Enabled(s, call) && BlockingCall(call, a)
    ensures Watched(s, a) ==> AwaitsClosures(s, call, a)
    ensures Unblocked(s, a) ==> (AwaitsClosures(s, call, a) <==> Watched(s, a))
  {
    hide Next, Enabled, Inv;
    InvParts(s);
    if Watched(s, a) {
      CallIsBehind(s, call, a);
      StepKeeps(s, call);
      CallFloor(s, call, a);
      forall mid, s' | ReturnsAfter(s, call, a, mid, s') ensures EarlierEnded(s', a, s.nextGen) {
        EndedAtReturn(Next(s, call), a, mid, s');
      }
    } else if Unblocked(s, a) {
      var l: nat :| RunsEarlier(s, a, s.nextGen, l) && s.thread != Some(l);
      var mid, s' := [], s;
      if s.thread.None? || a == OnLoop(s.thread.value) || !Alive(s.loops, s.thread.value) {
        s' := ReturnsAtOnce(s, call, a, l);
      } else {
        mid, s' := ReturnsPastOther(s, call, a, l, s.thread.value);
      }
      assert ReturnsAfter(s, call, a, mid, s') && !EarlierEnded(s', a, s.nextGen);
    }
  }
}
