/** Safety of the timer protocol over every interleaving. */
module TimerProofs {
  import opened Wrappers
  import opened TimerProtocol

  // ----- what the three ways of changing a queue do to live callbacks

  lemma PostLive(s: State, l: nat, c: Closure, m: nat, j: nat)
    ensures LiveAt(s.(loops := Post(s.loops, l, c)), m, j) <==>
            LiveAt(s, m, j) ||
            (Alive(s.loops, l) && m == l && j == |s.loops[l].queue| &&
             s.wrapper.Some? && c == Callback(s.wrapper.value))
  {
  }

  lemma TakeLive(s: State, l: nat, i: nat, m: nat, j: nat)
    requires l in s.loops && i < |s.loops[l].queue|
    ensures LiveAt(TakeClosure(s, l, i), m, j) <==> LiveAt(s, m, if m == l && j >= i then j + 1 else j)
  {
    var q := s.loops[l].queue;
    var q' := q[..i] + q[i + 1..];
    assert |q'| == |q| - 1;
    assert j < |q'| ==> q'[j] == q[if j >= i then j + 1 else j];
  }

  lemma QueuedIsLive(s: State, g: nat)
    requires s.wrapper == Some(g)
    ensures Queued(s.loops, Callback(g)) <==> exists l: nat, i: nat :: LiveAt(s, l, i)
  {
    if Queued(s.loops, Callback(g)) {
      var l: nat :| l in s.loops && Callback(g) in s.loops[l].queue;
      var i: nat :| i < |s.loops[l].queue| && s.loops[l].queue[i] == Callback(g);
      assert LiveAt(s, l, i);
    }
    if l: nat, i: nat :| LiveAt(s, l, i) {
      assert Callback(g) in s.loops[l].queue;
    }
  }

  // ----- one live callback, on the right loop

  ghost predicate Live(s: State) {
    OneLiveCallback(s) && LiveOnThread(s)
  }

  lemma LivePostCancel(s: State, l: nat, p: nat)
    requires Live(s)
    ensures Live(s.(loops := Post(s.loops, l, Cancel(p))))
  {
    forall m: nat, j: nat ensures LiveAt(s.(loops := Post(s.loops, l, Cancel(p))), m, j) <==> LiveAt(s, m, j) {
      PostLive(s, l, Cancel(p), m, j);
    }
  }

  lemma LivePostFresh(s: State, l: nat)
    requires s.wrapper.Some? && s.thread == Some(l)
    requires forall m: nat, j: nat :: !LiveAt(s, m, j)
    ensures Live(s.(loops := Post(s.loops, l, Callback(s.wrapper.value))))
  {
    forall m: nat, j: nat | LiveAt(s.(loops := Post(s.loops, l, Callback(s.wrapper.value))), m, j)
      ensures l in s.loops && m == l && j == |s.loops[l].queue|
    {
      PostLive(s, l, Callback(s.wrapper.value), m, j);
    }
  }

  lemma LiveTake(s: State, l: nat, i: nat)
    requires Live(s) && l in s.loops && i < |s.loops[l].queue|
    ensures Live(TakeClosure(s, l, i))
    ensures s.wrapper.Some? && s.loops[l].queue[i] == Callback(s.wrapper.value) ==>
              forall m: nat, j: nat :: !LiveAt(TakeClosure(s, l, i), m, j)
  {
    var s' := TakeClosure(s, l, i);
    forall m: nat, j: nat | LiveAt(s', m, j)
      ensures LiveAt(s, m, if m == l && j >= i then j + 1 else j)
      ensures !LiveAt(s, l, i)
    {
      TakeLive(s, l, i, m, j);
    }
    forall m: nat, j: nat, m': nat, j': nat | LiveAt(s', m, j) && LiveAt(s', m', j') ensures m == m' && j == j' {
      TakeLive(s, l, i, m, j);
      TakeLive(s, l, i, m', j');
    }
    if s.wrapper.Some? && s.loops[l].queue[i] == Callback(s.wrapper.value) {
      assert LiveAt(s, l, i);
    }
  }

  lemma LiveClear(s: State, l: nat, alive: bool)
    requires Live(s)
    ensures Live(s.(loops := s.loops[l := Loop(alive, [], None)]))
  {
    var s' := s.(loops := s.loops[l := Loop(alive, [], None)]);
    assert forall m: nat, j: nat :: LiveAt(s', m, j) ==> LiveAt(s, m, j);
  }

  lemma LiveSame(s: State, s': State)
    requires Live(s)
    requires forall m: nat, j: nat :: LiveAt(s', m, j) ==> LiveAt(s, m, j)
    requires s'.thread == s.thread || s'.thread == None
    ensures Live(s')
  {
  }

  lemma HelperKeepsLive(s: State, a: Actor)
    requires Live(s)
    ensures Live(CancelHelper(s, a))
  {
    match s.thread
    case None => LiveSame(s, CancelHelper(s, a));
    case Some(l) =>
      if a != OnLoop(l) {
        LivePostCancel(s, l, s.nextPromise);
        LiveSame(s.(loops := Post(s.loops, l, Cancel(s.nextPromise))), CancelHelper(s, a));
      }
  }

  lemma ArmKeepsLive(s: State, target: nat)
    requires Issued(s)
    ensures Live(Arm(s, target))
  {
    if Alive(s.loops, target) {
      var s1 := s.(wrapper := Some(s.nextGen), thread := Some(target));
      assert forall m: nat, j: nat :: !LiveAt(s1, m, j);
      LivePostFresh(s1, target);
      LiveSame(s1.(loops := Post(s.loops, target, Callback(s.nextGen))), Arm(s, target));
    }
  }

  lemma StartTaskKeepsLive(s: State, l: nat, g: nat)
    requires Live(s) && TaskWouldRun(s, g) && l in s.loops
    requires forall m: nat, j: nat :: !LiveAt(s, m, j)
    ensures Live(StartTask(s, l, g))
  {
    if s.kind.Repeating? {
      LivePostFresh(s, s.thread.value);
      LiveSame(s.(loops := Post(s.loops, s.thread.value, Callback(g))), StartTask(s, l, g));
    }
  }

  lemma KeepsLive(s: State, step: Step)
    requires Live(s) && Issued(s) && Enabled(s, step)
    ensures Live(Next(s, step))
  {
    hide LiveAt, OneLiveCallback, LiveOnThread;
    var s' := Next(s, step);
    match step
    case CallSchedule(a, _) => HelperKeepsLive(s, a); LiveFields(CancelHelper(s, a), s');
    case CallCancel(a) => HelperKeepsLive(s, a);
    case CallCancelAndWait(a) => HelperKeepsLive(s, a); LiveFields(CancelHelper(s, a), s');
    case WaitReturns(a) =>
      if s.waiting[a].target.Some? {
        ArmKeepsLive(s, s.waiting[a].target.value);
        LiveFields(Arm(s, s.waiting[a].target.value), s');
      } else {
        LiveFields(s, s');
      }
    case RunClosure(l, i) =>
      LiveTake(s, l, i);
      var s1 := TakeClosure(s, l, i);
      match s.loops[l].queue[i] {
        case Cancel(_) => LiveUnarmed(s');
        case Callback(g) => if TaskWouldRun(s1, g) { StartTaskKeepsLive(s1, l, g); }
      }
    case TaskEnds(l) =>
      LiveRunning(s, l, None);
      LiveThread(s.(loops := s.loops[l := s.loops[l].(running := None)]), s');
    case LoopStarts(l) => LiveClear(s, l, true);
    case LoopDies(l) => LiveClear(s, l, false);
    case ThreadDestroyed(l) => LiveThread(s, s');
  }

  lemma LiveFields(s: State, s': State)
    requires Live(s) && s'.loops == s.loops && s'.wrapper == s.wrapper && s'.thread == s.thread
    ensures Live(s')
  {
    LiveSame(s, s');
  }

  lemma LiveThread(s: State, s': State)
    requires Live(s) && s'.loops == s.loops && s'.wrapper == s.wrapper
    requires s'.thread == s.thread || s'.thread == None
    ensures Live(s')
  {
    LiveSame(s, s');
  }

  lemma LiveUnarmed(s: State)
    requires s.wrapper == None
    ensures Live(s)
  {
  }

  lemma LiveRunning(s: State, l: nat, running: Option<nat>)
    requires Live(s) && l in s.loops
    ensures Live(s.(loops := s.loops[l := s.loops[l].(running := running)]))
  {
    LiveSame(s, s.(loops := s.loops[l := s.loops[l].(running := running)]));
  }

  // ----- counters bound everything that was issued

  lemma IssuedHelper(s: State, a: Actor)
    requires Issued(s)
    ensures Issued(CancelHelper(s, a))
  {
  }

  lemma IssuedArm(s: State, target: nat)
    requires Issued(s)
    ensures Issued(Arm(s, target))
  {
  }

  lemma IssuedTake(s: State, l: nat, i: nat)
    requires Issued(s) && l in s.loops && i < |s.loops[l].queue|
    ensures Issued(TakeClosure(s, l, i))
  {
    var q := s.loops[l].queue;
    var q' := q[..i] + q[i + 1..];
    assert forall j: nat :: j < |q'| ==> q'[j] == q[if j >= i then j + 1 else j];
  }

  lemma IssuedStartTask(s: State, l: nat, g: nat)
    requires Issued(s) && TaskWouldRun(s, g) && Alive(s.loops, l)
    ensures Issued(StartTask(s, l, g))
  {
  }

  lemma IssuedWaiting(s: State, a: Actor, target: Option<nat>, lock: Option<Actor>, gens: nat, promise: nat)
    requires Issued(s) && gens == s.nextGen
    ensures Issued(s.(lock := lock, waiting := s.waiting[a := Waiting(promise, gens, target)]))
  {
  }

  lemma IssuedReturn(s: State, a: Actor, lock: Option<Actor>, retired: nat)
    requires Issued(s) && retired <= s.nextGen
    ensures Issued(s.(lock := lock, retired := retired, waiting := s.waiting - {a}))
  {
  }

  lemma IssuedLoop(s: State, l: nat, loop: Loop, thread: Option<nat>)
    requires Issued(s)
    requires loop == Loop(false, [], None) || loop == Loop(true, [], None) ||
             (l in s.loops && s.loops[l].alive && loop.queue == s.loops[l].queue && loop.alive)
    ensures Issued(s.(thread := thread, loops := s.loops[l := loop]))
  {
  }

  lemma IssuedCancel(s: State)
    requires Issued(s)
    ensures Issued(CancelClosure(s))
  {
  }

  lemma IssuedThread(s: State, thread: Option<nat>)
    requires Issued(s)
    ensures Issued(s.(thread := thread))
  {
  }

  lemma IssuedFloors(s: State, a: Actor)
    requires Issued(s) && a in s.waiting
    ensures s.waiting[a].floor <= s.nextGen && s.retired <= s.nextGen
  {
  }

  lemma KeepsIssued(s: State, step: Step)
    requires Issued(s) && Enabled(s, step)
    ensures Issued(Next(s, step))
  {
    hide Issued;
    match step
    case CallSchedule(a, target) =>
      IssuedHelper(s, a);
      IssuedWaiting(CancelHelper(s, a), a, Some(target), Some(a), s.nextGen, s.nextPromise);
    case CallCancel(a) => IssuedHelper(s, a);
    case CallCancelAndWait(a) =>
      IssuedHelper(s, a);
      IssuedWaiting(CancelHelper(s, a), a, None, s.lock, s.nextGen, s.nextPromise);
    case WaitReturns(a) =>
      var w := s.waiting[a];
      IssuedFloors(s, a);
      if w.target.Some? {
        IssuedArm(s, w.target.value);
        IssuedReturn(Arm(s, w.target.value), a, None, Max(s.retired, s.nextGen));
      } else {
        IssuedReturn(s, a, s.lock, Max(s.retired, w.floor));
      }
    case RunClosure(l, i) =>
      IssuedTake(s, l, i);
      var s1 := TakeClosure(s, l, i);
      match s.loops[l].queue[i] {
        case Cancel(_) => IssuedCancel(s1);
        case Callback(g) => if TaskWouldRun(s1, g) { IssuedStartTask(s1, l, g); }
      }
    case TaskEnds(l) =>
      IssuedLoop(s, l, s.loops[l].(running := None), if s.kind.Once? then None else s.thread);
    case LoopStarts(l) => IssuedLoop(s, l, Loop(true, [], None), s.thread);
    case LoopDies(l) => IssuedLoop(s, l, Loop(false, [], None), s.thread);
    case ThreadDestroyed(l) => IssuedThread(s, if s.thread == Some(l) then None else s.thread);
  }

  // ----- a task that cannot start any more never can again

  lemma QueuedPost(loops: map<nat, Loop>, l: nat, c: Closure, d: Closure)
    requires c != d
    ensures Queued(Post(loops, l, c), d) ==> Queued(loops, d)
  {
  }

  lemma QueuedTake(s: State, l: nat, i: nat, c: Closure)
    requires l in s.loops && i < |s.loops[l].queue|
    ensures Queued(TakeClosure(s, l, i).loops, c) ==> Queued(s.loops, c)
  {
  }

  lemma QueuedShrunk(loops: map<nat, Loop>, l: nat, loop: Loop, c: Closure)
    requires forall d :: d in loop.queue ==> l in loops && d in loops[l].queue
    ensures Queued(loops[l := loop], c) ==> Queued(loops, c)
  {
  }

  /** Startable never turns from false to true for a generation already issued. */
  lemma StartableShrinks(s: State, step: Step, g: nat)
    requires Enabled(s, step) && Startable(Next(s, step), g) && g < s.nextGen
    ensures Startable(s, g)
  {
    hide Queued;
    var c := Callback(g);
    match step
    case CallSchedule(a, _) => ShrinkHelper(s, a, g);
    case CallCancel(a) => ShrinkHelper(s, a, g);
    case CallCancelAndWait(a) => ShrinkHelper(s, a, g);
    case WaitReturns(a) =>
    case RunClosure(l, i) =>
      QueuedTake(s, l, i, c);
      var s1 := TakeClosure(s, l, i);
      if s.loops[l].queue[i].Callback? && TaskWouldRun(s1, s.loops[l].queue[i].gen) {
        QueuedAt(s.loops, l, i);
      }
    case TaskEnds(l) => QueuedShrunk(s.loops, l, s.loops[l].(running := None), c);
    case LoopStarts(l) => QueuedShrunk(s.loops, l, Loop(true, [], None), c);
    case LoopDies(l) => QueuedShrunk(s.loops, l, Loop(false, [], None), c);
    case ThreadDestroyed(l) =>
  }

  lemma QueuedAt(loops: map<nat, Loop>, l: nat, i: nat)
    requires l in loops && i < |loops[l].queue|
    ensures Queued(loops, loops[l].queue[i])
  {
  }

  lemma ShrinkHelper(s: State, a: Actor, g: nat)
    requires Startable(CancelHelper(s, a), g)
    ensures Startable(s, g)
  {
    if s.thread.Some? {
      QueuedPost(s.loops, s.thread.value, Cancel(s.nextPromise), Callback(g));
    }
  }

  // ----- waiters

  /** A startable callback sits in the queue of the loop that `thread` names, which is alive. */
  lemma StartableOnThread(s: State, g: nat)
    requires Live(s) && Issued(s) && Startable(s, g)
    ensures Alive(s.loops, s.thread.value) && Callback(g) in s.loops[s.thread.value].queue
  {
    QueuedIsLive(s, g);
    var l: nat, i: nat :| LiveAt(s, l, i);
  }

  ghost predicate Covered(s: State, w: Waiting) {
    forall g: nat :: g < w.floor && Startable(s, g) ==>
      s.thread.value in s.loops && Cancel(w.promise) in s.loops[s.thread.value].queue
  }

  lemma WaitersAreCovered(s: State)
    ensures WaitersCovered(s) <==> forall a :: a in s.waiting ==> Covered(s, s.waiting[a])
  {
  }

  /** A call that starts waiting is covered at once: the timer is unarmed, or its cancel closure went
      to the queue that holds the callback. */
  lemma NewWaiterCovered(s: State, a: Actor, target: Option<nat>)
    requires Live(s) && Issued(s)
    ensures Covered(CancelHelper(s, a), Waiting(s.nextPromise, s.nextGen, target))
  {
    var s' := CancelHelper(s, a);
    HelperKeepsLive(s, a);
    IssuedHelper(s, a);
    forall g: nat | Startable(s', g)
      ensures s'.thread.value in s'.loops && Cancel(s.nextPromise) in s'.loops[s'.thread.value].queue
    {
      StartableOnThread(s', g);
    }
  }

  /** A waiter stays covered by every step other than its own return. */
  lemma StaysCovered(s: State, step: Step, w: Waiting)
    requires Live(s) && Issued(s) && Enabled(s, step) && Covered(s, w) && w.floor <= s.nextGen
    ensures Covered(Next(s, step), w)
  {
    var s' := Next(s, step);
    KeepsLive(s, step);
    KeepsIssued(s, step);
    forall g: nat | g < w.floor && Startable(s', g)
      ensures s'.thread.value in s'.loops && Cancel(w.promise) in s'.loops[s'.thread.value].queue
    {
      StartableShrinks(s, step, g);
      StartableOnThread(s', g);
      CancelStays(s, step, w.promise, g);
    }
  }

  lemma CancelStays(s: State, step: Step, p: nat, g: nat)
    requires Enabled(s, step) && Startable(s, g) && g < s.nextGen
    requires s.thread.value in s.loops && Cancel(p) in s.loops[s.thread.value].queue
    requires var s' := Next(s, step);
             Startable(s', g) && s'.thread.value in s'.loops && s'.loops[s'.thread.value].queue != []
    ensures var s' := Next(s, step);
            Cancel(p) in s'.loops[s'.thread.value].queue
  {
    hide Queued;
    if step.RunClosure? {
      CancelStaysInQueue(s, step.loop, step.index, p, g);
    }
  }

  lemma CancelStaysInQueue(s: State, l: nat, i: nat, p: nat, g: nat)
    requires Enabled(s, RunClosure(l, i)) && s.wrapper == Some(g) && s.thread.Some?
    requires s.thread.value in s.loops && Cancel(p) in s.loops[s.thread.value].queue
    requires var s' := Next(s, RunClosure(l, i)); s'.wrapper == Some(g) && s'.thread.Some?
    ensures var s' := Next(s, RunClosure(l, i));
            s'.thread.value in s'.loops && Cancel(p) in s'.loops[s'.thread.value].queue
  {
    var q := s.loops[l].queue;
    if q[i].Callback? && l == s.thread.value {
      var j: nat :| j < |q| && q[j] == Cancel(p);
      assert (q[..i] + q[i + 1..])[if j < i then j else j - 1] == Cancel(p);
    }
  }

  lemma KeepsWaiters(s: State, step: Step)
    requires Inv(s) && Enabled(s, step)
    ensures WaitersCovered(Next(s, step))
  {
    hide Inv, Issued, OneLiveCallback, LiveOnThread, Covered, WaitersCovered, RetiredStay, OnceOnly;
    var s' := Next(s, step);
    InvParts(s);
    WaitersAreCovered(s);
    forall a | a in s'.waiting ensures Covered(s', s'.waiting[a]) {
      if a in s.waiting && s'.waiting[a] == s.waiting[a] {
        IssuedFloors(s, a);
        StaysCovered(s, step, s.waiting[a]);
      } else {
        NewWaiterCovered(s, a, s'.waiting[a].target);
        CoveredFields(CancelHelper(s, a), s', s'.waiting[a]);
      }
    }
    WaitersAreCovered(s');
  }

  lemma CoveredFields(s: State, s': State, w: Waiting)
    requires Covered(s, w) && s'.loops == s.loops && s'.wrapper == s.wrapper && s'.thread == s.thread
    ensures Covered(s', w)
  {
    forall g: nat | Startable(s', g) ensures Startable(s, g) {
    }
  }

  lemma InvParts(s: State)
    requires Inv(s)
    ensures Live(s) && Issued(s) && WaitersCovered(s) && RetiredStay(s) && OnceOnly(s)
  {
  }
}
