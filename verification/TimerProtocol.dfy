/** OnceTimer and RepeatingTimer (system/common/once_timer.cc, system/common/repeating_timer.cc) as
    one protocol between API callers and message-loop threads.

    Assumptions: each closure that a loop takes from its queue is one step, except that the user task
    inside RunTask runs between two steps and may call the timer; each API call is one step up to its
    wait and one step after it; a loop may take its closures in any order and may die between any two
    of them, which drops its queue; posting to a live loop succeeds. A cancelable wrapper is a
    generation number: Reset installs a fresh one, Cancel retires it. */
module TimerProtocol {
  import opened Wrappers

  datatype Kind = Once | Repeating

  /** RunTask through the wrapper of generation `gen`, or CancelClosure holding a promise. */
  datatype Closure = Callback(gen: nat) | Cancel(promise: nat)

  /** `running` is the generation of the timer task the loop is in the middle of. */
  datatype Loop = Loop(alive: bool, queue: seq<Closure>, running: Option<nat>)

  datatype Actor = User(id: nat) | OnLoop(loop: nat)

  /** A blocking call that waits for its promise. `floor` is the generation counter when the call
      was made; Schedule goes on to arm `target`. */
  datatype Waiting = Waiting(promise: nat, floor: nat, target: Option<nat>)

  /** `thread` is message_loop_thread_, `wrapper` the live generation of task_wrapper_, `task` the
      generation whose task task_ holds. `starts` lists the generations whose task was started and
      `retired` is a bound below which every generation was superseded by a call that returned. */
  datatype State = State(
    kind: Kind,
    loops: map<nat, Loop>,
    thread: Option<nat>,
    wrapper: Option<nat>,
    task: Option<nat>,
    lock: Option<Actor>,
    waiting: map<Actor, Waiting>,
    nextGen: nat,
    nextPromise: nat,
    starts: seq<nat>,
    retired: nat)

  datatype Step =
    | CallSchedule(actor: Actor, target: nat)
    | CallCancel(actor: Actor)
    | CallCancelAndWait(actor: Actor)
    | WaitReturns(actor: Actor)
    | RunClosure(loop: nat, index: nat)
    | TaskEnds(loop: nat)
    | LoopStarts(loop: nat)
    | LoopDies(loop: nat)
    | ThreadDestroyed(loop: nat)

  function Initial(kind: Kind): State {
    State(kind, map[], None, None, None, None, map[], 0, 0, [], 0)
  }

  predicate Alive(loops: map<nat, Loop>, l: nat) {
    l in loops && loops[l].alive
  }

  /** DoInThread: appended to a live loop's queue, destroyed otherwise. */
  function Post(loops: map<nat, Loop>, l: nat, c: Closure): map<nat, Loop> {
    if Alive(loops, l) then loops[l := loops[l].(queue := loops[l].queue + [c])] else loops
  }

  /** The closure exists in some queue. A promise is pending exactly while its closure does: the
      closure sets it when run and breaks it when destroyed. */
  ghost predicate Queued(loops: map<nat, Loop>, c: Closure) {
    exists l: nat :: l in loops && c in loops[l].queue
  }

  function CancelClosure(s: State): State {
    s.(thread := None, wrapper := None, task := if s.kind.Repeating? then None else s.task)
  }

  /** CancelHelper with promise number `nextPromise`. */
  function CancelHelper(s: State, a: Actor): State {
    var s1 := s.(nextPromise := s.nextPromise + 1);
    match s.thread
    case None => s1
    case Some(l) =>
      if a == OnLoop(l) then CancelClosure(s1)
      else s1.(loops := Post(s.loops, l, Cancel(s.nextPromise)))
  }

  /** Schedule after its wait: install the closure and post it, or undo when the post fails. */
  function Arm(s: State, target: nat): State {
    var g := s.nextGen;
    var s1 := s.(task := Some(g), nextGen := g + 1);
    if Alive(s.loops, target) then
      s1.(wrapper := Some(g), thread := Some(target), loops := Post(s.loops, target, Callback(g)))
    else
      s1.(wrapper := None, thread := None)
  }

  function Max(a: nat, b: nat): nat {
    if a > b then a else b
  }

  predicate MayCall(s: State, a: Actor) {
    && s.lock == None && a !in s.waiting
    && (a.OnLoop? ==> Alive(s.loops, a.loop))
  }

  /** The loop's own thread is not blocked in a timer call. */
  predicate LoopFree(s: State, l: nat) {
    Alive(s.loops, l) && OnLoop(l) !in s.waiting
  }

  ghost predicate Enabled(s: State, step: Step) {
    match step
    case CallSchedule(a, _) => MayCall(s, a)
    case CallCancel(a) => MayCall(s, a)
    case CallCancelAndWait(a) => MayCall(s, a)
    case WaitReturns(a) => a in s.waiting && !Queued(s.loops, Cancel(s.waiting[a].promise))
    case RunClosure(l, i) => LoopFree(s, l) && s.loops[l].running == None && i < |s.loops[l].queue|
    case TaskEnds(l) => LoopFree(s, l) && s.loops[l].running.Some?
    case LoopStarts(l) => !Alive(s.loops, l)
    case LoopDies(l) => LoopFree(s, l) && s.loops[l].running == None
    case ThreadDestroyed(l) => !Alive(s.loops, l)
  }

  function TakeClosure(s: State, l: nat, i: nat): State
    requires l in s.loops && i < |s.loops[l].queue|
  {
    var q := s.loops[l].queue;
    s.(loops := s.loops[l := s.loops[l].(queue := q[..i] + q[i + 1..])])
  }

  /** RunTask gets past its guard, so the user closure is about to start. */
  predicate TaskWouldRun(s: State, g: nat) {
    s.wrapper == Some(g) && s.thread.Some? && Alive(s.loops, s.thread.value)
  }

  /** RunTask up to and including the start of the user task. */
  function StartTask(s: State, l: nat, g: nat): State
    requires TaskWouldRun(s, g) && l in s.loops
  {
    var s1 :=
      if s.kind.Once? then s.(wrapper := None, task := None)
      else s.(loops := Post(s.loops, s.thread.value, Callback(g)));
    s1.(starts := s.starts + (if s.task.Some? then [s.task.value] else []),
        loops := s1.loops[l := s1.loops[l].(running := Some(g))])
  }

  function Next(s: State, step: Step): State
    requires Enabled(s, step)
  {
    match step
    case CallSchedule(a, target) =>
      CancelHelper(s, a).(lock := Some(a),
                          waiting := s.waiting[a := Waiting(s.nextPromise, s.nextGen, Some(target))])
    case CallCancel(a) => CancelHelper(s, a)
    case CallCancelAndWait(a) =>
      CancelHelper(s, a).(waiting := s.waiting[a := Waiting(s.nextPromise, s.nextGen, None)])
    case WaitReturns(a) =>
      var w := s.waiting[a];
      (match w.target
       case None => s.(retired := Max(s.retired, w.floor))
       case Some(target) => Arm(s, target).(lock := None, retired := Max(s.retired, s.nextGen)))
      .(waiting := s.waiting - {a})
    case RunClosure(l, i) =>
      var s1 := TakeClosure(s, l, i);
      (match s.loops[l].queue[i]
       case Cancel(_) => CancelClosure(s1)
       case Callback(g) => if TaskWouldRun(s1, g) then StartTask(s1, l, g) else s1)
    case TaskEnds(l) =>
      var s1 := if s.kind.Once? then s.(thread := None) else s;
      s1.(loops := s.loops[l := s.loops[l].(running := None)])
    case LoopStarts(l) => s.(loops := s.loops[l := Loop(true, [], None)])
    case LoopDies(l) => s.(loops := s.loops[l := Loop(false, [], None)])
    case ThreadDestroyed(l) => s.(thread := if s.thread == Some(l) then None else s.thread)
  }

  // ----- the invariant

  /** A queued callback of generation `g` would still start its task. */
  ghost predicate Startable(s: State, g: nat) {
    s.wrapper == Some(g) && s.thread.Some? && Queued(s.loops, Callback(g))
  }

  /** Position `i` of loop `l` holds a callback that the wrapper has not retired. */
  predicate LiveAt(s: State, l: nat, i: nat) {
    l in s.loops && i < |s.loops[l].queue| && s.wrapper.Some? && s.loops[l].queue[i] == Callback(s.wrapper.value)
  }

  ghost predicate Issued(s: State) {
    && (s.wrapper.Some? ==> s.wrapper.value < s.nextGen && s.task == s.wrapper)
    && (forall l: nat, i: nat :: l in s.loops && i < |s.loops[l].queue| ==>
          match s.loops[l].queue[i]
          case Callback(g) => g < s.nextGen
          case Cancel(p) => p < s.nextPromise)
    && s.retired <= s.nextGen
    && (forall a :: a in s.waiting ==> s.waiting[a].floor <= s.nextGen)
    && (forall g: nat :: g in s.starts ==> g < s.nextGen)
    && (forall l: nat :: l in s.loops && !s.loops[l].alive ==> s.loops[l] == Loop(false, [], None))
  }

  ghost predicate OneLiveCallback(s: State) {
    forall l: nat, i: nat, m: nat, j: nat :: LiveAt(s, l, i) && LiveAt(s, m, j) ==> l == m && i == j
  }

  /** A live callback sits on the loop that the timer thinks it is scheduled on. */
  ghost predicate LiveOnThread(s: State) {
    forall l: nat, i: nat :: LiveAt(s, l, i) && s.thread.Some? ==> s.thread == Some(l)
  }

  /** Whoever waits behind a promise waits behind a cancel closure queued with the callback. */
  ghost predicate WaitersCovered(s: State) {
    forall a, g: nat :: a in s.waiting && g < s.waiting[a].floor && Startable(s, g) ==>
      s.thread.value in s.loops && Cancel(s.waiting[a].promise) in s.loops[s.thread.value].queue
  }

  ghost predicate RetiredStay(s: State) {
    forall g: nat :: Startable(s, g) ==> g >= s.retired
  }

  ghost predicate OnceOnly(s: State) {
    s.kind.Once? ==>
      && (forall g: nat :: g in s.starts ==> !Startable(s, g))
      && (forall i, j :: 0 <= i < j < |s.starts| ==> s.starts[i] != s.starts[j])
  }

  ghost predicate Inv(s: State) {
    && Issued(s) && OneLiveCallback(s) && LiveOnThread(s)
    && WaitersCovered(s) && RetiredStay(s) && OnceOnly(s)
  }
}
