/** The lifecycle of MessageLoopThread (system/common/message_loop_thread.cc, the path without the
    rust shim) as a protocol: any number of callers run StartUp and ShutDown against the worker
    threads. Each block under api_mutex_ is one step, and so is each wait outside it. */
module MessageLoopThread {
  import opened Wrappers

  /** Where a worker is in Run: before its first locked block, inside RunLoop::Run, between the two
      locked blocks, or finished. */
  datatype Phase = Created | Looping | LoopEnded | Exited

  /** Where a caller is: waiting in StartUp for the promise, in ShutDown before join returns, or in
      ShutDown after it. */
  datatype Pc = AwaitStart(worker: nat) | Joining | Joined

  /** Each field names the worker it belongs to. `quit` is the flag that QuitWhenIdle
      sets on the run loop; `deletedBy` records who deleted each finished worker. */
  datatype State = State(
    thread: Option<nat>,
    messageLoop: Option<nat>,
    runLoop: Option<nat>,
    threadId: Option<nat>,
    shuttingDown: bool,
    quit: bool,
    workers: map<nat, Phase>,
    callers: map<nat, Pc>,
    created: nat,
    deletedBy: map<nat, nat>)

  datatype Step =
    | StartUp(caller: nat)
    | StartUpReturns(caller: nat)
    | ShutDown(caller: nat)
    | JoinReturns(caller: nat)
    | DeleteThread(caller: nat)
    | WorkerStarts(worker: nat)
    | WorkerLoopEnds(worker: nat)
    | WorkerExits(worker: nat)

  const NEVER_STARTED := State(None, None, None, None, false, false, map[], map[], 0, map[])

  predicate Enabled(s: State, step: Step) {
    match step
    case StartUp(c) => c !in s.callers
    case StartUpReturns(c) =>
      && c in s.callers && s.callers[c].AwaitStart?
      && (s.callers[c].worker in s.workers ==> s.workers[s.callers[c].worker] != Created)
    case ShutDown(c) => c !in s.callers
    case JoinReturns(c) =>
      && c in s.callers && s.callers[c] == Joining
      && s.thread.Some? && s.thread.value in s.workers && s.workers[s.thread.value] == Exited
    case DeleteThread(c) => c in s.callers && s.callers[c] == Joined && s.thread.Some?
    case WorkerStarts(w) => w in s.workers && s.workers[w] == Created
    case WorkerLoopEnds(w) => w in s.workers && s.workers[w] == Looping && s.quit
    case WorkerExits(w) => w in s.workers && s.workers[w] == LoopEnded
  }

  function Next(s: State, step: Step): State
    requires Enabled(s, step)
  {
    match step
    case StartUp(c) =>
      if s.thread.Some? then s
      else
        s.(thread := Some(s.created),
           workers := s.workers[s.created := Created],
           callers := s.callers[c := AwaitStart(s.created)],
           created := s.created + 1)
    case StartUpReturns(c) => s.(callers := s.callers - {c})
    case ShutDown(c) =>
      if s.thread.None? || s.messageLoop.None? || s.shuttingDown then s
      else s.(shuttingDown := true, quit := true, callers := s.callers[c := Joining])
    case JoinReturns(c) => s.(callers := s.callers[c := Joined])
    case DeleteThread(c) =>
      s.(workers := s.workers - {s.thread.value},
         deletedBy := s.deletedBy[s.thread.value := c],
         thread := None,
         shuttingDown := false,
         callers := s.callers - {c})
    case WorkerStarts(w) =>
      s.(messageLoop := Some(w), runLoop := Some(w), threadId := Some(w), quit := false,
         workers := s.workers[w := Looping])
    case WorkerLoopEnds(w) => s.(workers := s.workers[w := LoopEnded])
    case WorkerExits(w) =>
      s.(threadId := None, messageLoop := None, runLoop := None, quit := false,
         workers := s.workers[w := Exited])
  }

  predicate ShutsDown(s: State, c: nat) {
    c in s.callers && (s.callers[c] == Joining || s.callers[c] == Joined)
  }

  /** The two loops and the thread id are all set or all unset, and set only while the thread
      is. */
  predicate LoopFieldsAgree(s: State) {
    && s.messageLoop == s.threadId && s.runLoop == s.threadId
    && (s.threadId.Some? ==> s.thread == s.threadId)
  }

  /** At most one worker exists, the one that thread_ points to. */
  ghost predicate OneWorker(s: State) {
    s.workers.Keys == if s.thread.Some? then {s.thread.value} else {}
  }

  /** Every worker ever created is the current one or was deleted, by one caller. */
  ghost predicate Accounted(s: State) {
    && (s.thread.Some? ==> s.thread.value < s.created)
    && (forall w: nat :: w in s.deletedBy <==> w < s.created && s.thread != Some(w))
    && (forall c :: c in s.callers && s.callers[c].AwaitStart? ==> s.callers[c].worker < s.created)
  }

  ghost predicate OneJoiner(s: State) {
    && (s.shuttingDown <==> exists c :: ShutsDown(s, c))
    && (forall c, d :: ShutsDown(s, c) && ShutsDown(s, d) ==> c == d)
  }

  ghost predicate PhaseAgrees(s: State) {
    if s.thread.None? then s.threadId == None && !s.shuttingDown && !s.quit
    else
      && s.thread.value in s.workers
      && var p := s.workers[s.thread.value];
         && (s.threadId.Some? <==> p == Looping || p == LoopEnded)
         && (p == Created ==> !s.shuttingDown)
         && (p == Looping ==> s.quit == s.shuttingDown)
         && (p == LoopEnded || p == Exited ==> s.shuttingDown)
         && (s.quit ==> s.threadId.Some?)
         && (forall c :: c in s.callers && s.callers[c] == Joined ==> p == Exited)
  }

  ghost predicate Inv(s: State) {
    LoopFieldsAgree(s) && OneWorker(s) && Accounted(s) && OneJoiner(s) && PhaseAgrees(s)
  }
}
