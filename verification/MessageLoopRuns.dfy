/** What MessageLoopThread keeps in every interleaving of its callers and workers. */
module MessageLoopRuns {
  import opened MessageLoopThread
  import opened Wrappers

  lemma KeepsOneJoiner(s: State, step: Step)
    requires Inv(s) && Enabled(s, step)
    ensures OneJoiner(Next(s, step))
  {
    var s' := Next(s, step);
    match step
    case ShutDown(c) =>
      if s' != s {
        assert ShutsDown(s', c);
        forall d | ShutsDown(s', d) ensures d == c {
          assert d != c ==> ShutsDown(s, d);
        }
      }
    case JoinReturns(c) =>
      assert ShutsDown(s, c) && ShutsDown(s', c);
      forall d | ShutsDown(s', d) ensures d == c {
        assert ShutsDown(s, d);
      }
    case DeleteThread(c) =>
      assert ShutsDown(s, c);
      forall d ensures !ShutsDown(s', d) {
        assert ShutsDown(s', d) ==> ShutsDown(s, d);
      }
    case _ =>
      forall d ensures ShutsDown(s', d) <==> ShutsDown(s, d) {
      }
  }

  lemma KeepsPhase(s: State, step: Step)
    requires Inv(s) && Enabled(s, step)
    ensures PhaseAgrees(Next(s, step))
  {
    match step
    case StartUp(_) =>
      assert forall d :: d in s.callers && s.callers[d] == Joined ==> ShutsDown(s, d);
    case DeleteThread(c) => assert ShutsDown(s, c);
    case JoinReturns(c) => assert ShutsDown(s, c);
    case _ =>
  }

  lemma KeepsAccounts(s: State, step: Step)
    requires Inv(s) && Enabled(s, step)
    ensures Accounted(Next(s, step))
  {
    hide OneJoiner;
  }

  lemma KeepsWorker(s: State, step: Step)
    requires Inv(s) && Enabled(s, step)
    ensures LoopFieldsAgree(Next(s, step)) && OneWorker(Next(s, step))
  {
    hide OneJoiner, Accounted;
  }

  lemma StepKeeps(s: State, step: Step)
    requires Inv(s) && Enabled(s, step)
    ensures Inv(Next(s, step))
  {
    hide Next, Enabled;
    KeepsOneJoiner(s, step);
    KeepsPhase(s, step);
    KeepsAccounts(s, step);
    KeepsWorker(s, step);
  }

  ghost predicate IsRun(states: seq<State>, steps: seq<Step>) {
    && |states| == |steps| + 1
    && states[0] == NEVER_STARTED
    && forall i :: 0 <= i < |steps| ==>
         Enabled(states[i], steps[i]) && states[i + 1] == Next(states[i], steps[i])
  }

  /** In every interleaving of any number of StartUp and ShutDown calls: the loop fields agree
      whenever the lock is free, at most one worker exists, and a shutdown has exactly one joining caller. */
  lemma {:induction false} RunKeeps(states: seq<State>, steps: seq<Step>, i: nat)
    requires IsRun(states, steps) && i < |states|
    ensures Inv(states[i])
  {
    if i == 0 {
      assert forall c :: !ShutsDown(NEVER_STARTED, c);
    } else {
      RunKeeps(states, steps, i - 1);
      StepKeeps(states[i - 1], steps[i - 1]);
    }
  }

  /** The join and the deletion, which read thread_ outside or after the first lock, never meet
      null, and the worker being deleted has exited and was not deleted before. */
  lemma JoinerOwnsThread(states: seq<State>, steps: seq<Step>, i: nat, c: nat)
    requires IsRun(states, steps) && i < |states| && ShutsDown(states[i], c)
    ensures var s := states[i];
            && s.thread.Some? && s.shuttingDown && s.thread.value !in s.deletedBy
            && s.thread.value in s.workers
            && (s.callers[c] == Joined ==> s.workers[s.thread.value] == Exited)
            && forall d :: ShutsDown(s, d) ==> d == c
  {
    RunKeeps(states, steps, i);
  }

  /** Deleting the worker brings the object back to the never-started state, apart from callers
      still waiting in StartUp and the record of past workers. */
  lemma DeletionRestoresInitialState(states: seq<State>, steps: seq<Step>, i: nat)
    requires IsRun(states, steps) && i < |steps| && steps[i].DeleteThread?
    ensures var s := states[i + 1];
            && s == NEVER_STARTED.(callers := s.callers, created := s.created, deletedBy := s.deletedBy)
            && (forall c :: !ShutsDown(s, c))
            && (forall w: nat :: w in s.deletedBy <==> w < s.created)
  {
    RunKeeps(states, steps, i);
    RunKeeps(states, steps, i + 1);
    assert ShutsDown(states[i], steps[i].caller);
  }

  /** ShutDown does nothing when it arrives between StartUp's lock and the worker's first lock, so
      a ShutDown that has returned does not mean that no worker is left. */
  lemma EarlyShutDownLeavesWorker()
    ensures var s1 := Next(NEVER_STARTED, StartUp(0));
            var s2 := Next(s1, ShutDown(1));
            && 1 !in s2.callers && Enabled(s2, WorkerStarts(0))
            && Next(s2, WorkerStarts(0)).threadId == Some(0)
  {
  }

  /** A ShutDown call returns at once, leaving everything as it was, exactly when there is no
      thread, the worker has not set up its loop or has torn it down, or another shutdown is under
      way; otherwise its caller goes on to join. */
  lemma ShutDownTakesEffectIff(s: State, c: nat)
    requires Inv(s) && Enabled(s, ShutDown(c))
    ensures var s' := Next(s, ShutDown(c));
            && (ShutsDown(s', c) <==> s.thread.Some? && s.workers[s.thread.value] == Looping && !s.shuttingDown)
            && (!ShutsDown(s', c) ==> s' == s)
  {
  }

  /** In every reachable state, after deletions too, StartUp creates a worker exactly when there is no
      thread: a new one, never deleted, that becomes the thread and that the caller waits for. */
  lemma StartUpCreatesIff(s: State, c: nat)
    requires Inv(s) && Enabled(s, StartUp(c))
    ensures var s' := Next(s, StartUp(c));
            && (s.thread.None? <==> exists w: nat :: w in s'.workers && w !in s.workers)
            && (s.thread.Some? ==> s' == s)
            && (forall w: nat :: w in s'.workers && w !in s.workers ==>
                  && s'.thread == Some(w) && s'.workers == map[w := Created]
                  && w !in s.deletedBy && c in s'.callers && s'.callers[c] == AwaitStart(w))
  {
    if s.thread.None? {
      assert s.workers == map[];
      assert s.created in Next(s, StartUp(c)).workers;
    }
  }

  /** When StartUp returns, the worker it waited for is looping, ready for tasks, unless it has been asked
      to quit or is gone. */
  lemma StartUpReturnsRunning(s: State, c: nat)
    requires Inv(s) && Enabled(s, StartUpReturns(c))
    ensures var w := s.callers[c].worker;
            w in s.workers && !s.shuttingDown ==> s.messageLoop == Some(w) && s.threadId == Some(w)
  {
  }

  // ----- a shutdown can be finished

  ghost predicate IsPath(s: State, steps: seq<Step>, s': State)
    decreases |steps|
  {
    if steps == [] then s' == s
    else Enabled(s, steps[0]) && IsPath(Next(s, steps[0]), steps[1..], s')
  }

  /** The next step of the worker or of the caller that joins it. */
  function NextOfShutDown(s: State, c: nat): Step
    requires s.thread.Some? && s.thread.value in s.workers && ShutsDown(s, c)
  {
    match s.workers[s.thread.value]
    case Created => WorkerStarts(s.thread.value)
    case Looping => WorkerLoopEnds(s.thread.value)
    case LoopEnded => WorkerExits(s.thread.value)
    case Exited => if s.callers[c] == Joining then JoinReturns(c) else DeleteThread(c)
  }

  function StepsLeft(s: State, c: nat): nat
    requires s.thread.Some? && s.thread.value in s.workers && ShutsDown(s, c)
  {
    (match s.workers[s.thread.value] case Created => 3 case Looping => 2 case LoopEnded => 1 case Exited => 0) +
    (if s.callers[c] == Joining then 2 else 1)
  }

  lemma ShutDownStep(s: State, c: nat)
    requires Inv(s) && ShutsDown(s, c)
    ensures s.thread.Some? && s.thread.value in s.workers
    ensures var step := NextOfShutDown(s, c);
            && Enabled(s, step)
            && var s' := Next(s, step);
               if step.DeleteThread? then s'.thread == None && c !in s'.callers
               else ShutsDown(s', c) && s'.thread == s.thread && s'.thread.value in s'.workers &&
                    StepsLeft(s', c) < StepsLeft(s, c)
  {
  }

  /** Once ShutDown has gone on to join, the worker and this caller can always finish on their own: the
      worker leaves its loop and exits, the join returns and the thread is deleted. */
  lemma {:induction false} ShutDownCanFinish(s: State, c: nat) returns (steps: seq<Step>, s': State)
    requires Inv(s) && ShutsDown(s, c)
    requires s.thread.Some? && s.thread.value in s.workers
    ensures IsPath(s, steps, s') && s'.thread == None && c !in s'.callers
    decreases StepsLeft(s, c)
  {
    hide Next, Enabled, NextOfShutDown, StepsLeft, ShutsDown, Inv;
    ShutDownStep(s, c);
    var step := NextOfShutDown(s, c);
    var s1 := Next(s, step);
    var rest: seq<Step> := [];
    if step.DeleteThread? {
      s' := s1;
      assert IsPath(s1, [], s1);
    } else {
      StepKeeps(s, step);
      rest, s' := ShutDownCanFinish(s1, c);
    }
    steps := [step] + rest;
    assert steps[1..] == rest;
  }

  /** A caller whose StartUp returned, or who deleted the thread, is free to call again. */
  lemma CallersReturn(s: State, c: nat)
    ensures Enabled(s, StartUpReturns(c)) ==> c !in Next(s, StartUpReturns(c)).callers
    ensures Enabled(s, DeleteThread(c)) ==> c !in Next(s, DeleteThread(c)).callers
  {
  }
}
