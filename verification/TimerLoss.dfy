/** When a schedule that was accepted can be lost without any further call on the timer. */
module TimerLoss {
  import opened Wrappers
  import opened TimerProtocol
  import opened TimerProofs
  import opened TimerRuns

  /** A step that neither takes the callback of `g`, nor ends the loop it is queued on, nor calls the
      timer, nor completes a Schedule already in progress, which would replace `g`. */
  predicate Quiet(s: State, step: Step, g: nat) {
    match step
    case RunClosure(l, i) =>
      l in s.loops && i < |s.loops[l].queue| && s.loops[l].queue[i] != Callback(g)
    case TaskEnds(_) => true
    case LoopStarts(_) => true
    case LoopDies(l) => s.thread != Some(l)
    case ThreadDestroyed(l) => s.thread != Some(l)
    case WaitReturns(a) => a in s.waiting && s.waiting[a].target.None?
    case _ => false
  }

  ghost predicate QuietRun(s: State, g: nat, steps: seq<Step>, s': State)
    decreases |steps|
  {
    if steps == [] then s' == s
    else Enabled(s, steps[0]) && Quiet(s, steps[0], g) && QuietRun(Next(s, steps[0]), g, steps[1..], s')
  }

  /** `g` is still armed after `steps`, if the loops can take them. */
  ghost predicate SurvivesSteps(s: State, g: nat, steps: seq<Step>) {
    forall s' :: QuietRun(s, g, steps, s') ==> Startable(s', g)
  }

  /** `g` stays armed through everything that may happen without a further call on the timer. */
  ghost predicate StaysArmed(s: State, g: nat) {
    forall steps :: SurvivesSteps(s, g, steps)
  }

  /** The loop is not blocked in a timer call, or only in a CancelAndWait that is about to return. */
  ghost predicate CanTurn(s: State, l: nat) {
    OnLoop(l) in s.waiting ==>
      s.waiting[OnLoop(l)].target.None? && !Queued(s.loops, Cancel(s.waiting[OnLoop(l)].promise))
  }

  /** No cancel closure is left over on the loop and, for a OnceTimer, no task of the timer is running
      on it. */
  ghost predicate Calm(s: State, l: nat)
    requires l in s.loops
  {
    && (forall p: nat :: Cancel(p) !in s.loops[l].queue)
    && (s.kind.Once? ==> s.loops[l].running == None)
  }

  ghost predicate Undisturbed(s: State) {
    forall l: nat :: l in s.loops && CanTurn(s, l) ==> Calm(s, l)
  }

  /** A step that drops no cancel closure unblocks nobody. */
  lemma CanTurnBefore(s: State, s': State, l: nat)
    requires CanTurn(s', l)
    requires OnLoop(l) in s.waiting ==>
               || CanTurn(s, l)
               || (OnLoop(l) in s'.waiting && s'.waiting[OnLoop(l)] == s.waiting[OnLoop(l)])
    requires forall p: nat :: Queued(s.loops, Cancel(p)) ==> Queued(s'.loops, Cancel(p))
    ensures CanTurn(s, l)
  {
  }

  lemma OthersStayQueued(s: State, l: nat, i: nat, c: Closure)
    requires l in s.loops && i < |s.loops[l].queue| && s.loops[l].queue[i] != c && Queued(s.loops, c)
    ensures Queued(TakeClosure(s, l, i).loops, c)
  {
    var loops := TakeClosure(s, l, i).loops;
    var m: nat :| m in s.loops && c in s.loops[m].queue;
    var j: nat :| j < |s.loops[m].queue| && s.loops[m].queue[j] == c;
    assert loops[m].queue[if m == l && j > i then j - 1 else j] == c;
    assert c in loops[m].queue;
  }

  lemma QuietTakeKeepsArmed(s: State, l: nat, i: nat, g: nat)
    requires Live(s) && Issued(s) && Startable(s, g) && Undisturbed(s)
    requires Enabled(s, RunClosure(l, i)) && Quiet(s, RunClosure(l, i), g)
    ensures Startable(Next(s, RunClosure(l, i)), g) && Undisturbed(Next(s, RunClosure(l, i)))
  {
    var s' := Next(s, RunClosure(l, i));
    var q := s.loops[l].queue;
    assert CanTurn(s, l) && q[i] in q;
    assert q[i].Callback? && s' == TakeClosure(s, l, i);
    OthersStayQueued(s, l, i, Callback(g));
    forall p: nat | Queued(s.loops, Cancel(p)) ensures Queued(s'.loops, Cancel(p)) {
      OthersStayQueued(s, l, i, Cancel(p));
    }
    forall m: nat | m in s'.loops && CanTurn(s', m) ensures Calm(s', m) {
      CanTurnBefore(s, s', m);
      assert Calm(s, m);
    }
  }

  lemma SameQueues(s: State, loops: map<nat, Loop>, l: nat)
    requires Undisturbed(s) && l in loops && loops == s.loops[l := loops[l]]
    requires l in s.loops ==> forall p: nat :: Cancel(p) in s.loops[l].queue ==> Cancel(p) in loops[l].queue
    ensures forall p: nat :: Queued(s.loops, Cancel(p)) ==> Queued(loops, Cancel(p))
  {
    forall p: nat | Queued(s.loops, Cancel(p)) ensures Queued(loops, Cancel(p)) {
      var m: nat :| m in s.loops && Cancel(p) in s.loops[m].queue;
      assert m in loops && Cancel(p) in loops[m].queue;
    }
  }

  lemma QuietKeepsArmed(s: State, step: Step, g: nat)
    requires Live(s) && Issued(s) && Startable(s, g) && Undisturbed(s)
    requires Enabled(s, step) && Quiet(s, step, g)
    ensures Startable(Next(s, step), g) && Undisturbed(Next(s, step))
  {
    var s' := Next(s, step);
    StartableOnThread(s, g);
    var t := s.thread.value;
    if step.RunClosure? {
      QuietTakeKeepsArmed(s, step.loop, step.index, g);
    } else {
      if step.TaskEnds? || step.LoopStarts? || step.LoopDies? {
        assert step.loop in s.loops ==> CanTurn(s, step.loop) || !s.loops[step.loop].alive;
        SameQueues(s, s'.loops, step.loop);
      }
      assert s'.thread == s.thread && Callback(g) in s'.loops[t].queue;
      forall m: nat | m in s'.loops && CanTurn(s', m) ensures Calm(s', m) {
        CanTurnBefore(s, s', m);
        assert m in s.loops ==> Calm(s, m);
      }
    }
  }

  lemma {:induction false} QuietRunKeepsArmed(s: State, g: nat, steps: seq<Step>, s': State)
    requires Live(s) && Issued(s) && Startable(s, g) && Undisturbed(s) && QuietRun(s, g, steps, s')
    ensures Startable(s', g)
    decreases |steps|
  {
    hide Live, Issued, Startable, Undisturbed, Next, Enabled;
    if steps != [] {
      QuietKeepsArmed(s, steps[0], g);
      KeepsLive(s, steps[0]);
      KeepsIssued(s, steps[0]);
      QuietRunKeepsArmed(Next(s, steps[0]), g, steps[1..], s');
    }
  }

  lemma QuietFirst(s: State, g: nat, first: Step, rest: seq<Step>, s': State)
    requires Enabled(s, first) && Quiet(s, first, g) && QuietRun(Next(s, first), g, rest, s')
    ensures QuietRun(s, g, [first] + rest, s')
  {
    assert ([first] + rest)[1..] == rest;
  }

  /** A left-over cancel closure on a loop that is not blocked disarms the timer. */
  lemma TakingCancelDisarms(s: State, l: nat, g: nat) returns (steps: seq<Step>, s': State)
    requires Issued(s) && l in s.loops && OnLoop(l) !in s.waiting && s.loops[l].running == None
    requires exists p: nat :: Cancel(p) in s.loops[l].queue
    ensures QuietRun(s, g, steps, s') && !Startable(s', g)
  {
    var p: nat :| Cancel(p) in s.loops[l].queue;
    var i: nat :| i < |s.loops[l].queue| && s.loops[l].queue[i] == Cancel(p);
    s' := Next(s, RunClosure(l, i));
    assert QuietRun(s', g, [], s');
    QuietFirst(s, g, RunClosure(l, i), [], s');
    steps := [RunClosure(l, i)] + [];
  }

  /** So does the end of a OnceTimer task. */
  lemma FreeLoopLosesSchedule(s: State, l: nat, g: nat) returns (steps: seq<Step>, s': State)
    requires Issued(s) && l in s.loops && OnLoop(l) !in s.waiting && !Calm(s, l)
    ensures QuietRun(s, g, steps, s') && !Startable(s', g)
  {
    if s.loops[l].running == None {
      steps, s' := TakingCancelDisarms(s, l, g);
    } else {
      var s1 := Next(s, TaskEnds(l));
      if s.kind.Once? {
        steps, s' := [], s1;
      } else {
        KeepsIssued(s, TaskEnds(l));
        steps, s' := TakingCancelDisarms(s1, l, g);
      }
      QuietFirst(s, g, TaskEnds(l), steps, s');
      steps := [TaskEnds(l)] + steps;
    }
  }

  lemma DisturbedLosesSchedule(s: State, g: nat) returns (steps: seq<Step>, s': State)
    requires Issued(s) && !Undisturbed(s)
    ensures QuietRun(s, g, steps, s') && !Startable(s', g)
  {
    var l: nat :| l in s.loops && CanTurn(s, l) && !Calm(s, l);
    var a := OnLoop(l);
    if a in s.waiting {
      var s1 := Next(s, WaitReturns(a));
      KeepsIssued(s, WaitReturns(a));
      steps, s' := FreeLoopLosesSchedule(s1, l, g);
      QuietFirst(s, g, WaitReturns(a), steps, s');
      steps := [WaitReturns(a)] + steps;
    } else {
      steps, s' := FreeLoopLosesSchedule(s, l, g);
    }
  }

  /** In any state with `g` armed, whoever else is waiting, `g` stays armed without a further call if and
      only if the timer is undisturbed. */
  lemma ScheduleSurvivesIff(s: State, g: nat)
    requires Inv(s) && Startable(s, g)
    ensures StaysArmed(s, g) <==> Undisturbed(s)
  {
    hide Issued, Startable, Undisturbed, QuietRun;
    InvParts(s);
    if Undisturbed(s) {
      forall steps ensures SurvivesSteps(s, g, steps) {
        forall s' | QuietRun(s, g, steps, s') ensures Startable(s', g) {
          QuietRunKeepsArmed(s, g, steps, s');
        }
      }
    } else {
      var steps, s' := DisturbedLosesSchedule(s, g);
      assert !SurvivesSteps(s, g, steps);
    }
  }
}
