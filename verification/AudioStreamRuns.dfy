/** What an output stream of the Bluetooth audio HAL keeps over whole runs. */
module AudioStreamRuns {
  import opened AudioPort
  import opened AudioStreamOut
  import opened Wrappers
  import Params = AudioParams

  ghost predicate IsRun(cookie: nat, a2dp: bool, states: seq<Stream>, steps: seq<Step>) {
    && |states| == |steps| + 1
    && states[0] == Opened(cookie, a2dp)
    && forall i :: 0 <= i < |steps| ==>
         Enabled(states[i], steps[i]) && states[i + 1] == Next(states[i], steps[i])
  }

  /** Closing the stream, or asking for it by parameters, resets both counters, unless the stream is
      disabled or the same parameters suspend it. */
  predicate ClearsCounters(s: Stream, step: Step) {
    || (ClosesByParameters(step) && !Suspends(s, step) && (s.port.state != Disabled || Unsuspends(s, step)))
    || (step.Close? && s.port.state != Disabled)
  }

  /** The whole frames of a write that accepted any data. */
  function FramesOf(s: Stream, step: Step): nat {
    if step.WriteEnds? && step.written > 0 && step.frameSize > 0 && step.writer in s.writers
    then s.writers[step.writer].bytes / step.frameSize
    else 0
  }

  /** Frames of accepted writes since the stream was opened or its counters were last cleared. */
  function FramesSinceClear(states: seq<Stream>, steps: seq<Step>, n: nat): nat
    requires n <= |steps| <= |states|
  {
    if n == 0 then 0
    else if ClearsCounters(states[n - 1], steps[n - 1]) then 0
    else FramesSinceClear(states, steps, n - 1) + FramesOf(states[n - 1], steps[n - 1])
  }

  /** Suspending the stream, as standby, pause or A2dpSuspended=true, resets the rendered counter. */
  predicate ResetsRendered(s: Stream, step: Step) {
    || ClearsCounters(s, step)
    || (step.StandbyOrPause? && s.port.state == Started)
    || Suspends(s, step)
  }

  /** Frames of accepted writes since the stream was opened, suspended or cleared. */
  function FramesSinceReset(states: seq<Stream>, steps: seq<Step>, n: nat): nat
    requires n <= |steps| <= |states|
  {
    if n == 0 then 0
    else if ResetsRendered(states[n - 1], steps[n - 1]) then 0
    else FramesSinceReset(states, steps, n - 1) + FramesOf(states[n - 1], steps[n - 1])
  }

  lemma CountersOfStep(s: Stream, step: Step)
    requires Enabled(s, step) && s.port.cookie.Some?
    ensures var s' := Next(s, step);
            && s'.presented == (if ClearsCounters(s, step) then 0 else s.presented + FramesOf(s, step))
            && s'.rendered == (if ResetsRendered(s, step) then 0 else s.rendered + FramesOf(s, step))
            && (ClearsCounters(s, step) ==> ResetsRendered(s, step))
  {
    hide Params.Parse;
  }

  /** Over every interleaving, frames_presented_ is the sum of the whole frames of the writes that
      accepted data since the counters were cleared, frames_rendered_ the same since the stream was
      last suspended or cleared, and so never more. */
  lemma {:induction false} RunCounts(cookie: nat, a2dp: bool, states: seq<Stream>, steps: seq<Step>, n: nat)
    requires IsRun(cookie, a2dp, states, steps) && n < |states|
    ensures states[n].presented == FramesSinceClear(states, steps, n)
    ensures states[n].rendered == FramesSinceReset(states, steps, n)
    ensures states[n].rendered <= states[n].presented
  {
    hide ClearsCounters, ResetsRendered, FramesOf, Next;
    if n > 0 {
      RunCounts(cookie, a2dp, states, steps, n - 1);
      OpenKeepsCookie(cookie, a2dp, states, steps, n - 1);
      CountersOfStep(states[n - 1], steps[n - 1]);
    }
  }

  lemma {:induction false} OpenKeepsCookie(cookie: nat, a2dp: bool, states: seq<Stream>, steps: seq<Step>, n: nat)
    requires IsRun(cookie, a2dp, states, steps) && n < |states|
    ensures states[n].port.a2dp == a2dp && (!states[n].closed ==> states[n].port.cookie == Some(cookie))
  {
    if n > 0 {
      OpenKeepsCookie(cookie, a2dp, states, steps, n - 1);
      PortOfStep(states[n - 1], steps[n - 1]);
    }
  }

  lemma PortOfStep(s: Stream, step: Step)
    requires Enabled(s, step)
    ensures var s' := Next(s, step);
            && s'.port.a2dp == s.port.a2dp
            && (!s'.closed ==> s'.port.cookie == s.port.cookie)
  {
    hide Params.Parse, SuspendParameter, CloseParameters;
    if step.SetParameters? {
      var params := Params.Parse(step.kvpairs);
      ParametersKeepPort(s, params, step.accepted);
      ParametersKeepPort(SuspendParameter(s, params, step.accepted).0, params, step.accepted);
    } else if step.WaitEnds? && s.holder.value.then_.FinishParameters? {
      var disabled := s.(holder := None, port := s.port.(state := Disabled));
      ParametersKeepPort(disabled, s.holder.value.then_.params, false);
    }
  }

  lemma ParametersKeepPort(s: Stream, params: map<string, string>, accepted: bool)
    ensures var s' := SuspendParameter(s, params, accepted).0;
            s'.port.a2dp == s.port.a2dp && s'.port.cookie == s.port.cookie
    ensures var s' := CloseParameters(s, params);
            s'.port.a2dp == s.port.a2dp && s'.port.cookie == s.port.cookie
  {
  }

  /** A disabled stream stays disabled through any calls, writes and callbacks until an A2DP stream
      is told A2dpSuspended with a value other than "true". */
  lemma {:induction false} DisabledUntilUnsuspended(cookie: nat, a2dp: bool, states: seq<Stream>,
                                                    steps: seq<Step>, i: nat, j: nat)
    requires IsRun(cookie, a2dp, states, steps) && i <= j < |states| && states[i].port.state == Disabled
    requires forall k :: i <= k < j ==> !Unsuspends(states[k], steps[k])
    ensures states[j].port.state == Disabled
  {
    if i < j {
      hide Next, Unsuspends;
      DisabledUntilUnsuspended(cookie, a2dp, states, steps, i, j - 1);
      OpenKeepsCookie(cookie, a2dp, states, steps, j - 1);
      LeavesDisabledIff(states[j - 1], steps[j - 1]);
    }
  }

  /** How a stream got to be started: at call `i` a resume took the port from Standby to Starting, at
      `k` a Success result took it to Started, and it has been Starting in between and Started since. */
  lemma {:induction false} StartedByResumeAndSuccess(cookie: nat, a2dp: bool, states: seq<Stream>,
                                                     steps: seq<Step>, j: nat)
    returns (i: nat, k: nat)
    requires IsRun(cookie, a2dp, states, steps) && j < |states| && states[j].port.state == Started
    ensures i < k < j
    ensures states[i].port.state == Standby && (steps[i].Resume? || steps[i].WriteResumes?)
    ensures forall n :: i < n <= k ==> states[n].port.state == Starting
    ensures steps[k] == Callback(ControlResult(cookie, Success))
    ensures forall n :: k < n <= j ==> states[n].port.state == Started
  {
    hide Next;
    if states[j - 1].port.state == Started {
      i, k := StartedByResumeAndSuccess(cookie, a2dp, states, steps, j - 1);
    } else {
      k := j - 1;
      OpenKeepsCookie(cookie, a2dp, states, steps, k);
      EntersStartedOnly(states[k], steps[k]);
      i := StartingByResume(cookie, a2dp, states, steps, k);
    }
  }

  lemma {:induction false} StartingByResume(cookie: nat, a2dp: bool, states: seq<Stream>, steps: seq<Step>, j: nat)
    returns (i: nat)
    requires IsRun(cookie, a2dp, states, steps) && j < |states| && states[j].port.state == Starting
    ensures i < j && states[i].port.state == Standby && (steps[i].Resume? || steps[i].WriteResumes?)
    ensures forall n :: i < n <= j ==> states[n].port.state == Starting
  {
    hide Next;
    if states[j - 1].port.state == Starting {
      i := StartingByResume(cookie, a2dp, states, steps, j - 1);
    } else {
      i := j - 1;
      EntersStartingOnly(states[i], steps[i]);
    }
  }

  /** No result, session change, closing or suspension by parameters. */
  predicate LeavesAlone(s: Stream, step: Step) {
    && !ResultArrives(s, step, {Success, Reconfiguration, Failure})
    && !Ends(s, step) && !Suspends(s, step) && !ClosesByParameters(step)
  }

  lemma {:induction false} StaysPending(cookie: nat, a2dp: bool, states: seq<Stream>, steps: seq<Step>, i: nat, j: nat)
    requires IsRun(cookie, a2dp, states, steps) && i <= j < |states|
    requires states[i].port.state == Starting || states[i].port.state == Suspending
    requires forall k :: i <= k < j ==> LeavesAlone(states[k], steps[k])
    ensures states[j].port.state == states[i].port.state
  {
    hide Next, LeavesAlone;
    if i < j {
      StaysPending(cookie, a2dp, states, steps, i, j - 1);
      OpenKeepsCookie(cookie, a2dp, states, steps, j - 1);
      PendingStep(states[j - 1], steps[j - 1]);
    }
  }

  lemma PendingStep(s: Stream, step: Step)
    requires Enabled(s, step) && s.port.cookie.Some? && LeavesAlone(s, step)
    requires s.port.state == Starting || s.port.state == Suspending
    ensures Next(s, step).port.state == s.port.state
  {
    hide Params.Parse, Next;
    TransitionIff(s, step, Standby);
    TransitionIff(s, step, Started);
    TransitionIff(s, step, Disabled);
    TransitionIff(s, step, if s.port.state == Starting then Suspending else Starting);
  }

  /** A resume from standby and a later success reach Started, and a standby or pause of a started stream
      and a later success reach Standby, whatever other calls, writes and callbacks come in between. */
  lemma RequestAndSuccess(cookie: nat, a2dp: bool, states: seq<Stream>, steps: seq<Step>, i: nat, j: nat)
    requires IsRun(cookie, a2dp, states, steps) && i < j < |steps|
    requires forall k :: i < k < j ==> LeavesAlone(states[k], steps[k])
    requires steps[j] == Callback(ControlResult(cookie, Success))
    ensures states[i].port.state == Standby && (steps[i].Resume? || steps[i].WriteResumes?) ==>
              states[j + 1].port.state == Started
    ensures states[i].port.state == Started && steps[i].StandbyOrPause? ==> states[j + 1].port.state == Standby
  {
    hide Next, LeavesAlone;
    OpenKeepsCookie(cookie, a2dp, states, steps, i);
    OpenKeepsCookie(cookie, a2dp, states, steps, j);
    var resumes := states[i].port.state == Standby && (steps[i].Resume? || steps[i].WriteResumes?);
    var suspends := states[i].port.state == Started && steps[i].StandbyOrPause?;
    if resumes || suspends {
      TransitionIff(states[i], steps[i], if resumes then Starting else Suspending);
      StaysPending(cookie, a2dp, states, steps, i + 1, j);
      TransitionIff(states[j], steps[j], if resumes then Started else Standby);
    }
  }

  /** The bytes that a write counts or reports are those it was called with. */
  lemma {:induction false} WriterKeepsBytes(cookie: nat, a2dp: bool, states: seq<Stream>, steps: seq<Step>,
                                            i: nat, j: nat, w: nat, bytes: nat)
    requires IsRun(cookie, a2dp, states, steps) && i < j < |states| && steps[i] == WriteBegins(w, bytes)
    requires forall k :: i < k < j ==> !(steps[k].WriteEnds? && steps[k].writer == w) && steps[k] != WriteRefused(w)
    ensures w in states[j].writers && states[j].writers[w].bytes == bytes
  {
    if j > i + 1 {
      WriterKeepsBytes(cookie, a2dp, states, steps, i, j - 1, w, bytes);
      WriterStep(states[j - 1], steps[j - 1], w);
    }
  }

  /** A writer that has not got as far as WriteData. */
  ghost predicate NotWriting(s: Stream, w: nat, bytes: nat) {
    && w in s.writers && (s.writers[w] == Resuming(bytes) || s.writers[w] == Refused(bytes))
  }

  lemma DisabledStepKeepsWriterOut(s: Stream, step: Step, w: nat, bytes: nat)
    requires Enabled(s, step) && s.port.state == Disabled && NotWriting(s, w, bytes)
    requires step != WriteRefused(w)
    ensures NotWriting(Next(s, step), w, bytes)
  {
    hide Params.Parse;
  }

  /** A write that begins while the stream is disabled and ends while it still is drops its data: it
      reports all bytes as consumed without ever reaching WriteData, so it counts no frames. */
  lemma {:induction false} DisabledWriteDrops(cookie: nat, a2dp: bool, states: seq<Stream>, steps: seq<Step>,
                                              i: nat, j: nat, w: nat, bytes: nat)
    requires IsRun(cookie, a2dp, states, steps) && i < j < |steps| && steps[i] == WriteBegins(w, bytes)
    requires forall k :: i <= k <= j ==> states[k].port.state == Disabled
    requires forall k :: i < k < j ==> steps[k] != WriteRefused(w)
    requires WriteResult(states[j], steps[j]).Some? && steps[j].writer == w
    ensures steps[j] == WriteRefused(w) && WriteResult(states[j], steps[j]) == Some(bytes)
    ensures states[j + 1].presented == states[j].presented && states[j + 1].rendered == states[j].rendered
  {
    DisabledWriterStaysOut(cookie, a2dp, states, steps, i, j, w, bytes);
  }

  lemma {:induction false} DisabledWriterStaysOut(cookie: nat, a2dp: bool, states: seq<Stream>, steps: seq<Step>,
                                                  i: nat, j: nat, w: nat, bytes: nat)
    requires IsRun(cookie, a2dp, states, steps) && i < j < |states| && steps[i] == WriteBegins(w, bytes)
    requires forall k :: i <= k < j ==> states[k].port.state == Disabled
    requires forall k :: i < k < j ==> steps[k] != WriteRefused(w)
    ensures NotWriting(states[j], w, bytes)
  {
    if j > i + 1 {
      hide Next;
      DisabledWriterStaysOut(cookie, a2dp, states, steps, i, j - 1, w, bytes);
      DisabledStepKeepsWriterOut(states[j - 1], steps[j - 1], w, bytes);
    }
  }
}
