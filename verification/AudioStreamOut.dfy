/** An output stream of the Bluetooth audio HAL (system/audio_bluetooth_hw/stream_apis.cc) as a
    protocol: framework calls, which hold the stream's mutex across the waits of Start and Suspend,
    writers, which drop it, and callbacks from the stack, which do not take it. */
module AudioStreamOut {
  import opened Wrappers
  import opened AudioPort
  import opened Entries
  import Params = AudioParams

  /** What a call does after its wait on the port. */
  datatype Then = Return | FinishParameters(params: map<string, string>) | FinishWrite(writer: nat)

  /** The call that holds the mutex while it waits for the port to leave `goal`. */
  datatype Wait = Wait(goal: StreamState, then_: Then)

  /** Where out_write is: before its resume, in WriteData, or refused by resume. */
  datatype Writer = Resuming(bytes: nat) | Writing(bytes: nat) | Refused(bytes: nat)

  datatype Stream = Stream(
    port: Port,
    rendered: nat,
    presented: nat,
    holder: Option<Wait>,
    writers: map<nat, Writer>,
    closed: bool)

  datatype Step =
    | Callback(event: HalEvent)
    | StandbyOrPause(accepted: bool)
    | Resume(accepted: bool)
    | SetParameters(kvpairs: string, accepted: bool)
    | WaitEnds
    | WriteBegins(writer: nat, bytes: nat)
    | WriteResumes(writer: nat, accepted: bool)
    | WriteRefused(writer: nat)
    | WriteEnds(writer: nat, written: nat, frameSize: nat)
    | Close

  /** A stream just opened on a port that SetUp registered. */
  function Opened(cookie: nat, a2dp: bool): Stream {
    Stream(Port(Some(cookie), Standby, a2dp), 0, 0, None, map[], false)
  }

  predicate Holds(params: map<string, string>, key: string, value: string) {
    key in params && params[key] == value
  }

  /** The A2dpSuspended part of out_set_parameters up to a possible wait in Suspend. */
  function SuspendParameter(s: Stream, params: map<string, string>, accepted: bool): (Stream, bool) {
    if "A2dpSuspended" !in params || !s.port.a2dp then (s, false)
    else if params["A2dpSuspended"] == "true" then
      var s1 := s.(rendered := 0);
      if s.port.state == Started then
        var (p, waits) := BeginSuspend(s.port, accepted);
        if waits then (s1.(port := p), true) else (s1.(port := p.(state := Disabled)), false)
      else if s.port.state != Disabled then (s1.(port := Stop(s.port)), false)
      else (s1, false)
    else if s.port.state == Disabled then (s.(port := s.port.(state := Standby)), false)
    else (s, false)
  }

  predicate AsksToClose(params: map<string, string>) {
    Holds(params, "closing", "true") || Holds(params, "exiting", "1")
  }

  /** The closing and exiting parts: effective unless the stream is already disabled. */
  function CloseParameters(s: Stream, params: map<string, string>): Stream {
    if AsksToClose(params) && s.port.state != Disabled
    then s.(rendered := 0, presented := 0, port := Stop(s.port))
    else s
  }

  /** out_resume up to a possible wait in Start: the stream, whether it waits, and whether it has
      already returned 0. */
  function BeginResume(s: Stream, accepted: bool): (Stream, bool, bool) {
    if s.port.state == Standby then
      var (p, waits) := BeginStart(s.port, accepted);
      (s.(port := p), waits, false)
    else (s, false, s.port.state == Started)
  }

  predicate Enabled(s: Stream, step: Step) {
    && !s.closed
    && match step
       case Callback(_) => true
       case StandbyOrPause(_) => s.holder.None?
       case Resume(_) => s.holder.None?
       case SetParameters(_, _) => s.holder.None?
       case WaitEnds => s.holder.Some?
       case WriteBegins(w, _) => s.holder.None? && w !in s.writers
       case WriteResumes(w, _) => s.holder.None? && w in s.writers && s.writers[w].Resuming?
       case WriteRefused(w) => w in s.writers && s.writers[w].Refused?
       case WriteEnds(w, _, frameSize) =>
         s.holder.None? && w in s.writers && s.writers[w].Writing? && frameSize > 0
       case Close => s.holder.None? && s.writers == map[]
  }

  function EndWait(s: Stream, wait: Wait): Stream {
    var s1 := s.(holder := None);
    match wait.then_
    case Return => s1
    case FinishParameters(params) => CloseParameters(s1.(port := s.port.(state := Disabled)), params)
    case FinishWrite(w) =>
      if w !in s.writers then s1
      else
        var bytes := s.writers[w].bytes;
        s1.(writers := s.writers[w := if s.port.state == Started then Writing(bytes) else Refused(bytes)])
  }

  function Next(s: Stream, step: Step): Stream
    requires Enabled(s, step)
  {
    match step
    case Callback(e) => s.(port := Deliver(s.port, e))
    case StandbyOrPause(accepted) =>
      if s.port.state != Started then s
      else
        var (p, waits) := BeginSuspend(s.port, accepted);
        s.(rendered := 0, port := p, holder := if waits then Some(Wait(Suspending, Return)) else None)
    case Resume(accepted) =>
      var (s1, waits, _) := BeginResume(s, accepted);
      s1.(holder := if waits then Some(Wait(Starting, Return)) else None)
    case SetParameters(kvpairs, accepted) =>
      var params := Params.Parse(kvpairs);
      var (s1, waits) := SuspendParameter(s, params, accepted);
      if waits then s1.(holder := Some(Wait(Suspending, FinishParameters(params))))
      else CloseParameters(s1, params)
    case WaitEnds => EndWait(s, s.holder.value)
    case WriteBegins(w, bytes) =>
      s.(writers := s.writers[w := if s.port.state == Started then Writing(bytes) else Resuming(bytes)])
    case WriteResumes(w, accepted) =>
      var bytes := s.writers[w].bytes;
      var (s1, waits, ok) := BeginResume(s, accepted);
      if waits then s1.(holder := Some(Wait(Starting, FinishWrite(w))))
      else s1.(writers := s.writers[w := if ok then Writing(bytes) else Refused(bytes)])
    case WriteRefused(w) => s.(writers := s.writers - {w})
    case WriteEnds(w, written, frameSize) =>
      var frames := if written > 0 then s.writers[w].bytes / frameSize else 0;
      s.(writers := s.writers - {w}, rendered := s.rendered + frames, presented := s.presented + frames)
    case Close =>
      var s1 := if s.port.state != Disabled then s.(rendered := 0, presented := 0, port := Stop(s.port)) else s;
      s1.(port := s1.port.(cookie := None), closed := true)
  }

  /** What out_write returns when the step finishes it. */
  function WriteResult(s: Stream, step: Step): Option<nat>
    requires Enabled(s, step)
  {
    match step
    case WriteRefused(w) => Some(if s.port.state == Disabled then s.writers[w].bytes else 0)
    case WriteEnds(_, written, _) => Some(written)
    case _ => None
  }

  // ----- how the port's state changes

  /** The framework asks an A2DP stream to come out of suspension. */
  predicate Unsuspends(s: Stream, step: Step) {
    && step.SetParameters?
    && s.port.a2dp
    && var params := Params.Parse(step.kvpairs);
       "A2dpSuspended" in params && params["A2dpSuspended"] != "true"
  }

  /** The framework asks an A2DP stream to suspend. */
  predicate Suspends(s: Stream, step: Step) {
    step.SetParameters? && s.port.a2dp && Holds(Params.Parse(step.kvpairs), "A2dpSuspended", "true")
  }

  predicate ClosesByParameters(step: Step) {
    step.SetParameters? && AsksToClose(Params.Parse(step.kvpairs))
  }

  /** A control result under this port's cookie, with one of the given statuses. */
  predicate ResultArrives(s: Stream, step: Step, results: set<Status>) {
    && step.Callback? && step.event.ControlResult?
    && s.port.cookie == Some(step.event.cookie) && step.event.status in results
  }

  /** The session of this port changes, the stream is closed, or a call that waited for a suspension on
      behalf of A2dpSuspended=true goes on. */
  predicate Ends(s: Stream, step: Step) {
    || (step.Callback? && step.event.SessionChanged? && s.port.cookie == Some(step.event.cookie))
    || step.Close?
    || (step.WaitEnds? && s.holder.Some? && s.holder.value.then_.FinishParameters?)
  }

  /** What takes a stream from one state to another one. */
  predicate Cause(s: Stream, step: Step, from: StreamState, to: StreamState) {
    match (from, to)
    case (Standby, Starting) => step.Resume? || step.WriteResumes?
    case (Standby, Disabled) => Ends(s, step) || Suspends(s, step) || ClosesByParameters(step)
    case (Starting, Started) => ResultArrives(s, step, {Success})
    case (Starting, Standby) => ResultArrives(s, step, {Reconfiguration, Failure})
    case (Starting, Disabled) => Ends(s, step) || Suspends(s, step) || ClosesByParameters(step)
    case (Started, Standby) => ResultArrives(s, step, {Success, Reconfiguration})
    case (Started, Suspending) => step.StandbyOrPause? || (Suspends(s, step) && step.accepted)
    case (Started, Disabled) =>
      || Ends(s, step)
      || (Suspends(s, step) && !step.accepted)
      || (ClosesByParameters(step) && !Suspends(s, step))
    case (Suspending, Standby) => ResultArrives(s, step, {Success})
    case (Suspending, Disabled) =>
      || ResultArrives(s, step, {Reconfiguration, Failure})
      || Ends(s, step) || Suspends(s, step) || ClosesByParameters(step)
    case (Disabled, Standby) => Unsuspends(s, step) && !ClosesByParameters(step)
    case _ => false
  }

  /** Any step takes a registered stream to another state exactly when it is a cause of that change. */
  lemma TransitionIff(s: Stream, step: Step, to: StreamState)
    requires Enabled(s, step) && s.port.cookie.Some? && to != s.port.state
    ensures Next(s, step).port.state == to <==> Cause(s, step, s.port.state, to)
  {
    hide Params.Parse;
    if step.SetParameters? {
      ParametersTransition(s, step, to);
    }
  }

  lemma ParametersTransition(s: Stream, step: Step, to: StreamState)
    requires Enabled(s, step) && s.port.cookie.Some? && to != s.port.state && step.SetParameters?
    ensures Next(s, step).port.state == to <==> Cause(s, step, s.port.state, to)
  {
    hide Params.Parse;
  }

  /** Disabled is left by A2dpSuspended with a value other than "true" on an A2DP stream, unless the
      same parameters also ask to close, and by nothing else. */
  lemma LeavesDisabledIff(s: Stream, step: Step)
    requires Enabled(s, step) && s.port.state == Disabled && s.port.cookie.Some?
    ensures Next(s, step).port.state != Disabled <==> Unsuspends(s, step) && !ClosesByParameters(step)
    ensures Next(s, step).port.state != Disabled ==> Next(s, step).port.state == Standby
  {
    hide Params.Parse;
  }

  /** Started is entered only from Starting, by a Success result for this port's cookie. */
  lemma EntersStartedOnly(s: Stream, step: Step)
    requires Enabled(s, step) && s.port.state != Started && Next(s, step).port.state == Started
    ensures s.port.state == Starting && s.port.cookie.Some?
    ensures step == Callback(ControlResult(s.port.cookie.value, Success))
  {
    hide Params.Parse;
  }

  /** Starting is entered only from Standby, by a resume on behalf of the framework or a writer. */
  lemma EntersStartingOnly(s: Stream, step: Step)
    requires Enabled(s, step) && s.port.state != Starting && Next(s, step).port.state == Starting
    ensures s.port.state == Standby && (step.Resume? || step.WriteResumes?)
  {
    hide Params.Parse;
  }

  /** Which calls go on to wait, holding the mutex: those that the session control accepts in the state
      they apply to. */
  lemma WaitsIff(s: Stream, step: Step)
    requires Enabled(s, step) && s.port.cookie.Some? && s.holder.None?
    ensures Next(s, step).holder.Some? <==>
            || (step.Resume? && s.port.state == Standby && step.accepted)
            || (step.WriteResumes? && s.port.state == Standby && step.accepted)
            || (step.StandbyOrPause? && s.port.state == Started && step.accepted)
            || (Suspends(s, step) && s.port.state == Started && step.accepted)
  {
    hide Params.Parse;
  }

  /** What a call that waits is waiting for and on whose behalf; it holds the mutex until its wait ends. */
  lemma WaitsFor(s: Stream, step: Step)
    requires Enabled(s, step)
    ensures var s' := Next(s, step);
            if s.holder.Some? then s'.holder == (if step.WaitEnds? then None else s.holder)
            else if s'.holder.None? then true
            else
              && s'.holder.value.goal == (if step.Resume? || step.WriteResumes? then Starting else Suspending)
              && s'.holder.value.then_ ==
                 (if step.WriteResumes? then FinishWrite(step.writer)
                  else if step.SetParameters? then FinishParameters(Params.Parse(step.kvpairs))
                  else Return)
  {
    hide Params.Parse;
  }

  /** The parameter strings closing=true and exiting=1 disable a stream and clear its counters. */
  lemma ClosingStrings(s: Stream, kvpairs: string, accepted: bool)
    requires Enabled(s, SetParameters(kvpairs, accepted)) && s.port.cookie.Some? && s.port.state != Disabled
    requires kvpairs == "closing=true" || kvpairs == "exiting=1"
    ensures Cleared(Next(s, SetParameters(kvpairs, accepted)))
  {
    hide Params.Parse, Next, Cleared;
    if kvpairs == "closing=true" {
      Parsed("closing", "true", kvpairs);
    } else {
      Parsed("exiting", "1", kvpairs);
    }
    ParameterCloses(s, kvpairs, accepted);
  }

  /** The parameter string A2dpSuspended=true disables an A2DP stream, at once unless it is started. */
  lemma SuspendString(s: Stream, kvpairs: string, accepted: bool)
    requires Enabled(s, SetParameters(kvpairs, accepted)) && s.port.cookie.Some? && s.port.a2dp
    requires s.port.state != Disabled && s.port.state != Started && kvpairs == "A2dpSuspended=true"
    ensures Next(s, SetParameters(kvpairs, accepted)).port.state == Disabled
  {
    hide Params.Parse, Next;
    Parsed("A2dpSuspended", "true", kvpairs);
    TransitionIff(s, SetParameters(kvpairs, accepted), Disabled);
  }

  /** The parameter string A2dpSuspended=false brings a disabled A2DP stream back. */
  lemma UnsuspendString(s: Stream, kvpairs: string, accepted: bool)
    requires Enabled(s, SetParameters(kvpairs, accepted)) && s.port.cookie.Some? && s.port.a2dp
    requires s.port.state == Disabled && kvpairs == "A2dpSuspended=false"
    ensures Next(s, SetParameters(kvpairs, accepted)).port.state == Standby
  {
    hide Params.Parse, Next;
    Parsed("A2dpSuspended", "false", kvpairs);
    TransitionIff(s, SetParameters(kvpairs, accepted), Standby);
  }

  predicate Cleared(s: Stream) {
    s.port.state == Disabled && s.rendered == 0 && s.presented == 0
  }

  lemma ParameterCloses(s: Stream, kvpairs: string, accepted: bool)
    requires Enabled(s, SetParameters(kvpairs, accepted)) && s.port.cookie.Some? && s.port.state != Disabled
    requires Params.Parse(kvpairs) == map["closing" := "true"] || Params.Parse(kvpairs) == map["exiting" := "1"]
    ensures Cleared(Next(s, SetParameters(kvpairs, accepted)))
  {
    hide Params.Parse;
  }

  lemma Parsed(key: string, value: string, kvpairs: string)
    requires key != "" && ';' !in key && '=' !in key && ';' !in value && '=' !in value
    requires kvpairs == key + "=" + value
    ensures Params.Parse(kvpairs) == map[key := value]
  {
    Params.ParseOne(Entry(key, value));
  }

  // ----- writers

  /** Out_write passes on to WriteData exactly in a step of its own taken while the port is started. */
  lemma ReachesWriteDataIff(s: Stream, step: Step, w: nat)
    requires Enabled(s, step) && !(w in s.writers && s.writers[w].Writing?)
    ensures w in Next(s, step).writers && Next(s, step).writers[w].Writing? <==>
            && s.port.state == Started
            && (|| (step.WriteBegins? && step.writer == w)
                || (step.WriteResumes? && step.writer == w)
                || (step.WaitEnds? && s.holder.value.then_ == FinishWrite(w) && w in s.writers))
  {
    hide Params.Parse;
  }

  /** Out_write is refused exactly when its resume neither finds the port started nor gets to wait for it,
      or has waited in vain. */
  lemma RefusedIff(s: Stream, step: Step, w: nat)
    requires Enabled(s, step) && s.port.cookie.Some? && !(w in s.writers && s.writers[w].Refused?)
    ensures w in Next(s, step).writers && Next(s, step).writers[w].Refused? <==>
            || (step.WriteResumes? && step.writer == w && s.port.state != Started &&
                !(s.port.state == Standby && step.accepted))
            || (step.WaitEnds? && s.holder.value.then_ == FinishWrite(w) && w in s.writers && s.port.state != Started)
  {
    hide Params.Parse;
  }

  lemma WriterStep(s: Stream, step: Step, w: nat)
    requires Enabled(s, step) && w in s.writers && !(step.WriteEnds? && step.writer == w) && step != WriteRefused(w)
    ensures w in Next(s, step).writers && Next(s, step).writers[w].bytes == s.writers[w].bytes
  {
    hide Params.Parse;
  }

  /** What out_write returns: what the stack wrote, or, when resume was refused, all bytes if the stream
      is disabled and none otherwise. */
  lemma WriteReturns(s: Stream, step: Step)
    requires Enabled(s, step)
    ensures step.WriteEnds? ==> WriteResult(s, step) == Some(step.written)
    ensures step.WriteRefused? ==>
              WriteResult(s, step) == Some(if s.port.state == Disabled then s.writers[step.writer].bytes else 0)
    ensures !step.WriteEnds? && !step.WriteRefused? ==> WriteResult(s, step) == None
  {
  }
}
