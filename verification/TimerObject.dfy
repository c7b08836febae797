/** The fields of OnceTimer and RepeatingTimer and the code that rewrites them, one method per step
    of the protocol in TimerProtocol. Posting to the loop is reported to the caller. */
module TimerObject {
  import opened Wrappers
  import P = TimerProtocol

  /** The part of the protocol state that the timer object holds. */
  datatype Fields = Fields(kind: P.Kind, thread: Option<nat>, wrapper: Option<nat>, task: Option<nat>)

  function FieldsOf(s: P.State): Fields {
    Fields(s.kind, s.thread, s.wrapper, s.task)
  }

  class Timer {
    const kind: P.Kind
    var thread: Option<nat>
    var wrapper: Option<nat>
    var task: Option<nat>

    ghost function View(): Fields
      reads this
    {
      Fields(kind, thread, wrapper, task)
    }

    constructor (kind: P.Kind)
      ensures View() == FieldsOf(P.Initial(kind))
    {
      this.kind := kind;
      thread, wrapper, task := None, None, None;
    }

    /** CancelClosure, on the loop thread or inline. */
    method CancelClosure()
      modifies this
      ensures forall s :: FieldsOf(s) == old(View()) ==> View() == FieldsOf(P.CancelClosure(s))
    {
      thread := None;
      wrapper := None;
      if kind.Repeating? {
        task := None;
      }
    }

    /** Where CancelHelper sends the cancel closure: nowhere when nothing is scheduled, inline when
        called on the scheduled thread, else to that thread. */
    method CancelHelper(actor: P.Actor) returns (postTo: Option<nat>)
      modifies this
      ensures forall s :: FieldsOf(s) == old(View()) ==>
                && View() == FieldsOf(P.CancelHelper(s, actor))
                && P.CancelHelper(s, actor).loops ==
                   if postTo.Some? then P.Post(s.loops, postTo.value, P.Cancel(s.nextPromise)) else s.loops
    {
      if thread.None? {
        return None;
      }
      if actor == P.OnLoop(thread.value) {
        CancelClosure();
        return None;
      }
      postTo := thread;
    }

    /** Cancel, which does not wait. */
    method Cancel(actor: P.Actor) returns (postTo: Option<nat>)
      modifies this
      ensures forall s :: FieldsOf(s) == old(View()) && P.Enabled(s, P.CallCancel(actor)) ==>
                && View() == FieldsOf(P.Next(s, P.CallCancel(actor)))
                && P.Next(s, P.CallCancel(actor)).loops ==
                   if postTo.Some? then P.Post(s.loops, postTo.value, P.Cancel(s.nextPromise)) else s.loops
    {
      postTo := CancelHelper(actor);
    }

    /** CancelAndWait up to its wait. */
    method CancelAndWait(actor: P.Actor) returns (postTo: Option<nat>)
      modifies this
      ensures forall s :: FieldsOf(s) == old(View()) && P.Enabled(s, P.CallCancelAndWait(actor)) ==>
                && View() == FieldsOf(P.Next(s, P.CallCancelAndWait(actor)))
                && P.Next(s, P.CallCancelAndWait(actor)).loops ==
                   if postTo.Some? then P.Post(s.loops, postTo.value, P.Cancel(s.nextPromise)) else s.loops
    {
      postTo := CancelHelper(actor);
    }

    /** Schedule after its wait; `posted` is whether the loop took the callback. */
    method Arm(target: nat, gen: nat, posted: bool) returns (scheduled: bool)
      modifies this
      ensures scheduled == posted
      ensures forall s :: FieldsOf(s) == old(View()) && s.nextGen == gen && posted == P.Alive(s.loops, target) ==>
                View() == FieldsOf(P.Arm(s, target))
    {
      task := Some(gen);
      wrapper := Some(gen);
      thread := Some(target);
      if !posted {
        wrapper := None;
        thread := None;
        return false;
      }
      scheduled := true;
    }

    /** RunTask up to the user closure, reached through the live wrapper; `running` is whether the
        scheduled thread runs. */
    method RunTask(running: bool) returns (started: bool, repost: bool, closure: Option<nat>)
      requires wrapper.Some?
      modifies this
      ensures forall s, l: nat ::
                && FieldsOf(s) == old(View())
                && l in s.loops
                && running == (s.thread.Some? && P.Alive(s.loops, s.thread.value))
                ==>
                && started == P.TaskWouldRun(s, old(wrapper).value)
                && (!started ==> View() == old(View()) && !repost)
                && (started ==>
                      && View() == FieldsOf(P.StartTask(s, l, old(wrapper).value))
                      && closure == s.task && repost == s.kind.Repeating?)
    {
      started, repost, closure := false, false, None;
      if thread.None? || !running {
        return;
      }
      closure := task;
      if kind.Once? {
        wrapper := None;
        task := None;
      } else {
        repost := true;
      }
      started := true;
    }

    /** RunTask after the user closure. */
    method TaskEnds()
      modifies this
      ensures forall s, l: nat :: FieldsOf(s) == old(View()) && P.Enabled(s, P.TaskEnds(l)) ==>
                View() == FieldsOf(P.Next(s, P.TaskEnds(l)))
    {
      if kind.Once? {
        thread := None;
      }
    }
  }
}
