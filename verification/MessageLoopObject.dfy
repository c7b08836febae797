/** The fields of MessageLoopThread and the blocks of code that rewrite them under api_mutex_, one
    method per step of the protocol in MessageLoopThread. */
module MessageLoopObject {
  import opened Wrappers
  import M = MessageLoopThread

  /** `quit` is the flag that QuitWhenIdle sets on the run loop. */
  datatype Fields = Fields(
    thread: Option<nat>,
    messageLoop: Option<nat>,
    runLoop: Option<nat>,
    threadId: Option<nat>,
    shuttingDown: bool,
    quit: bool)

  function FieldsOf(s: M.State): Fields {
    Fields(s.thread, s.messageLoop, s.runLoop, s.threadId, s.shuttingDown, s.quit)
  }

  class LoopThread {
    var thread: Option<nat>
    var messageLoop: Option<nat>
    var runLoop: Option<nat>
    var threadId: Option<nat>
    var shuttingDown: bool
    var quit: bool

    ghost function View(): Fields
      reads this
    {
      Fields(thread, messageLoop, runLoop, threadId, shuttingDown, quit)
    }

    constructor ()
      ensures View() == FieldsOf(M.NEVER_STARTED)
    {
      thread, messageLoop, runLoop, threadId := None, None, None, None;
      shuttingDown, quit := false, false;
    }

    /** The locked block of StartUp; `worker` is the thread it would create. */
    method StartUp(worker: nat) returns (created: bool)
      modifies this
      ensures forall s, c: nat :: FieldsOf(s) == old(View()) && M.Enabled(s, M.StartUp(c)) && s.created == worker ==>
                View() == FieldsOf(M.Next(s, M.StartUp(c))) && created == (M.Next(s, M.StartUp(c)) != s)
    {
      if thread.Some? {
        return false;
      }
      thread := Some(worker);
      created := true;
    }

    /** The first locked block of ShutDown. */
    method ShutDown() returns (joins: bool)
      modifies this
      ensures forall s, c: nat :: FieldsOf(s) == old(View()) && M.Enabled(s, M.ShutDown(c)) ==>
                View() == FieldsOf(M.Next(s, M.ShutDown(c))) && joins == M.ShutsDown(M.Next(s, M.ShutDown(c)), c)
    {
      if thread.None? {
        return false;
      }
      if messageLoop.None? {
        return false;
      }
      if shuttingDown {
        return false;
      }
      shuttingDown := true;
      quit := true;
      joins := true;
    }

    /** The second locked block of ShutDown. */
    method DeleteThread()
      modifies this
      ensures forall s, c: nat :: FieldsOf(s) == old(View()) && M.Enabled(s, M.DeleteThread(c)) ==>
                View() == FieldsOf(M.Next(s, M.DeleteThread(c)))
    {
      thread := None;
      shuttingDown := false;
    }

    /** The locked blocks of Run, before and after the loop. */
    method RunBegins(worker: nat)
      modifies this
      ensures forall s :: FieldsOf(s) == old(View()) && M.Enabled(s, M.WorkerStarts(worker)) ==>
                View() == FieldsOf(M.Next(s, M.WorkerStarts(worker)))
    {
      messageLoop := Some(worker);
      runLoop := Some(worker);
      quit := false;
      threadId := Some(worker);
    }

    method RunEnds(worker: nat)
      modifies this
      ensures forall s :: FieldsOf(s) == old(View()) && M.Enabled(s, M.WorkerExits(worker)) ==>
                View() == FieldsOf(M.Next(s, M.WorkerExits(worker)))
    {
      threadId := None;
      messageLoop := None;
      runLoop := None;
      quit := false;
    }
  }
}
