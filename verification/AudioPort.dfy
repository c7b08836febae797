/** BluetoothAudioPortAidl (system/audio_bluetooth_hw/device_port_proxy.cc): the stream state driven
    by framework calls and by callbacks from the Bluetooth stack. What the session control answers
    is a parameter. Testing the state and setting it in Start and Suspend is one step. */
module AudioPort {
  import opened Wrappers

  datatype StreamState = Disabled | Standby | Starting | Started | Suspending

  /** Any status other than these two is a failure to the port. */
  datatype Status = Success | Reconfiguration | Failure

  /** A callback, addressed by the cookie under which the port was registered. */
  datatype HalEvent = ControlResult(cookie: nat, status: Status) | SessionChanged(cookie: nat)

  /** `cookie` is None when the port is not in use. */
  datatype Port = Port(cookie: Option<nat>, state: StreamState, a2dp: bool)

  function AfterControlResult(state: StreamState, status: Status): StreamState {
    match state
    case Started => if status.Failure? then Started else Standby
    case Starting => if status.Success? then Started else Standby
    case Suspending => if status.Success? then Standby else Disabled
    case _ => state
  }

  /** Events under another cookie, or to a port not in use, are ignored. */
  function Deliver(p: Port, e: HalEvent): Port {
    if p.cookie != Some(e.cookie) then p
    else
      match e
      case ControlResult(_, status) => p.(state := AfterControlResult(p.state, status))
      case SessionChanged(_) => p.(state := Disabled)
  }

  function DeliverAll(p: Port, events: seq<HalEvent>): Port {
    if events == [] then p else Deliver(DeliverAll(p, events[..|events| - 1]), events[|events| - 1])
  }

  /** No sequence of callbacks leaves Disabled. */
  lemma {:induction false} DisabledAbsorbsEvents(p: Port, events: seq<HalEvent>)
    requires p.state == Disabled
    ensures DeliverAll(p, events) == p
  {
    if events != [] {
      DisabledAbsorbsEvents(p, events[..|events| - 1]);
    }
  }

  /** Start up to its wait: the new port, and whether the call goes on to wait. When the session
      control refuses, the state stays Starting. */
  function BeginStart(p: Port, accepted: bool): (Port, bool) {
    if p.cookie.None? || p.state != Standby then (p, false) else (p.(state := Starting), accepted)
  }

  function BeginSuspend(p: Port, accepted: bool): (Port, bool) {
    if p.cookie.None? || p.state != Started then (p, false) else (p.(state := Suspending), accepted)
  }

  function Stop(p: Port): Port {
    if p.cookie.None? then p else p.(state := Disabled)
  }

  /** Nothing but setting it up changes a port that is not in use. */
  lemma UnusedPortStays(p: Port, e: HalEvent, accepted: bool)
    requires p.cookie.None?
    ensures Deliver(p, e) == p && Stop(p) == p
    ensures BeginStart(p, accepted) == (p, false) && BeginSuspend(p, accepted) == (p, false)
  {
  }

  class BluetoothAudioPort {
    var cookie: Option<nat>
    var state: StreamState
    var a2dp: bool

    ghost function View(): Port
      reads this
    {
      Port(cookie, state, a2dp)
    }

    constructor ()
      ensures View() == Port(None, Disabled, false)
    {
      cookie, state, a2dp := None, Disabled, false;
    }

    /** `device` is None for an unknown device and otherwise tells whether it is an A2DP device,
        `ready` is whether its session is ready, `registered` the cookie that registration returned.
        A known device sets the session type even when its session is not ready. */
    method SetUp(device: Option<bool>, ready: bool, registered: Option<nat>) returns (ok: bool)
      modifies this
      ensures ok <==> device.Some? && ready && registered.Some?
      ensures View() ==
              if device.None? then old(View())
              else if ready then Port(registered, Standby, device.value)
              else old(View()).(a2dp := device.value)
    {
      if device.None? {
        return false;
      }
      a2dp := device.value;
      if !ready {
        return false;
      }
      state := Standby;
      cookie := registered;
      ok := cookie.Some?;
    }

    method TearDown()
      modifies this
      ensures View() == old(View()).(cookie := None)
    {
      cookie := None;
    }

    method ControlResultHandler(status: Status)
      modifies this`state
      ensures View() == if cookie.None? then old(View()) else Deliver(old(View()), ControlResult(cookie.value, status))
    {
      if cookie.None? {
        return;
      }
      match state {
        case Started =>
          if status == Reconfiguration || status == Success {
            state := Standby;
          }
        case Starting =>
          if status == Success {
            state := Started;
          } else {
            state := Standby;
          }
        case Suspending =>
          if status == Success {
            state := Standby;
          } else {
            state := Disabled;
          }
        case _ =>
      }
    }

    method SessionChangedHandler()
      modifies this`state
      ensures View() == if cookie.None? then old(View()) else Deliver(old(View()), SessionChanged(cookie.value))
    {
      if cookie.None? {
        return;
      }
      state := Disabled;
    }

    /** The callbacks registered by SetUp. */
    method OnEvent(e: HalEvent)
      modifies this`state
      ensures View() == Deliver(old(View()), e)
    {
      if cookie != Some(e.cookie) {
        return;
      }
      match e {
        case ControlResult(_, status) => ControlResultHandler(status);
        case SessionChanged(_) => SessionChangedHandler();
      }
    }

    /** `during` are the callbacks that arrive while the caller waits; the wait ends by timeout or
        because the state is no longer the one waited in. */
    method CondwaitState(goal: StreamState, during: seq<HalEvent>) returns (reached: bool)
      modifies this`state
      ensures goal != Starting && goal != Suspending ==> !reached && View() == old(View())
      ensures goal == Starting || goal == Suspending ==> View() == DeliverAll(old(View()), during)
      ensures goal == Starting ==> reached == (state == Started)
      ensures goal == Suspending ==> reached == (state == Standby)
    {
      if goal != Starting && goal != Suspending {
        return false;
      }
      for i := 0 to |during|
        invariant View() == DeliverAll(old(View()), during[..i])
      {
        assert during[..i + 1][..i] == during[..i];
        OnEvent(during[i]);
      }
      assert during[..|during|] == during;
      reached := if goal == Starting then state == Started else state == Standby;
    }

    method StartRequest(accepted: bool) returns (waits: bool)
      modifies this`state
      ensures (View(), waits) == BeginStart(old(View()), accepted)
    {
      waits := false;
      if cookie.None? {
        return;
      }
      if state == Standby {
        state := Starting;
        if accepted {
          waits := true;
        }
      }
    }

    method SuspendRequest(accepted: bool) returns (waits: bool)
      modifies this`state
      ensures (View(), waits) == BeginSuspend(old(View()), accepted)
    {
      waits := false;
      if cookie.None? {
        return;
      }
      if state == Started {
        state := Suspending;
        if accepted {
          waits := true;
        }
      }
    }

    method StopStream()
      modifies this`state
      ensures View() == Stop(old(View()))
    {
      if cookie.Some? {
        state := Disabled;
      }
    }
  }
}
