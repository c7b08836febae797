/** BluetoothStreamOut and the functions that rewrite it (system/audio_bluetooth_hw/stream_apis.cc),
    one method per step of the protocol in AudioStreamOut; `s` is any protocol state that agrees with
    the object. A call that has to wait for the port stops at the wait and gives back the code it
    returns unless the port then reaches the state asked for. */
module AudioStreamObject {
  import opened AudioPort
  import Params = AudioParams
  import Protocol = AudioStreamOut

  const EIO := 5
  const EBUSY := 16
  const EINVAL := 22

  class BluetoothStreamOut {
    const port: BluetoothAudioPort
    var framesRendered: nat
    var framesPresented: nat

    /** The object holds the port and the counters of `s`. */
    ghost predicate Matches(s: Protocol.Stream)
      reads this, port
    {
      s.port == port.View() && s.rendered == framesRendered && s.presented == framesPresented
    }

    constructor (port: BluetoothAudioPort)
      ensures this.port == port && framesRendered == 0 && framesPresented == 0
    {
      this.port := port;
      framesRendered, framesPresented := 0, 0;
    }

    /** out_standby and out_pause. */
    method StandbyOrPause(accepted: bool, ghost s: Protocol.Stream) returns (waits: bool, retval: int)
      requires Matches(s) && Protocol.Enabled(s, Protocol.StandbyOrPause(accepted))
      modifies this, port
      ensures Matches(Protocol.Next(s, Protocol.StandbyOrPause(accepted)))
      ensures waits <==> Protocol.Next(s, Protocol.StandbyOrPause(accepted)).holder.Some?
      ensures retval == -EBUSY <==> old(port.state) in {Starting, Suspending}
      ensures retval == 0 <==> old(port.state) in {Standby, Disabled}
      ensures retval == -EIO <==> old(port.state) == Started
    {
      waits, retval := false, 0;
      if port.state == Started {
        framesRendered := 0;
        waits := port.SuspendRequest(accepted);
        retval := -EIO;
      } else if port.state == Starting || port.state == Suspending {
        retval := -EBUSY;
      }
    }

    /** out_resume, for the framework or for a writer. */
    method Resume(accepted: bool, ghost s: Protocol.Stream) returns (waits: bool, retval: int)
      requires Matches(s)
      modifies port
      ensures Matches(Protocol.BeginResume(s, accepted).0)
      ensures waits <==> Protocol.BeginResume(s, accepted).1
      ensures !waits ==> (retval == 0 <==> Protocol.BeginResume(s, accepted).2)
      ensures retval == -EBUSY <==> old(port.state) in {Starting, Suspending}
      ensures retval == -EINVAL <==> old(port.state) == Disabled
      ensures retval == -EIO <==> old(port.state) == Standby
    {
      waits, retval := false, 0;
      if port.state == Standby {
        waits := port.StartRequest(accepted);
        retval := -EIO;
      } else if port.state == Starting || port.state == Suspending {
        retval := -EBUSY;
      } else if port.state == Disabled {
        retval := -EINVAL;
      }
    }

    /** out_set_parameters. */
    method SetParameters(kvpairs: string, accepted: bool, ghost s: Protocol.Stream) returns (waits: bool)
      requires Matches(s) && Protocol.Enabled(s, Protocol.SetParameters(kvpairs, accepted))
      modifies this, port
      ensures Matches(Protocol.Next(s, Protocol.SetParameters(kvpairs, accepted)))
      ensures waits <==> Protocol.Next(s, Protocol.SetParameters(kvpairs, accepted)).holder.Some?
    {
      hide Params.Parse;
      var params := Params.ParseAudioParams(kvpairs);
      waits := SuspendParameter(params, accepted, s);
      if !waits {
        CloseParameters(params, Protocol.SuspendParameter(s, params, accepted).0);
      }
    }

    method SuspendParameter(params: map<string, string>, accepted: bool, ghost s: Protocol.Stream) returns (waits: bool)
      requires Matches(s)
      modifies this, port
      ensures Matches(Protocol.SuspendParameter(s, params, accepted).0)
      ensures waits <==> Protocol.SuspendParameter(s, params, accepted).1
    {
      waits := false;
      if "A2dpSuspended" in params && port.a2dp {
        if params["A2dpSuspended"] == "true" {
          framesRendered := 0;
          if port.state == Started {
            waits := port.SuspendRequest(accepted);
            if !waits {
              port.state := Disabled;
            }
          } else if port.state != Disabled {
            port.StopStream();
          }
        } else if port.state == Disabled {
          port.state := Standby;
        }
      }
    }

    /** The closing and then the exiting parameter; the protocol takes the two as one. */
    method CloseParameters(params: map<string, string>, ghost s: Protocol.Stream)
      requires Matches(s)
      modifies this, port
      ensures Matches(Protocol.CloseParameters(s, params))
    {
      if "closing" in params && params["closing"] == "true" {
        if port.state != Disabled {
          framesRendered, framesPresented := 0, 0;
          port.StopStream();
        }
      }
      if "exiting" in params && params["exiting"] == "1" {
        if port.state != Disabled {
          framesRendered, framesPresented := 0, 0;
          port.StopStream();
        }
      }
    }

    /** The end of out_write, with the mutex taken again. */
    method WriteEnds(w: nat, bytes: nat, written: nat, frameSize: nat, ghost s: Protocol.Stream)
      requires Matches(s) && Protocol.Enabled(s, Protocol.WriteEnds(w, written, frameSize))
      requires s.writers[w].bytes == bytes
      modifies this
      ensures Matches(Protocol.Next(s, Protocol.WriteEnds(w, written, frameSize)))
    {
      if written != 0 {
        var frames := bytes / frameSize;
        framesRendered := framesRendered + frames;
        framesPresented := framesPresented + frames;
      }
    }
  }
}
