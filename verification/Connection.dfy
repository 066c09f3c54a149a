/**
 * The connection object: opening, closing from either side, and transports that come up and go down,
 * each of which may run foreign code that calls again before the call that it is in has returned.
 */
module Connection {
  import opened ConnectionSpec

  class Connection {
    var state: State
    var mIsSecure: bool
    var mTcpTransport: bool    // is the slot taken
    var mTlsTransport: bool
    var mWsTransport: bool

    /** The environment: what foreign code does. */
    var script: seq<Act>
    ghost var trace: seq<Event>

    ghost function Contents(): Conn
      reads this
    {
      Conn(state, mIsSecure, mTcpTransport, mTlsTransport, mWsTransport, script, trace)
    }

    constructor (secure: bool, script: seq<Act>)
      ensures Valid(Contents()) && Contents() == Conn(Closed, secure, false, false, false, script, [])
    {
      state, mIsSecure, mTcpTransport, mTlsTransport, mWsTransport := Closed, secure, false, false, false;
      this.script, trace := script, [];
    }

    method ChangeState(s: State) returns (changed: bool)
      modifies this`state, this`trace
      ensures changed == (old(state) != s) && Contents() == Move(old(Contents()), s)
    {
      changed := state != s;
      if changed {
        trace := trace + [Moved(s)];
      }
      state := s;
    }

    method SetSlot(slot: Slot, taken: bool)
      modifies this`mTcpTransport, this`mTlsTransport, this`mWsTransport
      ensures Contents() == ConnectionSpec.SetSlot(old(Contents()), slot, taken)
    {
      match slot
      case Tcp => mTcpTransport := taken;
      case Tls => mTlsTransport := taken;
      case Ws => mWsTransport := taken;
    }

    /** User code in a callback, or a transport: any calls, one after the other. */
    method Outside() returns (threw: bool)
      requires Valid(Contents())
      modifies this
      ensures Valid(Contents()) && (Contents(), threw) == ConnectionSpec.Outside(old(Contents()))
      decreases |script|, 0
    {
      hide ConnectionSpec.Perform, Orderly, StateOf, Settled;
      ghost var goal := ConnectionSpec.Outside(Contents());
      while script != []
        invariant Valid(Contents()) && ConnectionSpec.Outside(Contents()) == goal && |script| <= |old(script)|
        decreases |script|
      {
        var act := script[0];
        script := script[1..];
        match act
        case Done => return false;
        case Fails => return true;
        case _ => Perform(act);
      }
      return false;
    }

    method Perform(act: Act)
      requires Valid(Contents())
      modifies this
      ensures Valid(Contents()) && Contents() == ConnectionSpec.Perform(old(Contents()), act)
      decreases |script|, 30
    {
      match act
      case DoOpen(address) =>
        var threw := OpenUrl(address);
      case DoClose => Close();
      case DoRemoteClose => RemoteClose();
      case DoTcp(s) => OnTcpState(s);
      case DoTls(s) => OnTlsState(s);
      case DoWs(s) => OnWsState(s);
      case DoTimeout => ConnectionTimeout();
      case _ =>
    }

    method TriggerOpen()
      requires Consistent(Contents()) && EndsWith(trace, Moved(Open)) && state == Open
      modifies this
      ensures Valid(Contents()) && Contents() == ConnectionSpec.TriggerOpen(old(Contents()))
      decreases |script|, 1
    {
      OrderlyAfter(trace, OpenTriggered);
      trace := trace + [OpenTriggered];
      var threw := Outside();
    }

    method TriggerClosed()
      requires Consistent(Contents()) && EndsWith(trace, Moved(Closed)) && state == Closed && Empty(Contents())
      modifies this
      ensures Valid(Contents()) && Contents() == ConnectionSpec.TriggerClosed(old(Contents()))
      decreases |script|, 1
    {
      OrderlyAfter(trace, ClosedTriggered);
      trace := trace + [ClosedTriggered];
      var threw := Outside();
    }

    // ----------------------------------------------------------------- closing

    /** Take the transports away, to be stopped by another thread, and say so. */
    method CloseTransports()
      requires Valid(Contents())
      modifies this
      ensures Valid(Contents()) && Contents() == ConnectionSpec.CloseTransports(old(Contents()))
      decreases |script|, 2
    {
      MoveConsistent(Contents(), Closed);
      var changed := ChangeState(Closed);
      if !changed {
        return;
      }
      mWsTransport, mTlsTransport, mTcpTransport := false, false, false;
      assert Contents() == Shut(old(Contents()));
      TriggerClosed();
    }

    method Close()
      requires Valid(Contents())
      modifies this
      ensures Valid(Contents()) && Contents() == ConnectionSpec.Close(old(Contents()))
      decreases |script|, 3 + (if Living(Contents()) then 2 else 0)
    {
      if state == Connecting || state == Open {
        MoveConsistent(Contents(), Closing);
        var changed := ChangeState(Closing);
        assert Contents() == Begun(old(Contents()));
        if mWsTransport {
          var threw := Outside();  // the transport closes, now or later
        } else {
          RemoteClose();
        }
      }
    }

    /** The other side is gone. */
    method RemoteClose()
      requires Valid(Contents())
      modifies this
      ensures Valid(Contents()) && Contents() == ConnectionSpec.RemoteClose(old(Contents()))
      decreases |script|, 4 + (if Living(Contents()) then 2 else 0)
    {
      Close();
      if state != Closed {
        CloseTransports();
      }
    }

    // ----------------------------------------------------------------- opening

    method OpenUrl(address: Address) returns (threw: bool)
      requires Valid(Contents())
      modifies this
      ensures Valid(Contents()) && (Contents(), threw) == ConnectionSpec.OpenUrl(old(Contents()), address)
      decreases |script|, 20
    {
      if state != Closed || address == Malformed {
        return true;
      }
      MoveConsistent(Contents(), Connecting);
      mIsSecure := address == Secure;
      var changed := ChangeState(Connecting);
      threw := SetTcpTransport();
    }

    /** Put a transport into its slot and start it; give the slot back when that fails or the connection was closed meanwhile. */
    method TryStart(slot: Slot) returns (threw: bool)
      requires Valid(Contents()) && state != Closed
      modifies this
      ensures Valid(Contents()) && (Contents(), threw) == ConnectionSpec.TryStart(old(Contents()), slot)
      decreases |script|, 16
    {
      SlotKeepsValid(Contents(), slot, true);
      SetSlot(slot, true);
      threw := Outside();  // the transport starts
      SlotKeepsValid(Contents(), slot, false);
      if threw || state == Closed {
        SetSlot(slot, false);
      }
    }

    method EmplaceTransport(slot: Slot) returns (threw: bool)
      requires Valid(Contents()) && state != Closed
      modifies this
      ensures Valid(Contents()) && (Contents(), threw) == ConnectionSpec.EmplaceTransport(old(Contents()), slot)
      decreases |script|, 17
    {
      threw := TryStart(slot);
      if threw || state == Closed {
        var ignored := Outside();  // the transport stops
      }
    }

    /** What throws, or cannot be begun, closes the connection. */
    method Init(slot: Slot, possible: bool) returns (threw: bool)
      requires Valid(Contents()) && (possible ==> state != Closed)
      modifies this
      ensures Valid(Contents()) && (Contents(), threw) == ConnectionSpec.Init(old(Contents()), slot, possible)
      decreases |script|, 18
    {
      threw := true;
      if possible {
        threw := EmplaceTransport(slot);
      }
      if threw {
        RemoteClose();
      }
    }

    method SetTcpTransport() returns (threw: bool)
      requires Valid(Contents()) && state != Closed
      modifies this
      ensures Valid(Contents()) && (Contents(), threw) == ConnectionSpec.SetTcpTransport(old(Contents()))
      decreases |script|, 19
    {
      threw := Init(Tcp, !mTcpTransport);
    }

    method InitTlsTransport() returns (threw: bool)
      requires Valid(Contents())
      modifies this
      ensures Valid(Contents()) && (Contents(), threw) == ConnectionSpec.InitTlsTransport(old(Contents()))
      decreases |script|, 19
    {
      if mTlsTransport {
        return false;
      }
      threw := Init(Tls, mTcpTransport);
    }

    method InitWsTransport() returns (threw: bool)
      requires Valid(Contents())
      modifies this
      ensures Valid(Contents()) && (Contents(), threw) == ConnectionSpec.InitWsTransport(old(Contents()))
      decreases |script|, 19
    {
      if mWsTransport {
        return false;
      }
      threw := Init(Ws, if mIsSecure then mTlsTransport else mTcpTransport);
    }

    // --------------------------------------------- state changes of transports

    method OnTcpState(s: TransportState)
      requires Valid(Contents())
      modifies this
      ensures Valid(Contents()) && Contents() == ConnectionSpec.OnTcpState(old(Contents()), s)
      decreases |script|, 21
    {
      match s
      case Up =>
        if mIsSecure {
          var threw := InitTlsTransport();
        } else {
          var threw := InitWsTransport();
        }
      case Broken =>
        var threw := Outside();  // the error callback
        RemoteClose();
      case Down =>
        if state == Connecting {
          RemoteClose();
        }
      case Other =>
    }

    method OnTlsState(s: TransportState)
      requires Valid(Contents())
      modifies this
      ensures Valid(Contents()) && Contents() == ConnectionSpec.OnTlsState(old(Contents()), s)
      decreases |script|, 21
    {
      match s
      case Up =>
        var threw := InitWsTransport();
      case Broken =>
        var threw := Outside();
        RemoteClose();
      case Down =>
        if state == Connecting {
          RemoteClose();
        }
      case Other =>
    }

    method OnWsState(s: TransportState)
      requires Valid(Contents())
      modifies this
      ensures Valid(Contents()) && Contents() == ConnectionSpec.OnWsState(old(Contents()), s)
      decreases |script|, 21
    {
      match s
      case Up =>
        if state == Connecting {
          MoveConsistent(Contents(), Open);
          var changed := ChangeState(Open);
          if changed {
            TriggerOpen();
          }
        }
      case Broken =>
        var threw := Outside();
        RemoteClose();
      case Down =>
        RemoteClose();
      case Other =>
    }

    /** The task scheduled when the connection was opened. */
    method ConnectionTimeout()
      requires Valid(Contents())
      modifies this
      ensures Valid(Contents()) && Contents() == ConnectionSpec.ConnectionTimeout(old(Contents()))
      decreases |script|, 21
    {
      if state == Connecting {
        var threw := Outside();
        RemoteClose();
      }
    }
  }
}
