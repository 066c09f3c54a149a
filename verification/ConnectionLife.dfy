/**
 * What becomes of a connection when foreign code does nothing by itself: how it is brought up, and how
 * it ends, with all that anybody outside can see of it.
 */
module ConnectionLife {
  import opened ConnectionSpec

  /** Transports start and stop, and callbacks return, without calling anything. */
  predicate Quiet(c: Conn) {
    Valid(c) && c.script == []
  }

  lemma {:induction false} NothingOutside(c: Conn)
    requires Quiet(c)
    ensures Outside(c) == (c, false)
  {
  }

  // ------------------------------------------------------------- bringing up

  /** A transport that can be set is set. */
  lemma {:induction false} SlotIsSet(c: Conn, slot: Slot)
    requires Quiet(c) && c.state != Closed
    ensures Init(c, slot, true) == (SetSlot(c, slot, true), false) && Quiet(SetSlot(c, slot, true))
  {
    hide Orderly, StateOf, RemoteClose;
    SlotKeepsValid(c, slot, true);
    var c1 := SetSlot(c, slot, true);
    NothingOutside(c1);
    assert TryStart(c, slot) == (c1, false);
    assert EmplaceTransport(c, slot) == (c1, false);
  }

  lemma {:induction false} OpenConnects(c: Conn, address: Address)
    requires Quiet(c) && c.state == Closed && address != Malformed
    ensures var r := c.(state := Connecting, secure := address == Secure, tcp := true, trace := c.trace + [Moved(Connecting)]);
            OpenUrl(c, address) == (r, false) && Quiet(r)
  {
    hide Init;
    MoveConsistent(c, Connecting);
    SlotIsSet(Move(c, Connecting).(secure := address == Secure), Tcp);
  }

  /** The TCP transport comes up: the next one is started, which one depends on the address. */
  lemma {:induction false} TcpComesUp(c: Conn)
    requires Quiet(c) && c.state != Closed && c.tcp && !c.tls && !c.ws
    ensures var r := if c.secure then c.(tls := true) else c.(ws := true); OnTcpState(c, Up) == r && Quiet(r)
  {
    hide Init, Orderly;
    SlotIsSet(c, if c.secure then Tls else Ws);
  }

  /** The TLS transport comes up: the WebSocket transport is started. */
  lemma {:induction false} TlsComesUp(c: Conn)
    requires Quiet(c) && c.state != Closed && c.secure && c.tls && !c.ws
    ensures OnTlsState(c, Up) == c.(ws := true) && Quiet(c.(ws := true))
  {
    hide Init, Orderly;
    SlotIsSet(c, Ws);
  }

  /** The WebSocket transport comes up: the connection is open, and the open callback runs. */
  lemma {:induction false} WsComesUp(c: Conn)
    requires Quiet(c) && c.state == Connecting
    ensures var r := c.(state := Open, trace := c.trace + [Moved(Open), OpenTriggered]); OnWsState(c, Up) == r && Quiet(r)
  {
    var o := Opened(c);
    OrderlyAfter(o.trace, OpenTriggered);
    var r := o.(trace := o.trace + [OpenTriggered]);
    assert r.trace == c.trace + [Moved(Open), OpenTriggered];
    NothingOutside(r);
    assert TriggerOpen(o) == r;
  }

  /** From `open` on, with transports that come up one after the other. */
  function BroughtUp(c: Conn, address: Address): Conn
    requires Quiet(c) && c.state == Closed && address != Malformed
  {
    var c1 := OpenUrl(c, address).0;
    var c2 := OnTcpState(c1, Up);
    var c3 := if address == Secure then OnTlsState(c2, Up) else c2;
    OnWsState(c3, Up)
  }

  /** An opening leads to an open connection, with just the transports that the address needs. */
  lemma {:induction false} OpeningLeadsToOpen(c: Conn, address: Address)
    requires Quiet(c) && c.state == Closed && address != Malformed
    ensures var r := BroughtUp(c, address);
            && r == Conn(Open, address == Secure, true, address == Secure, true, [],
                         c.trace + [Moved(Connecting), Moved(Open), OpenTriggered])
            && Quiet(r)
  {
    hide OpenUrl, OnTcpState, OnTlsState, OnWsState, Orderly, StateOf;
    OpenConnects(c, address);
    var c1 := OpenUrl(c, address).0;
    TcpComesUp(c1);
    var c2 := OnTcpState(c1, Up);
    if address == Secure {
      TlsComesUp(c2);
    }
    var c3 := if address == Secure then OnTlsState(c2, Up) else c2;
    WsComesUp(c3);
    assert c3.trace == c.trace + [Moved(Connecting)];
    assert c.trace + [Moved(Connecting)] + [Moved(Open), OpenTriggered] == c.trace + [Moved(Connecting), Moved(Open), OpenTriggered];
  }

  // ------------------------------------------------------------------ ending

  /** The same connection when it has ended, after these events. */
  function Over(c: Conn, events: seq<Event>): Conn {
    Conn(Closed, c.secure, false, false, false, [], c.trace + events)
  }

  lemma {:induction false} ClosingEnds(c: Conn)
    requires Quiet(c) && c.state == Closing
    ensures RemoteClose(c) == Over(c, [Moved(Closed), ClosedTriggered]) && Quiet(RemoteClose(c))
  {
    var d := Shut(c);
    OrderlyAfter(d.trace, ClosedTriggered);
    var r := d.(trace := d.trace + [ClosedTriggered]);
    assert r.trace == c.trace + [Moved(Closed), ClosedTriggered];
    NothingOutside(r);
    assert TriggerClosed(d) == r;
  }

  /** `close` waits for the WebSocket transport, if there is one. */
  lemma {:induction false} CloseBegins(c: Conn)
    requires Quiet(c) && Living(c)
    ensures c.ws ==> Close(c) == c.(state := Closing, trace := c.trace + [Moved(Closing)]) && Quiet(Close(c))
    ensures !c.ws ==> Close(c) == Over(c, [Moved(Closing), Moved(Closed), ClosedTriggered])
  {
    hide Orderly, StateOf;
    var b := Begun(c);
    if c.ws {
      NothingOutside(b);
    } else {
      ClosingEnds(b);
      assert b.trace + [Moved(Closed), ClosedTriggered] == c.trace + [Moved(Closing), Moved(Closed), ClosedTriggered];
    }
  }

  /** The other side has gone: the connection is over, and the closed callback has run. */
  lemma {:induction false} RemoteCloseEnds(c: Conn)
    requires Quiet(c) && Living(c)
    ensures RemoteClose(c) == Over(c, [Moved(Closing), Moved(Closed), ClosedTriggered]) && Quiet(RemoteClose(c))
  {
    hide Orderly, StateOf;
    CloseBegins(c);
    if c.ws {
      var d := Close(c);
      ClosingEnds(d);
      assert RemoteClose(d) == CloseTransports(d) == RemoteClose(c);
      assert d.trace + [Moved(Closed), ClosedTriggered] == c.trace + [Moved(Closing), Moved(Closed), ClosedTriggered];
    }
  }

  /** Whatever goes wrong with a transport on the way up, or later with the WebSocket transport, ends a connection. */
  lemma {:induction false} TroubleEnds(c: Conn)
    requires Quiet(c) && Living(c)
    ensures var r := Over(c, [Moved(Closing), Moved(Closed), ClosedTriggered]);
            && OnTcpState(c, Broken) == OnTlsState(c, Broken) == OnWsState(c, Broken) == OnWsState(c, Down) == r
            && (c.state == Connecting ==> OnTcpState(c, Down) == OnTlsState(c, Down) == ConnectionTimeout(c) == r)
  {
    hide Orderly, StateOf, RemoteClose;
    RemoteCloseEnds(c);
    NothingOutside(c);
    assert OnBroken(c) == RemoteClose(c);
  }

  /**
   * A whole life: opened, brought up, and closed from this side, the WebSocket transport going down when
   * the closing handshake is over. It leaves the connection as it was, to be opened again.
   */
  lemma {:induction false} WholeLife(c: Conn, address: Address)
    requires Quiet(c) && c.state == Closed && address != Malformed
    ensures var up := BroughtUp(c, address);
            && Quiet(up) && Quiet(Close(up))
            && OnWsState(Close(up), Down) ==
                 Over(up, [Moved(Closing), Moved(Closed), ClosedTriggered])
            && OnWsState(Close(up), Down).trace ==
                 c.trace + [Moved(Connecting), Moved(Open), OpenTriggered, Moved(Closing), Moved(Closed), ClosedTriggered]
  {
    hide Orderly, StateOf, BroughtUp, Close, RemoteClose;
    OpeningLeadsToOpen(c, address);
    var up := BroughtUp(c, address);
    CloseBegins(up);
    ClosingEnds(Close(up));
    assert OnWsState(Close(up), Down) == RemoteClose(Close(up));
    assert Close(up).trace + [Moved(Closed), ClosedTriggered] == up.trace + [Moved(Closing), Moved(Closed), ClosedTriggered];
    assert up.trace + [Moved(Closing), Moved(Closed), ClosedTriggered]
        == c.trace + [Moved(Connecting), Moved(Open), OpenTriggered, Moved(Closing), Moved(Closed), ClosedTriggered];
  }
}
