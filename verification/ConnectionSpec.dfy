/**
 * The life of a connection: opening, closing from either side, and transports that come up and go down,
 * each of which may run user code that opens and closes again. A call runs to its end before another
 * one starts, unless a callback makes it.
 */
module ConnectionSpec {

  datatype State = Connecting | Open | Closing | Closed

  datatype Event = Moved(to: State) | OpenTriggered | ClosedTriggered

  // -------------------------------------------------- what a trace should be

  function StateOf(trace: seq<Event>): State {
    if trace == [] then Closed
    else if trace[|trace| - 1].Moved? then trace[|trace| - 1].to
    else StateOf(trace[..|trace| - 1])
  }

  /** Where each state may be reached from, and when each callback may run. */
  predicate MayFollow(trace: seq<Event>, e: Event) {
    match e
    case Moved(Connecting) => StateOf(trace) == Closed
    case Moved(Open) => StateOf(trace) == Connecting
    case Moved(Closing) => StateOf(trace) == Connecting || StateOf(trace) == Open
    case Moved(Closed) => StateOf(trace) != Closed
    case OpenTriggered => EndsWith(trace, Moved(Open))
    case ClosedTriggered => EndsWith(trace, Moved(Closed))
  }

  predicate EndsWith(trace: seq<Event>, e: Event) {
    trace != [] && trace[|trace| - 1] == e
  }

  /** No callback is due that has not run. */
  predicate Settled(trace: seq<Event>) {
    !EndsWith(trace, Moved(Open)) && !EndsWith(trace, Moved(Closed))
  }

  /** A history of calls: the callback of a state runs before anything else happens. */
  predicate Orderly(trace: seq<Event>) {
    trace == [] ||
    (Orderly(trace[..|trace| - 1]) && MayFollow(trace[..|trace| - 1], trace[|trace| - 1]) &&
     (Settled(trace[..|trace| - 1]) || !trace[|trace| - 1].Moved?))
  }

  lemma {:induction false} OrderlyAfter(trace: seq<Event>, e: Event)
    requires Orderly(trace) && MayFollow(trace, e) && (Settled(trace) || !e.Moved?)
    ensures Orderly(trace + [e])
    ensures StateOf(trace + [e]) == if e.Moved? then e.to else StateOf(trace)
  {
    assert (trace + [e])[..|trace|] == trace;
  }

  /** The place of an event in the life of one connection. */
  function Rank(e: Event): nat {
    match e
    case Moved(Connecting) => 0
    case Moved(Open) => 1
    case OpenTriggered => 2
    case Moved(Closing) => 3
    case Moved(Closed) => 4
    case ClosedTriggered => 5
  }

  predicate NoOpening(trace: seq<Event>, from: nat) {
    forall i :: from <= i < |trace| ==> trace[i] != Moved(Connecting)
  }

  function StateRank(s: State): nat {
    match s
    case Connecting => 0
    case Open => 1
    case Closing => 3
    case Closed => 4
  }

  /** The last event is either the one that led to the state, or the callback of that state. */
  lemma {:induction false} LastRank(trace: seq<Event>)
    requires Orderly(trace) && trace != []
    ensures var r := Rank(trace[|trace| - 1]);
            r == StateRank(StateOf(trace)) || (r == StateRank(StateOf(trace)) + 1 && r in {2, 5})
  {
    var before, last := trace[..|trace| - 1], trace[|trace| - 1];
    if !last.Moved? {
      assert before[|before| - 1].Moved?;
    }
  }

  /**
   * Between two openings, every event has a later place than the one before it: so there is at most one
   * open callback and at most one closed callback for each opening, and they come in that order.
   */
  lemma {:induction false} LaterPlace(trace: seq<Event>, i: nat, j: nat)
    requires Orderly(trace) && i < j < |trace| && NoOpening(trace[..j + 1], i + 1)
    ensures Rank(trace[i]) < Rank(trace[j])
    decreases |trace|, j
  {
    var before := trace[..|trace| - 1];
    if j < |trace| - 1 {
      assert before[..j + 1] == trace[..j + 1];
      LaterPlace(before, i, j);
    } else {
      assert trace[..j + 1] == trace && before == trace[..j];
      LastRank(before);
      assert Rank(before[|before| - 1]) < Rank(trace[j]);
      if i < j - 1 {
        assert before[..j] == before;
        LaterPlace(before, i, j - 1);
      }
    }
  }

  function Count(trace: seq<Event>, e: Event): nat {
    if trace == [] then 0
    else Count(trace[..|trace| - 1], e) + (if trace[|trace| - 1] == e then 1 else 0)
  }

  /** Every opening ends with one closed callback, except one that has not been closed yet. */
  lemma {:induction false} EveryOpeningEnds(trace: seq<Event>)
    requires Orderly(trace)
    ensures Count(trace, Moved(Connecting)) ==
            Count(trace, ClosedTriggered) + (if StateOf(trace) == Closed && Settled(trace) then 0 else 1)
    ensures Count(trace, OpenTriggered) <= Count(trace, Moved(Connecting))
    ensures StateOf(trace) == Connecting ==> Count(trace, OpenTriggered) < Count(trace, Moved(Connecting))
    ensures EndsWith(trace, Moved(Open)) ==> Count(trace, OpenTriggered) < Count(trace, Moved(Connecting))
    decreases |trace|
  {
    if trace != [] {
      EveryOpeningEnds(trace[..|trace| - 1]);
    }
  }

  /** Once closed, only an opening changes that. */
  lemma {:induction false} StaysClosed(trace: seq<Event>, n: nat)
    requires Orderly(trace) && n <= |trace| && StateOf(trace[..n]) == Closed && NoOpening(trace, n)
    ensures StateOf(trace) == Closed
    decreases |trace|
  {
    if n == |trace| {
      assert trace[..n] == trace;
    } else {
      var before := trace[..|trace| - 1];
      assert before[..n] == trace[..n];
      StaysClosed(before, n);
    }
  }

  /** Once closing, only an opening leads anywhere but to the end. */
  lemma {:induction false} StaysClosing(trace: seq<Event>, n: nat)
    requires Orderly(trace) && n <= |trace| && StateOf(trace[..n]) in {Closing, Closed} && NoOpening(trace, n)
    ensures StateOf(trace) in {Closing, Closed}
    decreases |trace|
  {
    if n == |trace| {
      assert trace[..n] == trace;
    } else {
      var before := trace[..|trace| - 1];
      assert before[..n] == trace[..n];
      StaysClosing(before, n);
    }
  }

  // --------------------------------------------------------- what calls do

  datatype Slot = Tcp | Tls | Ws

  datatype TransportState = Up | Down | Broken | Other

  /** An address that `open` accepts, or not. */
  datatype Address = Malformed | Plain | Secure

  /** What foreign code does next: a call, or it ends, or it throws, which matters to whom starts a transport. */
  datatype Act =
    | DoOpen(address: Address)
    | DoClose
    | DoRemoteClose
    | DoTcp(s: TransportState)
    | DoTls(s: TransportState)
    | DoWs(s: TransportState)
    | DoTimeout
    | Done
    | Fails

  /**
   * A connection. `script` is what user code in callbacks and transports that are started or stopped
   * do; once it is used up they do nothing. Quantifying over it quantifies over everything they may do.
   */
  datatype Conn = Conn(
    state: State,
    secure: bool,
    tcp: bool,     // is the slot taken
    tls: bool,
    ws: bool,
    script: seq<Act>,
    trace: seq<Event>)

  predicate Consistent(c: Conn) {
    Orderly(c.trace) && StateOf(c.trace) == c.state
  }

  predicate Empty(c: Conn) {
    !c.tcp && !c.tls && !c.ws
  }

  /** At any moment when foreign code can run. */
  predicate Valid(c: Conn) {
    Consistent(c) && Settled(c.trace) && (c.state == Closed ==> Empty(c))
  }

  /** What every call keeps. */
  predicate Keeps(c: Conn, r: Conn) {
    Valid(r) && c.trace <= r.trace && |r.script| <= |c.script|
  }

  predicate Living(c: Conn) {
    c.state == Connecting || c.state == Open
  }

  function Move(c: Conn, s: State): Conn {
    if c.state == s then c else c.(state := s, trace := c.trace + [Moved(s)])
  }

  lemma {:induction false} MoveConsistent(c: Conn, s: State)
    requires Consistent(c) && Settled(c.trace) && (c.state == s || MayFollow(c.trace, Moved(s)))
    ensures Consistent(Move(c, s))
  {
    if c.state != s {
      OrderlyAfter(c.trace, Moved(s));
    }
  }

  function SetSlot(c: Conn, slot: Slot, taken: bool): Conn {
    match slot
    case Tcp => c.(tcp := taken)
    case Tls => c.(tls := taken)
    case Ws => c.(ws := taken)
  }

  function IsTaken(c: Conn, slot: Slot): bool {
    match slot
    case Tcp => c.tcp
    case Tls => c.tls
    case Ws => c.ws
  }

  /** Foreign code runs until it ends. Also says whether it threw. */
  function Outside(c: Conn): (r: (Conn, bool))
    requires Valid(c)
    ensures Keeps(c, r.0)
    decreases |c.script|, 0
  {
    if c.script == [] then (c, false)
    else
      var c1 := c.(script := c.script[1..]);
      match c.script[0]
      case Done => (c1, false)
      case Fails => (c1, true)
      case a => Outside(Perform(c1, a))
  }

  function Perform(c: Conn, a: Act): (r: Conn)
    requires Valid(c)
    ensures Keeps(c, r)
    decreases |c.script|, 30
  {
    match a
    case DoOpen(address) => OpenUrl(c, address).0
    case DoClose => Close(c)
    case DoRemoteClose => RemoteClose(c)
    case DoTcp(s) => OnTcpState(c, s)
    case DoTls(s) => OnTlsState(c, s)
    case DoWs(s) => OnWsState(c, s)
    case DoTimeout => ConnectionTimeout(c)
    case _ => c
  }

  function TriggerOpen(c: Conn): (r: Conn)
    requires Consistent(c) && EndsWith(c.trace, Moved(Open)) && c.state == Open
    ensures Keeps(c, r) && c.trace + [OpenTriggered] <= r.trace
    decreases |c.script|, 1
  {
    OrderlyAfter(c.trace, OpenTriggered);
    Outside(c.(trace := c.trace + [OpenTriggered])).0
  }

  function TriggerClosed(c: Conn): (r: Conn)
    requires Consistent(c) && EndsWith(c.trace, Moved(Closed)) && c.state == Closed && Empty(c)
    ensures Keeps(c, r) && c.trace + [ClosedTriggered] <= r.trace
    decreases |c.script|, 1
  {
    OrderlyAfter(c.trace, ClosedTriggered);
    Outside(c.(trace := c.trace + [ClosedTriggered])).0
  }

  // ------------------------------------------------------------------ closing

  /** The connection just after it was closed: the transports are gone. */
  function Shut(c: Conn): (r: Conn)
    requires Valid(c) && c.state != Closed
    ensures Consistent(r) && EndsWith(r.trace, Moved(Closed)) && r.state == Closed && Empty(r)
    ensures r.trace == c.trace + [Moved(Closed)] && r.script == c.script
  {
    MoveConsistent(c, Closed);
    Move(c, Closed).(tcp := false, tls := false, ws := false)
  }

  /** Once per connection: closed, slots empty, closed callback. */
  function CloseTransports(c: Conn): (r: Conn)
    requires Valid(c)
    ensures Keeps(c, r) && (c.state == Closed ==> r == c)
    ensures c.state != Closed ==> c.trace + [Moved(Closed), ClosedTriggered] <= r.trace
    ensures NoOpening(r.trace, |c.trace|) ==> r.state == Closed
    decreases |c.script|, 2
  {
    if c.state == Closed then c
    else
      var r := TriggerClosed(Shut(c));
      ClosedUnlessOpened(r, Shut(c).trace);
      r
  }

  lemma {:induction false} ClosedUnlessOpened(r: Conn, before: seq<Event>)
    requires Valid(r) && before <= r.trace && StateOf(before) == Closed
    ensures NoOpening(r.trace, |before|) ==> r.state == Closed
  {
    if NoOpening(r.trace, |before|) {
      assert r.trace[..|before|] == before;
      StaysClosed(r.trace, |before|);
    }
  }

  lemma {:induction false} ClosingUnlessOpened(r: Conn, before: seq<Event>)
    requires Valid(r) && before <= r.trace && StateOf(before) in {Closing, Closed}
    ensures NoOpening(r.trace, |before|) ==> r.state == Closing || r.state == Closed
  {
    if NoOpening(r.trace, |before|) {
      assert r.trace[..|before|] == before;
      StaysClosing(r.trace, |before|);
    }
  }

  function Begun(c: Conn): (r: Conn)
    requires Valid(c) && Living(c)
    ensures Valid(r) && r == c.(state := Closing, trace := c.trace + [Moved(Closing)])
  {
    MoveConsistent(c, Closing);
    Move(c, Closing)
  }

  /** From connecting or open to closing, and to closed when there is no WebSocket transport to wait for. */
  function Close(c: Conn): (r: Conn)
    requires Valid(c)
    ensures Keeps(c, r) && (!Living(c) ==> r == c)
    ensures Living(c) ==> c.trace + [Moved(Closing)] <= r.trace
    ensures NoOpening(r.trace, |c.trace|) ==> r.state == Closing || r.state == Closed
    ensures !c.ws && c.state != Closing && NoOpening(r.trace, |c.trace|) ==> r.state == Closed
    decreases |c.script|, 3 + (if Living(c) then 2 else 0)
  {
    if !Living(c) then c
    else
      var r := if c.ws then Outside(Begun(c)).0 else RemoteClose(Begun(c));
      ClosingUnlessOpened(r, Begun(c).trace);
      r
  }

  /** The other side is gone: close for good, unless a callback opens again. */
  function RemoteClose(c: Conn): (r: Conn)
    requires Valid(c)
    ensures Keeps(c, r) && (c.state == Closed ==> r == c)
    ensures NoOpening(r.trace, |c.trace|) ==> r.state == Closed
    decreases |c.script|, 4 + (if Living(c) then 2 else 0)
  {
    var d := Close(c);
    if d.state == Closed then d else CloseTransports(d)
  }

  // ------------------------------------------------------------------ opening

  /** Only a closed connection opens, at an address that is well formed; a failure leaves it closed. */
  function OpenUrl(c: Conn, address: Address): (r: (Conn, bool))
    requires Valid(c)
    ensures Keeps(c, r.0)
    ensures c.state != Closed || address == Malformed ==> r == (c, true)
    ensures c.state == Closed && address != Malformed ==> c.trace + [Moved(Connecting)] <= r.0.trace
    ensures r.1 && c.state == Closed && NoOpening(r.0.trace, |c.trace| + 1) ==> r.0.state == Closed
    decreases |c.script|, 20
  {
    if c.state != Closed || address == Malformed then (c, true)
    else
      MoveConsistent(c, Connecting);
      SetTcpTransport(Move(c, Connecting).(secure := address == Secure))
  }

  lemma {:induction false} SlotKeepsValid(c: Conn, slot: Slot, taken: bool)
    requires Valid(c) && (taken ==> c.state != Closed)
    ensures Valid(SetSlot(c, slot, taken)) && IsTaken(SetSlot(c, slot, taken), slot) == taken
    ensures SetSlot(c, slot, taken).trace == c.trace && SetSlot(c, slot, taken).script == c.script
    ensures SetSlot(c, slot, taken).state == c.state
  {
  }

  /**
   * Put a transport into its slot and start it. The slot is given back when that fails or when the
   * connection was closed meanwhile.
   */
  function TryStart(c: Conn, slot: Slot): (r: (Conn, bool))
    requires Valid(c) && c.state != Closed
    ensures Keeps(c, r.0)
    ensures r.1 || r.0.state == Closed ==> !IsTaken(r.0, slot)
    decreases |c.script|, 16
  {
    SlotKeepsValid(c, slot, true);
    var (c1, threw) := Outside(SetSlot(c, slot, true));
    SlotKeepsValid(c1, slot, false);
    (if threw || c1.state == Closed then SetSlot(c1, slot, false) else c1, threw)
  }

  /** A transport that was taken out again is stopped. */
  function EmplaceTransport(c: Conn, slot: Slot): (r: (Conn, bool))
    requires Valid(c) && c.state != Closed
    ensures Keeps(c, r.0)
    decreases |c.script|, 17
  {
    var (c1, threw) := TryStart(c, slot);
    (if threw || c1.state == Closed then Outside(c1).0 else c1, threw)
  }

  /** A transport that cannot be set or started closes the connection. */
  function Init(c: Conn, slot: Slot, possible: bool): (r: (Conn, bool))
    requires Valid(c) && (possible ==> c.state != Closed)
    ensures Keeps(c, r.0) && (!possible ==> r.1)
    ensures r.1 && NoOpening(r.0.trace, |c.trace|) ==> r.0.state == Closed
    decreases |c.script|, 18
  {
    var (c1, threw) := if possible then EmplaceTransport(c, slot) else (c, true);
    (if threw then RemoteClose(c1) else c1, threw)
  }

  function SetTcpTransport(c: Conn): (r: (Conn, bool))
    requires Valid(c) && c.state != Closed
    ensures Keeps(c, r.0) && (c.tcp ==> r.1)
    ensures r.1 && NoOpening(r.0.trace, |c.trace|) ==> r.0.state == Closed
    decreases |c.script|, 19
  {
    Init(c, Tcp, !c.tcp)
  }

  function InitTlsTransport(c: Conn): (r: (Conn, bool))
    requires Valid(c)
    ensures Keeps(c, r.0) && (c.tls ==> r == (c, false)) && (!c.tls && !c.tcp ==> r.1)
    ensures r.1 && NoOpening(r.0.trace, |c.trace|) ==> r.0.state == Closed
    decreases |c.script|, 19
  {
    if c.tls then (c, false) else Init(c, Tls, c.tcp)
  }

  /** A WebSocket transport needs what is below it. */
  function InitWsTransport(c: Conn): (r: (Conn, bool))
    requires Valid(c)
    ensures Keeps(c, r.0) && (c.ws ==> r == (c, false)) && (!c.ws && !(if c.secure then c.tls else c.tcp) ==> r.1)
    ensures r.1 && NoOpening(r.0.trace, |c.trace|) ==> r.0.state == Closed
    decreases |c.script|, 19
  {
    if c.ws then (c, false) else Init(c, Ws, if c.secure then c.tls else c.tcp)
  }

  // --------------------------------------------- state changes of transports

  /** A transport that failed: the error callback, and the end. */
  function OnBroken(c: Conn): (r: Conn)
    requires Valid(c)
    ensures Keeps(c, r) && (NoOpening(r.trace, |c.trace|) ==> r.state == Closed)
    decreases |c.script|, 20
  {
    RemoteClose(Outside(c).0)
  }

  /** While connecting, a lower transport that goes down is the end; later the WebSocket transport sees to it. */
  function OnLowerDown(c: Conn): (r: Conn)
    requires Valid(c)
    ensures Keeps(c, r) && (c.state != Connecting ==> r == c)
    ensures c.state == Connecting && NoOpening(r.trace, |c.trace|) ==> r.state == Closed
    decreases |c.script|, 20
  {
    if c.state == Connecting then RemoteClose(c) else c
  }

  function OnTcpState(c: Conn, s: TransportState): (r: Conn)
    requires Valid(c)
    ensures Keeps(c, r)
    ensures s == Up && (if c.secure then c.tls else c.ws) ==> r == c
    ensures s == Up && !(if c.secure then c.tls else c.ws) && !c.tcp && NoOpening(r.trace, |c.trace|) ==> r.state == Closed
    decreases |c.script|, 21
  {
    match s
    case Up => if c.secure then InitTlsTransport(c).0 else InitWsTransport(c).0
    case Broken => OnBroken(c)
    case Down => OnLowerDown(c)
    case Other => c
  }

  function OnTlsState(c: Conn, s: TransportState): (r: Conn)
    requires Valid(c)
    ensures Keeps(c, r)
    ensures s == Up && c.ws ==> r == c
    decreases |c.script|, 21
  {
    match s
    case Up => InitWsTransport(c).0
    case Broken => OnBroken(c)
    case Down => OnLowerDown(c)
    case Other => c
  }

  function Opened(c: Conn): (r: Conn)
    requires Valid(c) && c.state == Connecting
    ensures Consistent(r) && EndsWith(r.trace, Moved(Open)) && r == c.(state := Open, trace := c.trace + [Moved(Open)])
  {
    MoveConsistent(c, Open);
    Move(c, Open)
  }

  /** The open callback runs exactly on coming from connecting. */
  function OnWsState(c: Conn, s: TransportState): (r: Conn)
    requires Valid(c)
    ensures Keeps(c, r)
    ensures s == Up && c.state == Connecting ==> c.trace + [Moved(Open), OpenTriggered] <= r.trace
    ensures s == Up && c.state != Connecting ==> r == c
    ensures (s == Broken || s == Down) && NoOpening(r.trace, |c.trace|) ==> r.state == Closed
    decreases |c.script|, 21
  {
    match s
    case Up =>
      if c.state == Connecting then TriggerOpen(Opened(c)) else c
    case Broken => OnBroken(c)
    case Down => RemoteClose(c)
    case Other => c
  }

  /** A connection still connecting is closed. */
  function ConnectionTimeout(c: Conn): (r: Conn)
    requires Valid(c)
    ensures Keeps(c, r) && (c.state != Connecting ==> r == c)
    ensures c.state == Connecting && NoOpening(r.trace, |c.trace|) ==> r.state == Closed
    decreases |c.script|, 21
  {
    if c.state == Connecting then OnBroken(c) else c
  }

  // ------------------------------------------- opening from the closed callback

  /** With no WebSocket transport to stop first, what the closed callback of this very connection leaves. */
  function OwnCallback(c: Conn): Conn
    requires Valid(c) && c.state != Closed
  {
    TriggerClosed(Shut(if Living(c) then Begun(c) else c))
  }

  lemma {:induction false} OwnCallbackDecides(c: Conn)
    requires Valid(c) && c.state == Closing
    ensures RemoteClose(c) == OwnCallback(c)
  {
  }

  lemma {:induction false} ClosedAfterOpening(trace: seq<Event>, i: nat) returns (j: nat)
    requires Orderly(trace) && StateOf(trace) == Closed && i < |trace| && trace[i] == Moved(Connecting)
    ensures i < j < |trace| && trace[j] == Moved(Closed)
    decreases |trace|
  {
    var last := |trace| - 1;
    if trace[last].Moved? {
      j := last;
    } else {
      j := ClosedAfterOpening(trace[..last], i);
    }
  }

  /** So what a callback opens while the nested `close` runs is closed again before `remoteClose` returns. */
  lemma {:induction false} OpenedInsideIsClosed(c: Conn, i: nat) returns (j: nat)
    requires Valid(c) && c.state != Closed
    requires |c.trace| <= i < |Close(c).trace| && Close(c).trace[i] == Moved(Connecting)
    ensures i < j < |RemoteClose(c).trace| && RemoteClose(c).trace[j] == Moved(Closed)
  {
    var d := Close(c);
    if d.state == Closed {
      j := ClosedAfterOpening(d.trace, i);
    } else {
      j := |d.trace|;
      assert RemoteClose(c).trace[j] == (d.trace + [Moved(Closed), ClosedTriggered])[j];
    }
  }

  /** The closed callback opens, at these addresses in turn; each transport starts, and the callback returns. */
  function Reopenings(at: seq<Address>): seq<Act> {
    if at == [] then [] else [DoOpen(at[0]), Done, Done] + Reopenings(at[1..])
  }

  predicate WellFormed(at: seq<Address>) {
    forall i :: 0 <= i < |at| ==> at[i] != Malformed
  }

  lemma {:induction false} EndOf(c: Conn, rest: seq<Act>)
    requires Valid(c) && c.script == [Done] + rest
    ensures Outside(c) == (c.(script := rest), false)
  {
    assert c.script[1..] == rest;
  }

  lemma {:induction false} OpenStarts(c: Conn, at: Address, rest: seq<Act>)
    requires Valid(c) && c.state == Closed && c.script == [Done] + rest && at != Malformed
    ensures OpenUrl(c, at) == (c.(state := Connecting, secure := at == Secure, tcp := true, script := rest,
                                  trace := c.trace + [Moved(Connecting)]), false)
  {
    MoveConsistent(c, Connecting);
    var c1 := Move(c, Connecting).(secure := at == Secure);
    SlotKeepsValid(c1, Tcp, true);
    EndOf(SetSlot(c1, Tcp, true), rest);
    var r := (SetSlot(c1, Tcp, true).(script := rest), false);
    assert TryStart(c1, Tcp) == r;
    assert EmplaceTransport(c1, Tcp) == r;
    assert Init(c1, Tcp, true) == r;
    assert SetTcpTransport(c1) == r;
  }

  /** A closed callback that opens leaves a connection that is connecting. */
  lemma {:induction false} CallbackOpens(c: Conn, at: Address, rest: seq<Act>)
    requires Consistent(c) && EndsWith(c.trace, Moved(Closed)) && c.state == Closed && Empty(c)
    requires at != Malformed && c.script == [DoOpen(at), Done, Done] + rest
    ensures var r := TriggerClosed(c);
            && Valid(r) && r.state == Connecting && !r.ws && r.script == rest
            && r.trace == c.trace + [ClosedTriggered, Moved(Connecting)]
  {
    OrderlyAfter(c.trace, ClosedTriggered);
    var c0 := c.(trace := c.trace + [ClosedTriggered]);
    var c1 := c0.(script := c0.script[1..]);
    assert c0.script[0] == DoOpen(at) && c1.script == [Done] + ([Done] + rest);
    OpenStarts(c1, at, [Done] + rest);
    var c2 := OpenUrl(c1, at).0;
    assert Perform(c1, DoOpen(at)) == c2;
    EndOf(c2, rest);
    assert Outside(c0) == Outside(c2);
    assert c.trace + [ClosedTriggered] + [Moved(Connecting)] == c.trace + [ClosedTriggered, Moved(Connecting)];
  }

  /** One closed callback: it opens at the first address that is left, if there is one. */
  lemma {:induction false} OneReopening(c: Conn, at: seq<Address>, rest: seq<Act>)
    requires Consistent(c) && EndsWith(c.trace, Moved(Closed)) && c.state == Closed && Empty(c)
    requires WellFormed(at) && c.script == Reopenings(at) + rest && (at == [] ==> rest == [] || rest[0] == Done)
    ensures var r := TriggerClosed(c);
            && (at == [] ==> r.state == Closed && r.script == if rest == [] then [] else rest[1..])
            && (at != [] ==> r.state == Connecting && !r.ws && r.script == Reopenings(at[1..]) + rest)
  {
    if at == [] {
      OrderlyAfter(c.trace, ClosedTriggered);
      assert c.script == rest;
      var c1 := c.(trace := c.trace + [ClosedTriggered]);
      assert TriggerClosed(c) == Outside(c1).0;
    } else {
      assert c.script == [DoOpen(at[0]), Done, Done] + (Reopenings(at[1..]) + rest);
      CallbackOpens(c, at[0], Reopenings(at[1..]) + rest);
    }
  }

  /** Closing a living connection that has no WebSocket transport runs its own callback first. */
  lemma {:induction false} NestedFirst(c: Conn)
    requires Valid(c) && Living(c) && !c.ws
    ensures Close(c) == OwnCallback(c)
    ensures RemoteClose(c) == if OwnCallback(c).state == Closed then OwnCallback(c) else CloseTransports(OwnCallback(c))
  {
    OwnCallbackDecides(Begun(c));
  }

  /**
   * A closed callback that opens the first so many times it is called: without a WebSocket transport to
   * stop, a connection stands afterwards if and only if that is once for a connection that was closing
   * already, and twice for any other, whose nested `close` runs the callback a first time.
   */
  lemma {:induction false} ReopenedStands(c: Conn, at: seq<Address>)
    requires Valid(c) && c.state != Closed && !c.ws && WellFormed(at) && c.script == Reopenings(at)
    ensures var n := if c.state == Closing then 1 else 2;
            RemoteClose(c).state == if |at| >= n then Connecting else Closed
  {
    hide Orderly, StateOf, MayFollow, Outside, TriggerClosed, Close, RemoteClose;
    assert Reopenings(at) == Reopenings(at) + [];
    if c.state == Closing {
      OneReopening(Shut(c), at, []);
      OwnCallbackDecides(c);
    } else {
      OneReopening(Shut(Begun(c)), at, []);
      NestedFirst(c);
      var d := OwnCallback(c);
      if at != [] {
        ReopenedIsClosed(d, at[1..]);
      }
    }
  }

  /** What stands when the nested `close` returns is closed, and its callback runs in turn. */
  lemma {:induction false} ReopenedIsClosed(d: Conn, at: seq<Address>)
    requires Valid(d) && d.state != Closed && WellFormed(at) && d.script == Reopenings(at) + []
    ensures CloseTransports(d).state == if at == [] then Closed else Connecting
  {
    OneReopening(Shut(d), at, []);
  }

  /** A WebSocket transport that stays quiet while it is stopped: the connection is closing when its callback runs. */
  lemma {:induction false} ReopenedAfterStop(c: Conn, at: seq<Address>)
    requires Valid(c) && Living(c) && c.ws && WellFormed(at) && c.script == [Done] + Reopenings(at)
    ensures RemoteClose(c).state == if |at| >= 1 then Connecting else Closed
  {
    var b := Begun(c);
    EndOf(b, Reopenings(at));
    var d := Close(c);
    assert d.state == Closing && d.script == Reopenings(at) + [];
    ReopenedIsClosed(d, at);
  }

  /** One that goes down while it is stopped: the closed callback runs inside the stop. */
  lemma {:induction false} DownInsideStop(c: Conn, first: seq<Address>, rest: seq<Act>)
    requires Valid(c) && Living(c) && c.ws && WellFormed(first) && |first| <= 1 && (first == [] ==> rest == [])
    requires c.script == [DoWs(Down)] + (Reopenings(first) + ([Done] + rest))
    ensures Close(c).state == if first == [] then Closed else Connecting
    ensures Close(c).script == rest
  {
    hide Orderly, StateOf;
    var b := Begun(c);
    var b1 := b.(script := b.script[1..]);
    assert b1.script == Reopenings(first) + ([Done] + rest) && b.script[0] == DoWs(Down);
    OneReopening(Shut(b1), first, [Done] + rest);
    OwnCallbackDecides(b1);
    var e := RemoteClose(b1);
    assert Perform(b1, DoWs(Down)) == e && Outside(b) == Outside(e);
    if first != [] {
      assert Reopenings(first[1..]) + ([Done] + rest) == [Done] + rest;
      EndOf(e, rest);
    }
  }

  /** Then it is as with no WebSocket transport. */
  lemma {:induction false} DownWhileStopped(c: Conn, first: seq<Address>, at: seq<Address>)
    requires Valid(c) && Living(c) && c.ws && WellFormed(first) && WellFormed(at)
    requires |first| <= 1 && (first == [] ==> at == [])
    requires c.script == [DoWs(Down)] + (Reopenings(first) + ([Done] + Reopenings(at)))
    ensures RemoteClose(c).state == if |first| + |at| >= 2 then Connecting else Closed
  {
    hide Orderly, StateOf;
    DownInsideStop(c, first, Reopenings(at));
    if first != [] {
      assert Reopenings(at) == Reopenings(at) + [];
      ReopenedIsClosed(Close(c), at);
    }
  }

  // -------------------------------- whatever user code does: exactly when it is safe

  /** Something stood when the nested `close` returned, and `remoteClose` has closed it. */
  predicate Undone(c: Conn)
    requires Valid(c)
  {
    Living(Close(c)) && RemoteClose(c).state == Closed
  }

  function With(c: Conn, script: seq<Act>): (r: Conn)
    ensures Valid(c) ==> Valid(r)
  {
    c.(script := script)
  }

  lemma {:induction false} OnceReopened(c: Conn)
    requires Valid(c) && Living(c)
    ensures exists s :: Undone(With(c, s))
    ensures !c.ws ==> Undone(With(c, Reopenings([Plain])))
  {
    hide Orderly, StateOf, MayFollow;
    var at := [Plain];
    if c.ws {
      var s := [DoWs(Down)] + (Reopenings(at) + ([Done] + Reopenings([])));
      DownWhileStopped(With(c, s), at, []);
      DownInsideStop(With(c, s), at, Reopenings([]));
      assert Undone(With(c, s));
    } else {
      var d := With(c, Reopenings(at));
      assert Reopenings(at) == Reopenings(at) + [];
      ReopenedStands(d, at);
      NestedFirst(d);
      OneReopening(Shut(Begun(d)), at, []);
      assert Undone(d);
    }
  }

  /** User code can come to lose what it opened exactly when the connection is connecting or open. */
  lemma {:induction false} CanBeUndoneIffLiving(c: Conn)
    requires Valid(c)
    ensures (exists s :: Undone(With(c, s))) <==> Living(c)
  {
    if Living(c) {
      OnceReopened(c);
    }
  }

  /**
   * Without a WebSocket transport: whatever user code does, `remoteClose` leaves what the closed callback
   * of this connection left, if and only if the connection was closing already.
   */
  lemma {:induction false} LeftAsItIsIffClosing(c: Conn)
    requires Valid(c) && c.state != Closed && !c.ws
    ensures (forall s :: RemoteClose(With(c, s)) == OwnCallback(With(c, s))) <==> c.state == Closing
  {
    if c.state == Closing {
      forall s ensures RemoteClose(With(c, s)) == OwnCallback(With(c, s)) {
        OwnCallbackDecides(With(c, s));
      }
    } else {
      OnceReopened(c);
      var d := With(c, Reopenings([Plain]));
      NestedFirst(d);
      assert RemoteClose(d) != OwnCallback(d);
    }
  }
}
