/** What a WebSocket transport does with each call, as functions on its state. */
module WsSpec {
  import opened Bytes
  import opened Frames
  import Handshake

  datatype State = Disconnected | Connecting | Connected | Completed | Failed

  /** What the outside sees of a transport, in order. */
  datatype Event =
    | Changed(state: State)                         // state callback
    | Delivered(text: bool, data: seq<byte>)        // message callback
    | Lost                                          // message callback with no message
    | SentFrame(opcode: byte, payload: seq<byte>)   // handed to the lower transport
    | SentText(body: string)
    | SentError(code: nat)
    | Thrown(what: Event)                           // a send that threw

  /** A message that user code gave to `send` while the transport was connected. */
  datatype Ask = Ask(text: bool, data: seq<byte>)

  /** What user code may call from inside a callback. */
  datatype UserCall = CallClose | CallSend(text: bool, data: seq<byte>)

  datatype Config = Config(client: bool, maxMessageSize: nat, maxOutstandingPings: int, sha1: Handshake.Digest)

  /**
   * Everything but the receive buffer. `lower` decides whether the coming sends succeed: its head is
   * consumed by each send, and once it is used up they all do. `script` holds what the coming state
   * and message callbacks call, and once it is used up they call nothing. Quantifying over the two
   * quantifies over every pattern of failing sends and everything user code may do.
   */
  datatype Core = Core(
    state: State,
    partial: seq<byte>,
    partialOpcode: byte,
    outstandingPings: int,
    closeSent: bool,
    timer: bool,
    handshake: Handshake.Fields,
    lower: seq<bool>,
    script: seq<seq<UserCall>>,
    asked: seq<Ask>,        // history
    events: seq<Event>)     // history

  /** A transport, with the bytes received and not yet used, and how many more are to be skipped. */
  datatype Ws = Ws(core: Core, buffer: seq<byte>, ignoreLength: nat)

  /** Calls that can throw leave the state they had reached. */
  datatype Outcome<+T> = Ok(w: T) | Threw(w: T)

  predicate IsSend(e: Event) {
    e.SentFrame? || e.SentText? || e.SentError?
  }

  /** A send, whether or not it threw. */
  predicate IsTry(e: Event) {
    IsSend(e) || (e.Thrown? && IsSend(e.what))
  }

  /** What was to be sent. */
  function What(e: Event): Event {
    if e.Thrown? then e.what else e
  }

  predicate Live(k: Core) {
    k.state == Connecting || k.state == Connected
  }

  function Emit(k: Core, e: Event): Core {
    k.(events := k.events + [e])
  }

  function Outgoing(k: Core, e: Event): (o: Outcome<Core>)
    ensures o.w.script == k.script
  {
    if k.lower == [] then Ok(Emit(k, e))
    else
      var k1 := k.(lower := k.lower[1..]);
      if k.lower[0] then Ok(Emit(k1, e)) else Threw(Emit(k1, Thrown(e)))
  }

  function Send(k: Core, text: bool, data: seq<byte>): (o: Outcome<Core>)
    ensures o.w.script == k.script
  {
    if k.state != Connected then Threw(k)
    else Outgoing(k.(asked := k.asked + [Ask(text, data)]), SentFrame(if text then TEXT_FRAME else BINARY_FRAME, data))
  }

  // --------------------------------------------- callbacks, which may call back

  /** A callback has been called: what it calls in turn. */
  function Callback(k: Core): (r: Core)
    ensures |r.script| <= |k.script|
    decreases |k.script|, 0
  {
    if k.script == [] then k else UserCalls(k.(script := k.script[1..]), k.script[0])
  }

  function UserCalls(k: Core, calls: seq<UserCall>): (r: Core)
    ensures |r.script| <= |k.script|
    decreases |k.script|, 4, |calls|
  {
    if calls == [] then k else UserCalls(Perform(k, calls[0]), calls[1..])
  }

  function Perform(k: Core, call: UserCall): (r: Core)
    ensures |r.script| <= |k.script|
    decreases |k.script|, 3
  {
    match call
    case CallClose => Close(k)
    case CallSend(text, data) => Send(k, text, data).w
  }

  /** The callback runs only on an actual change. */
  function Change(k: Core, s: State): (r: Core)
    ensures |r.script| <= |k.script|
    decreases |k.script|, 1
  {
    if k.state == s then k else Callback(Emit(k.(state := s), Changed(s)))
  }

  function Close(k: Core): (r: Core)
    ensures |r.script| <= |k.script|
    decreases |k.script|, 2
  {
    if k.state != Connected || k.closeSent then k
    else
      match Outgoing(k.(closeSent := true), SentFrame(CLOSE, []))
      case Threw(k1) => Change(k1, Disconnected)
      case Ok(k1) => k1.(timer := true)
  }

  // ---------------------------------------------------------------- receiving

  predicate IsData(opcode: byte) {
    opcode == TEXT_FRAME || opcode == BINARY_FRAME
  }

  function Deliver(k: Core, opcode: byte, data: seq<byte>): Core {
    Callback(Emit(k, Delivered(opcode == TEXT_FRAME, data)))
  }

  /** A new message reports the unfinished one before it, if any of it was kept. */
  function Flush(k: Core): Core {
    if k.partial == [] then k else Deliver(k, k.partialOpcode, k.partial).(partial := [])
  }

  function RecvData(c: Config, k: Core, f: Frame): Core {
    var data := Take(c.maxMessageSize, f.payload);
    var k1 := Flush(k).(partialOpcode := f.opcode);
    if f.fin then Deliver(k1, f.opcode, data) else k1.(partial := data)
  }

  function RecvContinuation(c: Config, k: Core, f: Frame): Core {
    var data := Take(c.maxMessageSize, k.partial + f.payload);
    if f.fin then Deliver(k.(partial := data), k.partialOpcode, data).(partial := []) else k.(partial := data)
  }

  function RecvFrame(c: Config, k: Core, f: Frame): Outcome<Core> {
    if IsData(f.opcode) then Ok(RecvData(c, k, f))
    else if f.opcode == CONTINUATION then Ok(RecvContinuation(c, k, f))
    else if f.opcode == PING then Outgoing(k, SentFrame(PONG, f.payload))
    else if f.opcode == PONG then Ok(k.(outstandingPings := 0))
    else if f.opcode == CLOSE then Ok(Change(Close(k), Disconnected))
    else Ok(Close(k))
  }

  /** The frames at the front of the buffer, one after the other. */
  function Drain(c: Config, k: Core, buffer: seq<byte>): Outcome<Ws>
    decreases |buffer|
  {
    match Parse(buffer, c.maxMessageSize)
    case More => Ok(Ws(k, buffer, 0))
    case Got(f, _, total) =>
      match RecvFrame(c, k, f)
      case Threw(k1) => Threw(Ws(k1, buffer, 0))
      case Ok(k1) =>
        if total > |buffer| then Ok(Ws(k1, [], total - |buffer|)) else Drain(c, k1, buffer[total..])
  }

  /** Skip what is left of an oversize frame, then read frames. */
  function Absorb(c: Config, w: Ws): Outcome<Ws> {
    var n := Min(w.ignoreLength, |w.buffer|);
    if w.ignoreLength > n then Ok(Ws(w.core, w.buffer[n..], w.ignoreLength - n))
    else Drain(c, w.core, w.buffer[n..])
  }

  /** Bytes read as text. */
  function Text(s: seq<byte>): (t: string)
    ensures |t| == |s|
  {
    seq(|s|, i requires 0 <= i < |s| => ToNat(s[i]) as char)
  }

  /** Text as bytes. */
  function BytesOf(t: string): (s: seq<byte>)
    ensures |s| == |t|
  {
    seq(|t|, i requires 0 <= i < |t| => FromNat(t[i] as int % 256))
  }

  function Accept(c: Config, k: Core): string {
    Handshake.AcceptKey(c.sha1, k.handshake.key)
  }

  function OnResponse(k: Core, r: Handshake.ResponseResult): (Outcome<Core>, nat) {
    match r
    case Pending => (Ok(k), 0)
    case Rejected => (Threw(k), 0)
    case Opened(n) => (Ok(Change(k, Connected)), n)
  }

  function OnRequest(c: Config, k: Core, r: Handshake.RequestResult): (Outcome<Core>, nat) {
    match r
    case Wait => (Ok(k), 0)
    case Refused(code, f) => (Threw(Outgoing(k.(handshake := f), SentError(code)).w), 0)
    case Accepted(n, f) => (Welcome(c, k.(handshake := f)), n)
  }

  function Welcome(c: Config, k: Core): Outcome<Core> {
    match Outgoing(k, SentText(Handshake.ResponseText(Accept(c, k), k.handshake.protocols)))
    case Threw(k1) => Threw(k1)
    case Ok(k1) => Ok(Change(k1, Connected))
  }

  /** Look for the other side's handshake at the front of the buffer; also returns how much of it was used. */
  function Shake(c: Config, k: Core, buffer: seq<byte>): (r: (Outcome<Core>, nat))
    ensures r.1 <= |buffer|
  {
    if c.client then OnResponse(k, Handshake.ParseResponse(Accept(c, k), Text(buffer)))
    else OnRequest(c, k, Handshake.ParseRequest(k.handshake, Text(buffer)))
  }

  /** An exception, or the end of the lower stream. */
  function Fail(k: Core): Core {
    if k.state == Connected then Callback(Emit(Change(k, Disconnected), Lost)) else Change(k, Failed)
  }

  function AddPing(c: Config, k: Core): Core {
    var k1 := k.(outstandingPings := k.outstandingPings + 1);
    if c.maxOutstandingPings > 0 && k1.outstandingPings > c.maxOutstandingPings then Change(k1, Failed) else k1
  }

  /** A ping carries four zero bytes. */
  const PING_PAYLOAD: seq<byte> := [0, 0, 0, 0]

  /** The lower stream was idle. */
  function Idle(c: Config, k: Core): Outcome<Core> {
    match Outgoing(k, SentFrame(PING, PING_PAYLOAD))
    case Threw(k1) => Threw(k1)
    case Ok(k1) => Ok(AddPing(c, k1))
  }

  function Receive(c: Config, w: Ws, m: seq<byte>): Outcome<Ws> {
    var buffer := w.buffer + m;
    var (o, n) := if w.core.state == Connecting then Shake(c, w.core, buffer) else (Ok(w.core), 0);
    var w1 := Ws(o.w, buffer[n..], w.ignoreLength);
    if o.Threw? then Threw(w1)
    else if w1.core.state != Connected then Ok(w1)
    else if m == [] then
      match Idle(c, w1.core)
      case Threw(k) => Threw(w1.(core := k))
      case Ok(k) => Ok(w1.(core := k))
    else Absorb(c, w1)
  }

  /** A transport that is no longer live drops its input, so what its buffer holds means nothing. */
  function Quiet(w: Ws): Ws {
    if Live(w.core) then w else Ws(w.core, [], 0)
  }

  function Settle(o: Outcome<Ws>): Ws {
    match o
    case Ok(w) => Quiet(w)
    case Threw(w) => Quiet(w.(core := Fail(w.core)))
  }

  function Incoming(c: Config, w: Ws, m: Option<seq<byte>>): Ws {
    if !Live(w.core) then Quiet(w)
    else
      match m
      case None => Settle(Threw(w))
      case Some(bytes) => Settle(Receive(c, w, bytes))
  }

  // ------------------------------------------------------------ other calls

  function Start(c: Config, k: Core, nonce: seq<byte>): Outcome<Core> {
    var k1 := Change(k, Connecting);
    if !c.client then Ok(k1)
    else
      var f := k1.handshake.(key := Handshake.Base64.Encode(nonce));
      Outgoing(k1.(handshake := f), SentText(Handshake.RequestText(f)))
  }

  /** Ten seconds after a CLOSE was sent. */
  function CloseTimeout(k: Core): Core {
    if k.timer then Change(k.(timer := false), Disconnected) else k
  }

  function Fresh(f: Handshake.Fields, opcode: byte, lower: seq<bool>, script: seq<seq<UserCall>>): Core {
    Core(Disconnected, [], opcode, 0, false, false, f, lower, script, [], [])
  }
}
