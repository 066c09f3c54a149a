/** From frames to messages: fragmentation, truncation, and delivery end to end. */
module WsMessages {
  import opened Bytes
  import opened Frames
  import opened WsSpec
  import opened WsTheorems
  import Handshake

  /** A frame as it is put on the wire: with a masking key or without. */
  datatype Wire = Wire(frame: Frame, key: Option<Key>)

  function EncodeAll(fs: seq<Wire>): seq<byte> {
    if fs == [] then [] else Encode(fs[0].frame, fs[0].key) + EncodeAll(fs[1..])
  }

  predicate AllEncodable(fs: seq<Wire>) {
    forall i :: 0 <= i < |fs| ==> Encodable(fs[i].frame)
  }

  /** The frames handled one by one, with no bytes in sight. */
  function HandleAll(c: Config, k: Core, fs: seq<Wire>): Outcome<Core>
    decreases |fs|
  {
    if fs == [] then Ok(k)
    else
      match RecvFrame(c, k, Truncate(fs[0].frame, c.maxMessageSize))
      case Threw(k1) => Threw(k1)
      case Ok(k1) => HandleAll(c, k1, fs[1..])
  }

  lemma {:induction false} HandleAppend(c: Config, k: Core, a: seq<Wire>, b: seq<Wire>)
    requires HandleAll(c, k, a).Ok?
    ensures HandleAll(c, k, a + b) == HandleAll(c, HandleAll(c, k, a).w, b)
    decreases |a|
  {
    if a == [] {
      assert a + b == b;
    } else {
      assert (a + b)[1..] == a[1..] + b;
      HandleAppend(c, RecvFrame(c, k, Truncate(a[0].frame, c.maxMessageSize)).w, a[1..], b);
    }
  }

  lemma {:induction false} EncodeAppend(a: seq<Wire>, b: seq<Wire>)
    ensures EncodeAll(a + b) == EncodeAll(a) + EncodeAll(b)
  {
    if a == [] {
      assert a + b == b;
    } else {
      assert (a + b)[1..] == a[1..] + b;
      EncodeAppend(a[1..], b);
    }
  }

  // ---------------------------------------------------- bytes become frames

  lemma {:induction false} DrainOne(c: Config, k: Core, f: Frame, key: Option<Key>, rest: seq<byte>)
    requires Encodable(f)
    ensures var o := Drain(c, k, Encode(f, key) + rest);
            match RecvFrame(c, k, Truncate(f, c.maxMessageSize))
            case Ok(k1) => o == Drain(c, k1, rest)
            case Threw(k1) => o.Threw? && o.w.core == k1
  {
    var e := Encode(f, key);
    DecodeEncode(f, key, rest, c.maxMessageSize);
    assert (e + rest)[|e|..] == rest;
  }

  /** The byte-level reader sees exactly the frames that were encoded. */
  lemma {:induction false} DrainReadsFrames(c: Config, k: Core, fs: seq<Wire>, tail: seq<byte>)
    requires AllEncodable(fs)
    ensures var o := Drain(c, k, EncodeAll(fs) + tail);
            match HandleAll(c, k, fs)
            case Ok(k1) => o == Drain(c, k1, tail)
            case Threw(k1) => o.Threw? && o.w.core == k1
    decreases |fs|
  {
    if fs == [] {
      assert EncodeAll(fs) + tail == tail;
    } else {
      var f, e := fs[0].frame, Encode(fs[0].frame, fs[0].key);
      var rest := EncodeAll(fs[1..]) + tail;
      assert EncodeAll(fs) + tail == e + rest;
      DrainOne(c, k, f, fs[0].key, rest);
      assert AllEncodable(fs[1..]);
      var o := RecvFrame(c, k, Truncate(f, c.maxMessageSize));
      if o.Ok? {
        DrainReadsFrames(c, o.w, fs[1..], tail);
      }
    }
  }

  /** A connected transport at a frame boundary. */
  predicate Ready(w: Ws) {
    w.core.state == Connected && w.buffer == [] && w.ignoreLength == 0
  }

  lemma {:induction false} FeedWhenReady(c: Config, w: Ws, s: seq<byte>)
    requires Ready(w) && s != []
    ensures Feed(c, w, s) == Settle(Drain(c, w.core, s))
  {
    assert [] + s == s && s[0..] == s;
  }

  lemma {:induction false} FeedFrames(c: Config, w: Ws, fs: seq<Wire>)
    requires Ready(w) && fs != [] && AllEncodable(fs)
    ensures match HandleAll(c, w.core, fs)
            case Ok(k1) => Feed(c, w, EncodeAll(fs)) == Ws(k1, [], 0)
            case Threw(k1) => Feed(c, w, EncodeAll(fs)) == Ws(Fail(k1), [], 0)
  {
    hide Drain, HandleAll, EncodeAll, Fail, Feed;
    var s := EncodeAll(fs);
    SomethingEncoded(fs);
    FeedWhenReady(c, w, s);
    DrainReadsFrames(c, w.core, fs, []);
    assert s + [] == s;
    HandleStates(c, w.core, fs);
    var k1 := HandleAll(c, w.core, fs).w;
    NothingToDrain(c, k1);
    FailDown(k1);
  }

  lemma {:induction false} NothingToDrain(c: Config, k: Core)
    ensures Drain(c, k, []) == Ok(Ws(k, [], 0))
  {
  }

  lemma {:induction false} HandleStates(c: Config, k: Core, fs: seq<Wire>)
    ensures var k1 := HandleAll(c, k, fs).w; k1.state == k.state || k1.state == Disconnected
    decreases |fs|
  {
    hide RecvFrame;
    if fs != [] {
      var f := Truncate(fs[0].frame, c.maxMessageSize);
      RecvFrameStates(c, k, f);
      HandleStates(c, RecvFrame(c, k, f).w, fs[1..]);
    }
  }

  // -------------------------------------------- what callbacks leave alone

  function Deliveries(events: seq<Event>): seq<Event> {
    if events == [] then []
    else
      var last := events[|events| - 1];
      Deliveries(events[..|events| - 1]) + (if last.Delivered? then [last] else [])
  }

  function FramesSent(events: seq<Event>): seq<Event> {
    if events == [] then []
    else
      var last := events[|events| - 1];
      FramesSent(events[..|events| - 1]) + (if last.SentFrame? then [last] else [])
  }

  lemma {:induction false} AfterEmit(k: Core, e: Event)
    ensures Deliveries(Emit(k, e).events) == Deliveries(k.events) + (if e.Delivered? then [e] else [])
    ensures FramesSent(Emit(k, e).events) == FramesSent(k.events) + (if e.SentFrame? then [e] else [])
  {
    assert (k.events + [e])[..|k.events|] == k.events;
  }

  /** The message being assembled and the messages delivered are as before; with sends that succeed, so is the state. */
  predicate Undisturbed(k: Core, r: Core) {
    && r.partial == k.partial && r.partialOpcode == k.partialOpcode
    && Deliveries(r.events) == Deliveries(k.events)
    && (k.lower == [] ==> r.lower == [] && r.state == k.state)
  }

  lemma {:induction false} CallbackUndisturbed(k: Core)
    ensures Undisturbed(k, Callback(k)) && (k.script == [] ==> Callback(k) == k)
    decreases |k.script|, 0
  {
    if k.script != [] {
      UserCallsUndisturbed(k.(script := k.script[1..]), k.script[0]);
    }
  }

  lemma {:induction false} UserCallsUndisturbed(k: Core, calls: seq<UserCall>)
    ensures Undisturbed(k, UserCalls(k, calls))
    decreases |k.script|, 4, |calls|
  {
    if calls != [] {
      PerformUndisturbed(k, calls[0]);
      UserCallsUndisturbed(Perform(k, calls[0]), calls[1..]);
    }
  }

  lemma {:induction false} PerformUndisturbed(k: Core, call: UserCall)
    ensures Undisturbed(k, Perform(k, call))
    decreases |k.script|, 3
  {
    match call
    case CallClose => CloseUndisturbed(k);
    case CallSend(text, data) =>
      FrameUndisturbed(k.(asked := k.asked + [Ask(text, data)]), if text then TEXT_FRAME else BINARY_FRAME, data);
  }

  lemma {:induction false} FrameUndisturbed(k: Core, opcode: byte, payload: seq<byte>)
    ensures var o := Outgoing(k, SentFrame(opcode, payload));
            && Undisturbed(k, o.w) && o.w.state == k.state
            && (k.lower == [] ==> o.Ok? && FramesSent(o.w.events) == FramesSent(k.events) + [SentFrame(opcode, payload)])
  {
    var e := SentFrame(opcode, payload);
    var k1 := if k.lower == [] then k else k.(lower := k.lower[1..]);
    AfterEmit(k1, e);
    AfterEmit(k1, Thrown(e));
  }

  lemma {:induction false} CloseUndisturbed(k: Core)
    ensures Undisturbed(k, Close(k))
    decreases |k.script|, 2
  {
    if k.state == Connected && !k.closeSent {
      var k0 := k.(closeSent := true);
      FrameUndisturbed(k0, CLOSE, []);
      var o := Outgoing(k0, SentFrame(CLOSE, []));
      if o.Threw? {
        ChangeUndisturbed(o.w, Disconnected);
      }
    }
  }

  lemma {:induction false} ChangeUndisturbed(k: Core, t: State)
    ensures Undisturbed(k.(state := t), Change(k, t))
    ensures k.script == [] ==> FramesSent(Change(k, t).events) == FramesSent(k.events)
    decreases |k.script|, 1
  {
    if k.state != t {
      AfterEmit(k.(state := t), Changed(t));
      CallbackUndisturbed(Emit(k.(state := t), Changed(t)));
    }
  }

  lemma {:induction false} DeliverUndisturbed(k: Core, opcode: byte, data: seq<byte>)
    ensures var e, r := Delivered(opcode == TEXT_FRAME, data), Deliver(k, opcode, data);
            && r.partial == k.partial && r.partialOpcode == k.partialOpcode
            && Deliveries(r.events) == Deliveries(k.events) + [e]
            && (k.lower == [] ==> r.lower == [] && r.state == k.state)
            && (k.script == [] ==> r.script == [] && FramesSent(r.events) == FramesSent(k.events))
  {
    var e := Delivered(opcode == TEXT_FRAME, data);
    AfterEmit(k, e);
    CallbackUndisturbed(Emit(k, e));
  }

  // -------------------------------------------------------- staying connected

  predicate NoClose(fs: seq<Wire>) {
    forall i :: 0 <= i < |fs| ==> fs[i].frame.opcode != CLOSE
  }

  lemma {:induction false} DataStays(c: Config, k: Core, f: Frame)
    requires k.lower == []
    ensures RecvData(c, k, f).lower == [] && RecvData(c, k, f).state == k.state
    ensures RecvContinuation(c, k, f).lower == [] && RecvContinuation(c, k, f).state == k.state
  {
    hide Deliver;
    DeliverUndisturbed(k, k.partialOpcode, k.partial);
    DeliverUndisturbed(Flush(k).(partialOpcode := f.opcode), f.opcode, Take(c.maxMessageSize, f.payload));
    var data := Take(c.maxMessageSize, k.partial + f.payload);
    DeliverUndisturbed(k.(partial := data), k.partialOpcode, data);
  }

  /** With sends that succeed nothing throws, and only a CLOSE takes the transport down. */
  lemma {:induction false} RecvFrameStays(c: Config, k: Core, f: Frame)
    requires k.lower == []
    ensures var o := RecvFrame(c, k, f); o.Ok? && o.w.lower == [] && (f.opcode != CLOSE ==> o.w.state == k.state)
  {
    hide RecvData, RecvContinuation, Close, Change, Deliveries;
    DataStays(c, k, f);
    CloseUndisturbed(k);
    ChangeUndisturbed(Close(k), Disconnected);
  }

  lemma {:induction false} HandleNeverThrows(c: Config, k: Core, fs: seq<Wire>)
    requires k.lower == []
    ensures HandleAll(c, k, fs).Ok? && HandleAll(c, k, fs).w.lower == []
    decreases |fs|
  {
    hide RecvFrame, Truncate;
    if fs != [] {
      var f := Truncate(fs[0].frame, c.maxMessageSize);
      RecvFrameStays(c, k, f);
      HandleNeverThrows(c, RecvFrame(c, k, f).w, fs[1..]);
    }
  }

  /** Without a CLOSE, and with sends that succeed, the transport stays connected. */
  lemma {:induction false} HandleStaysConnected(c: Config, k: Core, fs: seq<Wire>)
    requires NoClose(fs) && k.lower == []
    ensures var o := HandleAll(c, k, fs); o.Ok? && o.w.state == k.state && o.w.lower == []
    decreases |fs|
  {
    hide RecvFrame;
    if fs != [] {
      var f := Truncate(fs[0].frame, c.maxMessageSize);
      assert fs[0].frame.opcode != CLOSE;
      RecvFrameStays(c, k, f);
      HandleStaysConnected(c, RecvFrame(c, k, f).w, fs[1..]);
    }
  }

  /** Cut anywhere, a stream of frames is handled frame by frame. */
  lemma {:induction false} ChunkedFrames(c: Config, w: Ws, fs: seq<Wire>, chunks: seq<seq<byte>>)
    requires Ready(w) && w.core.lower == [] && fs != [] && AllEncodable(fs) && NoClose(fs)
    requires NonEmpty(chunks) && Concat(chunks) == EncodeAll(fs)
    ensures FeedAll(c, w, chunks) == Ws(HandleAll(c, w.core, fs).w, [], 0)
  {
    FeedFrames(c, w, fs);
    HandleStaysConnected(c, w.core, fs);
    OnePieceIsEnough(c, w, chunks);
  }

  // --------------------------------------------------- frames become messages

  predicate IsControl(f: Frame) {
    f.opcode == PING || f.opcode == PONG
  }

  /** What may follow an unfinished first frame: continuations, the last one final, and pings and pongs. */
  predicate IsRest(fs: seq<Wire>) {
    fs != [] &&
    if |fs| == 1 then fs[0].frame.opcode == CONTINUATION && fs[0].frame.fin
    else (IsControl(fs[0].frame) || (fs[0].frame.opcode == CONTINUATION && !fs[0].frame.fin)) && IsRest(fs[1..])
  }

  /** The frames of one message (RFC 6455 section 5.4). */
  predicate IsMessage(fs: seq<Wire>) {
    && fs != [] && IsData(fs[0].frame.opcode)
    && if fs[0].frame.fin then |fs| == 1 else IsRest(fs[1..])
  }

  /** The payload bytes on the wire, control frames left out. */
  function DataOf(fs: seq<Wire>): seq<byte> {
    if fs == [] then []
    else (if IsControl(fs[0].frame) then [] else fs[0].frame.payload) + DataOf(fs[1..])
  }

  /** The replies owed to the pings among the frames. */
  function PongsFor(c: Config, fs: seq<Wire>): seq<Event> {
    if fs == [] then []
    else
      (if fs[0].frame.opcode == PING then [SentFrame(PONG, Truncate(fs[0].frame, c.maxMessageSize).payload)] else [])
      + PongsFor(c, fs[1..])
  }

  function MessageOf(c: Config, fs: seq<Wire>): Event
    requires fs != []
  {
    Delivered(fs[0].frame.opcode == TEXT_FRAME, Take(c.maxMessageSize, DataOf(fs)))
  }

  lemma {:induction false} TakeTake<T>(n: nat, m: nat, a: seq<T>, b: seq<T>)
    requires n <= m
    ensures Take(n, Take(n, a) + b[..Min(|b|, m)]) == Take(n, a + b)
    ensures Take(n, b[..Min(|b|, m)]) == Take(n, b)
  {
  }

  /** A continuation keeps the first bytes of everything so far, whichever cut was made before. */
  lemma {:induction false} ContinuationTakes(c: Config, k: Core, f: Frame, soFar: seq<byte>)
    requires f.opcode == CONTINUATION && k.partial == Take(c.maxMessageSize, soFar)
    ensures var data := Take(c.maxMessageSize, soFar + f.payload);
            RecvFrame(c, k, Truncate(f, c.maxMessageSize)) ==
            Ok(if f.fin then Deliver(k.(partial := data), k.partialOpcode, data).(partial := []) else k.(partial := data))
  {
    TakeTake(c.maxMessageSize, Max(MAX_CONTROL_FRAME_LENGTH, c.maxMessageSize), soFar, f.payload);
  }

  /** What a run of frames that ends a message leaves behind. */
  predicate Ended(c: Config, k: Core, fs: seq<Wire>, before: seq<Event>, message: Event) {
    var o := HandleAll(c, k, fs);
    && o.Ok? && o.w.partial == [] && o.w.lower == []
    && Deliveries(o.w.events) == before + [message]
    && (k.script == [] ==> o.w.script == [] && FramesSent(o.w.events) == FramesSent(k.events) + PongsFor(c, fs))
  }

  lemma {:induction false} HandleOne(c: Config, k: Core, fs: seq<Wire>)
    requires |fs| == 1 && RecvFrame(c, k, Truncate(fs[0].frame, c.maxMessageSize)).Ok?
    ensures HandleAll(c, k, fs) == RecvFrame(c, k, Truncate(fs[0].frame, c.maxMessageSize))
  {
    assert HandleAll(c, RecvFrame(c, k, Truncate(fs[0].frame, c.maxMessageSize)).w, fs[1..]).Ok?;
  }

  lemma {:induction false} DataOfOne(c: Config, fs: seq<Wire>)
    requires |fs| == 1 && !IsControl(fs[0].frame)
    ensures DataOf(fs) == fs[0].frame.payload && PongsFor(c, fs) == []
  {
    assert DataOf(fs[1..]) == [] && PongsFor(c, fs[1..]) == [];
  }

  lemma {:induction false} LastContinuation(c: Config, k: Core, fs: seq<Wire>, soFar: seq<byte>)
    requires |fs| == 1 && IsRest(fs) && k.lower == [] && k.partial == Take(c.maxMessageSize, soFar)
    ensures Ended(c, k, fs, Deliveries(k.events),
                  Delivered(k.partialOpcode == TEXT_FRAME, Take(c.maxMessageSize, soFar + DataOf(fs))))
  {
    var f := fs[0].frame;
    ContinuationTakes(c, k, f, soFar);
    var data := Take(c.maxMessageSize, soFar + f.payload);
    DeliverUndisturbed(k.(partial := data), k.partialOpcode, data);
    HandleOne(c, k, fs);
    DataOfOne(c, fs);
  }

  /** A ping is answered, a pong resets the count; neither touches the message being assembled. */
  lemma {:induction false} ControlFrame(c: Config, k: Core, fs: seq<Wire>)
    requires fs != [] && IsControl(fs[0].frame) && k.lower == []
    ensures var o := RecvFrame(c, k, Truncate(fs[0].frame, c.maxMessageSize));
            && o.Ok? && o.w.lower == [] && o.w.partial == k.partial && o.w.partialOpcode == k.partialOpcode
            && Deliveries(o.w.events) == Deliveries(k.events)
            && o.w.script == k.script
            && FramesSent(o.w.events) + PongsFor(c, fs[1..]) == FramesSent(k.events) + PongsFor(c, fs)
    ensures DataOf(fs) == DataOf(fs[1..])
  {
    FrameUndisturbed(k, PONG, Truncate(fs[0].frame, c.maxMessageSize).payload);
  }

  lemma {:induction false} RestIsDelivered(c: Config, k: Core, fs: seq<Wire>, soFar: seq<byte>)
    requires IsRest(fs) && k.lower == [] && k.partial == Take(c.maxMessageSize, soFar)
    ensures Ended(c, k, fs, Deliveries(k.events),
                  Delivered(k.partialOpcode == TEXT_FRAME, Take(c.maxMessageSize, soFar + DataOf(fs))))
    decreases |fs|
  {
    var f := fs[0].frame;
    if |fs| == 1 {
      LastContinuation(c, k, fs, soFar);
    } else if f.opcode == CONTINUATION {
      ContinuationTakes(c, k, f, soFar);
      assert soFar + DataOf(fs) == (soFar + f.payload) + DataOf(fs[1..]);
      assert PongsFor(c, fs) == PongsFor(c, fs[1..]);
      RestIsDelivered(c, k.(partial := Take(c.maxMessageSize, soFar + f.payload)), fs[1..], soFar + f.payload);
    } else {
      ControlFrame(c, k, fs);
      RestIsDelivered(c, RecvFrame(c, k, Truncate(f, c.maxMessageSize)).w, fs[1..], soFar);
    }
  }

  /** What is delivered before a new message: the unfinished one, as far as it got. */
  function Unfinished(k: Core): seq<Event> {
    if k.partial == [] then [] else [Delivered(k.partialOpcode == TEXT_FRAME, k.partial)]
  }

  lemma {:induction false} FirstFrame(c: Config, k: Core, f: Frame)
    requires IsData(f.opcode)
    ensures var data := Take(c.maxMessageSize, f.payload);
            var o := RecvFrame(c, k, Truncate(f, c.maxMessageSize));
            && o.Ok? && (k.lower == [] ==> o.w.lower == []) && o.w.partialOpcode == f.opcode
            && o.w.partial == (if f.fin then [] else data)
            && Deliveries(o.w.events) == Deliveries(k.events) + Unfinished(k)
               + (if f.fin then [Delivered(f.opcode == TEXT_FRAME, data)] else [])
            && (k.script == [] ==> o.w.script == [] && FramesSent(o.w.events) == FramesSent(k.events))
  {
    hide Deliver, Deliveries, FramesSent;
    var data := Take(c.maxMessageSize, f.payload);
    TakeTake(c.maxMessageSize, Max(MAX_CONTROL_FRAME_LENGTH, c.maxMessageSize), [], f.payload);
    DeliverUndisturbed(k, k.partialOpcode, k.partial);
    DeliverUndisturbed(Flush(k).(partialOpcode := f.opcode), f.opcode, data);
  }

  /**
   * The truncation law: however a message was fragmented, whatever control frames were mixed in and
   * whichever of the three cuts applied, what is delivered is the start of the payload as sent, up to
   * the limit. An unfinished message before it is delivered first, as far as it got.
   */
  lemma {:induction false} TruncationLaw(c: Config, k: Core, fs: seq<Wire>)
    requires IsMessage(fs) && k.lower == []
    ensures Ended(c, k, fs, Deliveries(k.events) + Unfinished(k), MessageOf(c, fs))
  {
    var f := fs[0].frame;
    FirstFrame(c, k, f);
    var k1 := RecvFrame(c, k, Truncate(f, c.maxMessageSize)).w;
    if f.fin {
      HandleOne(c, k, fs);
      DataOfOne(c, fs);
    } else {
      RestIsDelivered(c, k1, fs[1..], f.payload);
      assert PongsFor(c, fs) == PongsFor(c, fs[1..]);
    }
  }

  // ----------------------------------------------------------- end to end

  /** What a stream consists of: messages, and control frames on their own. */
  predicate IsItem(fs: seq<Wire>) {
    IsMessage(fs) || (|fs| == 1 && IsControl(fs[0].frame))
  }

  predicate AreItems(ms: seq<seq<Wire>>) {
    forall i :: 0 <= i < |ms| ==> IsItem(ms[i])
  }

  /** The messages among the items, as they are delivered. */
  function Messages(c: Config, ms: seq<seq<Wire>>): seq<Event> {
    if ms == [] then [] else (if IsMessage(ms[0]) then [MessageOf(c, ms[0])] else []) + Messages(c, ms[1..])
  }

  lemma {:induction false} HandleItem(c: Config, k: Core, fs: seq<Wire>)
    requires IsItem(fs) && k.lower == [] && k.partial == []
    ensures var o := HandleAll(c, k, fs);
            && o.Ok? && o.w.partial == [] && o.w.lower == []
            && Deliveries(o.w.events) == Deliveries(k.events) + (if IsMessage(fs) then [MessageOf(c, fs)] else [])
            && (k.script == [] ==> o.w.script == [] && FramesSent(o.w.events) == FramesSent(k.events) + PongsFor(c, fs))
  {
    hide RecvFrame, Truncate, MessageOf;
    if IsMessage(fs) {
      TruncationLaw(c, k, fs);
      assert Deliveries(k.events) + Unfinished(k) == Deliveries(k.events);
    } else {
      ControlFrame(c, k, fs);
      HandleOne(c, k, fs);
      assert PongsFor(c, fs[1..]) == [];
    }
  }

  lemma {:induction false} HandleItems(c: Config, k: Core, ms: seq<seq<Wire>>)
    requires AreItems(ms) && k.lower == [] && k.partial == []
    ensures var o := HandleAll(c, k, Concat(ms));
            && o.Ok? && o.w.partial == [] && o.w.lower == []
            && Deliveries(o.w.events) == Deliveries(k.events) + Messages(c, ms)
            && (k.script == [] ==> o.w.script == [] && FramesSent(o.w.events) == FramesSent(k.events) + PongsFor(c, Concat(ms)))
    decreases |ms|
  {
    hide RecvFrame, Deliveries, FramesSent, IsItem, IsMessage, MessageOf, Truncate, HandleAll, PongsFor;
    if ms == [] {
      NothingHandled(c, k);
    } else {
      var m, rest := ms[0], ms[1..];
      HandleItem(c, k, m);
      HandleItems(c, HandleAll(c, k, m).w, rest);
      HandleAppend(c, k, m, Concat(rest));
      PongsAppend(c, m, Concat(rest));
    }
  }

  lemma {:induction false} NothingHandled(c: Config, k: Core)
    ensures HandleAll(c, k, []) == Ok(k) && PongsFor(c, []) == []
  {
  }

  lemma {:induction false} PongsAppend(c: Config, a: seq<Wire>, b: seq<Wire>)
    ensures PongsFor(c, a + b) == PongsFor(c, a) + PongsFor(c, b)
  {
    if a == [] {
      assert a + b == b;
    } else {
      assert (a + b)[1..] == a[1..] + b;
      PongsAppend(c, a[1..], b);
    }
  }

  lemma {:induction false} RestHasNoClose(fs: seq<Wire>)
    requires IsRest(fs)
    ensures NoClose(fs)
  {
    if |fs| > 1 {
      RestHasNoClose(fs[1..]);
      forall i | 0 <= i < |fs| ensures fs[i].frame.opcode != CLOSE {
        if i > 0 { assert fs[i] == fs[1..][i - 1]; }
      }
    }
  }

  lemma {:induction false} MessageHasNoClose(fs: seq<Wire>)
    requires IsMessage(fs)
    ensures NoClose(fs)
  {
    if !fs[0].frame.fin {
      RestHasNoClose(fs[1..]);
      forall i | 0 <= i < |fs| ensures fs[i].frame.opcode != CLOSE {
        if i > 0 { assert fs[i] == fs[1..][i - 1]; }
      }
    }
  }

  lemma {:induction false} ItemsHaveNoClose(ms: seq<seq<Wire>>)
    requires AreItems(ms)
    ensures NoClose(Concat(ms))
  {
    if ms != [] {
      if IsMessage(ms[0]) {
        MessageHasNoClose(ms[0]);
      }
      ItemsHaveNoClose(ms[1..]);
    }
  }

  /**
   * End to end: any messages, in any number of frames, masked or not, with control frames inside them
   * and between them, on a stream cut anywhere: delivered in order, each with its type and its payload
   * up to the limit, whatever the callbacks call; and if they call nothing, what is sent is an answer to
   * every ping, in order.
   */
  lemma {:induction false} EndToEnd(c: Config, w: Ws, ms: seq<seq<Wire>>, chunks: seq<seq<byte>>)
    requires Ready(w) && w.core.lower == [] && w.core.partial == []
    requires ms != [] && AreItems(ms) && AllEncodable(Concat(ms))
    requires NonEmpty(chunks) && Concat(chunks) == EncodeAll(Concat(ms))
    ensures var k := FeedAll(c, w, chunks).core;
            && Deliveries(k.events) == Deliveries(w.core.events) + Messages(c, ms)
            && (w.core.script == [] ==> FramesSent(k.events) == FramesSent(w.core.events) + PongsFor(c, Concat(ms)))
            && Ready(FeedAll(c, w, chunks))
  {
    ItemsHaveNoClose(ms);
    HandleItems(c, w.core, ms);
    HandleStaysConnected(c, w.core, Concat(ms));
    assert ms[0] != [];
    ChunkedFrames(c, w, Concat(ms), chunks);
  }

  /** The frame that `send` writes for one message. */
  function SentAs(text: bool, data: seq<byte>, key: Option<Key>): Wire {
    Wire(Frame(true, if text then TEXT_FRAME else BINARY_FRAME, data), key)
  }

  /** A message of `send` within the receiver's limit arrives byte for byte. */
  lemma {:induction false} SentMessageArrives(c: Config, text: bool, data: seq<byte>, key: Option<Key>)
    requires |data| <= c.maxMessageSize
    ensures IsMessage([SentAs(text, data, key)])
    ensures MessageOf(c, [SentAs(text, data, key)]) == Delivered(text, data)
  {
    DataOfOne(c, [SentAs(text, data, key)]);
  }

  // ------------------------------------------------------ handshake to frames

  /** Whatever follows `head`, the transport takes just it for the other side's handshake, and goes on as `k1`. */
  ghost predicate Expects(c: Config, k: Core, head: seq<byte>, k1: Core) {
    forall s :: Shake(c, k, head + s) == (Ok(k1), |head|)
  }

  /** A client expects the response to its own key. */
  lemma {:induction false} ClientExpects(c: Config, k: Core, head: seq<byte>, protocols: seq<string>)
    requires c.client && Handshake.HeaderValue(Handshake.Http.Implode(protocols, ','))
    requires Text(head) == Handshake.ResponseText(Accept(c, k), protocols)
    ensures Expects(c, k, head, Change(k, Connected))
  {
    hide Change;
    forall s ensures Shake(c, k, head + s) == (Ok(Change(k, Connected)), |head|) {
      TextExtends(head, s);
      Handshake.ResponseAgreement(c.sha1, k.handshake.key, protocols, Text(s));
    }
  }

  /** What a server knows after a request. */
  function Requested(k: Core, f: Handshake.Fields): Core {
    k.(handshake := f.(protocols := if f.protocols == [] then k.handshake.protocols else f.protocols))
  }

  /** A server expects any request that can be sent, and answers it. */
  lemma {:induction false} ServerExpects(c: Config, k: Core, head: seq<byte>, f: Handshake.Fields)
    requires !c.client && k.lower == [] && Handshake.Sendable(f) && Text(head) == Handshake.RequestText(f)
    ensures Expects(c, k, head, Welcome(c, Requested(k, f)).w) && Welcome(c, Requested(k, f)).Ok?
  {
    hide Change;
    forall s ensures Shake(c, k, head + s) == (Ok(Welcome(c, Requested(k, f)).w), |head|) {
      TextExtends(head, s);
      Handshake.RequestAgreement(f, k.handshake, Text(s));
    }
  }

  /** Both go on connected, with nothing delivered yet. */
  lemma {:induction false} ClientOpens(k: Core)
    requires k.lower == [] && k.partial == []
    ensures var k1 := Change(k, Connected); k1.state == Connected && k1.lower == [] && k1.partial == []
    ensures Deliveries(Change(k, Connected).events) == Deliveries(k.events)
    ensures k.script == [] ==> Change(k, Connected).script == []
  {
    ChangeUndisturbed(k, Connected);
  }

  lemma {:induction false} ServerOpens(c: Config, k: Core, f: Handshake.Fields)
    requires k.lower == [] && k.partial == []
    ensures var k1 := Welcome(c, Requested(k, f)).w; k1.state == Connected && k1.lower == [] && k1.partial == []
    ensures Deliveries(Welcome(c, Requested(k, f)).w.events) == Deliveries(k.events)
    ensures k.script == [] ==> Welcome(c, Requested(k, f)).w.script == []
  {
    var k0 := Requested(k, f);
    var e := SentText(Handshake.ResponseText(Accept(c, k0), k0.handshake.protocols));
    AfterEmit(k0, e);
    ChangeUndisturbed(Emit(k0, e), Connected);
  }

  predicate Awaits(w: Ws) {
    w.core.state == Connecting && w.buffer == [] && w.ignoreLength == 0
  }

  /** The transport hands the frame reader exactly the bytes after the other side's handshake. */
  lemma {:induction false} HandOver(c: Config, w: Ws, head: seq<byte>, k1: Core, s: seq<byte>)
    requires Awaits(w) && Expects(c, w.core, head, k1) && k1.state == Connected && s != []
    ensures Feed(c, w, head + s) == Feed(c, Ws(k1, [], 0), s)
  {
    hide Drain;
    FeedOpening(c, w, head, k1, s);
    FeedWhenReady(c, Ws(k1, [], 0), s);
  }

  lemma {:induction false} FeedOpening(c: Config, w: Ws, head: seq<byte>, k1: Core, s: seq<byte>)
    requires Awaits(w) && k1.state == Connected && head + s != []
    requires Shake(c, w.core, head + s) == (Ok(k1), |head|)
    ensures Feed(c, w, head + s) == Settle(Drain(c, k1, s))
  {
    hide Shake, Drain;
    assert [] + (head + s) == head + s && (head + s)[|head|..] == s && s[0..] == s;
  }

  lemma {:induction false} FeedAllLast(c: Config, w: Ws, init: seq<seq<byte>>, last: seq<byte>)
    ensures FeedAll(c, w, init + [last]) == Feed(c, FeedAll(c, w, init), last)
  {
    var chunks := init + [last];
    assert chunks[..|chunks| - 1] == init && chunks[|chunks| - 1] == last;
  }

  /** From the first byte the other side sends: its handshake, then messages, cut anywhere. */
  lemma {:induction false} HandshakeThenMessages(c: Config, w: Ws, head: seq<byte>, k1: Core, ms: seq<seq<Wire>>,
                                                 chunks: seq<seq<byte>>)
    requires Awaits(w) && Expects(c, w.core, head, k1)
    requires k1.state == Connected && k1.lower == [] && k1.partial == []
    requires ms != [] && AreItems(ms) && AllEncodable(Concat(ms))
    requires NonEmpty(chunks) && Concat(chunks) == head + EncodeAll(Concat(ms))
    ensures var k := FeedAll(c, w, chunks).core;
            && k.state == Connected && Deliveries(k.events) == Deliveries(k1.events) + Messages(c, ms)
            && (k1.script == [] ==> FramesSent(k.events) == FramesSent(k1.events) + PongsFor(c, Concat(ms)))
  {
    hide Feed, Expects;
    var fs := Concat(ms);
    var w1 := Ws(k1, [], 0);
    assert ms[0] != [];
    SomethingEncoded(fs);
    HandOver(c, w, head, k1, EncodeAll(fs));
    ItemsHaveNoClose(ms);
    HandleItems(c, k1, ms);
    HandleStaysConnected(c, k1, fs);
    FeedFrames(c, w1, fs);
    OnePieceIsEnough(c, w, chunks);
  }

  lemma {:induction false} SomethingEncoded(fs: seq<Wire>)
    requires fs != []
    ensures EncodeAll(fs) != []
  {
    assert |EncodeAll(fs)| >= |Encode(fs[0].frame, fs[0].key)| > 0;
  }
}
