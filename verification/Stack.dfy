/** From one application to the other: a WebSocket transport, its TCP transport, the wire, and the receiver. */
module Stack {
  import opened Bytes
  import opened Frames
  import opened WsSpec
  import opened WsTheorems
  import opened WsCuts
  import opened WsMessages
  import opened WsReader
  import opened WsLifecycle
  import opened WsRuns
  import Handshake
  import Tcp = TcpTransport
  import Wst = WsTransport

  // ----------------------------------------------------- what a sender tried

  /** The sends of a history, in order, those that threw included. */
  function Tries(v: seq<Event>): seq<Event> {
    if v == [] then []
    else Tries(v[..|v| - 1]) + (if IsTry(v[|v| - 1]) then [v[|v| - 1]] else [])
  }

  predicate IsFrameTry(e: Event) {
    IsTry(e) && What(e).SentFrame? && IsSentOpcode(What(e).opcode)
  }

  /** First the handshake, or a refusal and nothing else; then frames. */
  predicate Shape(t: seq<Event>) {
    && (forall i :: 1 <= i < |t| ==> IsFrameTry(t[i]))
    && (t != [] ==> IsTry(t[0]) && (What(t[0]).SentText? || (What(t[0]).SentError? && |t| == 1)))
  }

  lemma {:induction false} TriesHaveShape(c: Config, v: seq<Event>)
    requires Legal(c, v)
    ensures Shape(Tries(v)) && (Untried(v) <==> Tries(v) == [])
    ensures TextTried(v) <==> Tries(v) != [] && What(Tries(v)[0]).SentText?
    decreases |v|
  {
    if v != [] {
      var past, e := v[..|v| - 1], v[|v| - 1];
      TriesHaveShape(c, past);
      assert v == past + [e];
      EmitTrace(c, past, e);
    }
  }

  /** Call by call, the messages on the lower transport are what was tried. */
  lemma {:induction false} CallsAreTries(calls: seq<Tcp.Call>, v: seq<Event>, client: bool)
    requires Wst.Faithful(calls, v, client)
    ensures var t := Tries(v);
            |t| == |calls| && forall i :: 0 <= i < |t| ==>
              Wst.Carries(calls[i].message, What(t[i]), client) && calls[i].ok == !t[i].Thrown?
    decreases |v|
  {
    hide Wst.Carries;
    if v != [] {
      var e := v[|v| - 1];
      CallsAreTries(if IsTry(e) then calls[..|calls| - 1] else calls, v[..|v| - 1], client);
    }
  }

  // ------------------------------------------------------- frames of one piece

  /** A frame as a sender sends it. */
  predicate IsWhole(f: Frame) {
    f.fin && IsSentOpcode(f.opcode) && Encodable(f)
  }

  predicate AllWhole(fs: seq<Wire>) {
    forall i :: 0 <= i < |fs| ==> IsWhole(fs[i].frame)
  }

  /** What the receiver makes of it: a message, or nothing. */
  function Arrival(c: Config, f: Frame): seq<Event> {
    if IsData(f.opcode) then [Delivered(f.opcode == TEXT_FRAME, Take(c.maxMessageSize, f.payload))] else []
  }

  function Arrivals(c: Config, fs: seq<Wire>): seq<Event> {
    if fs == [] then [] else Arrival(c, fs[0].frame) + Arrivals(c, fs[1..])
  }

  lemma {:induction false} WholeArrives(c: Config, k: Core, f: Frame)
    requires IsWhole(f) && k.lower == [] && k.partial == []
    ensures var o := RecvFrame(c, k, Truncate(f, c.maxMessageSize));
            && o.Ok? && o.w.lower == [] && o.w.partial == []
            && Deliveries(o.w.events) == Deliveries(k.events) + Arrival(c, f)
  {
    hide Close, Change, Deliver, Deliveries;
    if IsData(f.opcode) {
      FirstFrame(c, k, f);
      assert Deliveries(k.events) + Unfinished(k) == Deliveries(k.events);
    } else if f.opcode == CLOSE {
      CloseUndisturbed(k);
      ChangeUndisturbed(Close(k), Disconnected);
    } else {
      FrameUndisturbed(k, PONG, Truncate(f, c.maxMessageSize).payload);
    }
  }

  /** Also through a CLOSE, and whatever callbacks call. */
  lemma {:induction false} WholesArrive(c: Config, k: Core, fs: seq<Wire>)
    requires AllWhole(fs) && k.lower == [] && k.partial == []
    ensures var o := HandleAll(c, k, fs); o.Ok? && Deliveries(o.w.events) == Deliveries(k.events) + Arrivals(c, fs)
    decreases |fs|
  {
    hide RecvFrame, Truncate, IsWhole, Arrival, Deliveries;
    if fs != [] {
      WholeArrives(c, k, fs[0].frame);
      WholesArrive(c, RecvFrame(c, k, Truncate(fs[0].frame, c.maxMessageSize)).w, fs[1..]);
    }
  }

  // ---------------------------------------------------------- at the receiver

  /** A receiver that waits for `head` and then goes on as `k1`. */
  ghost predicate Hears(c: Config, w: Ws, head: seq<byte>, k1: Core) {
    && Awaits(w) && Expects(c, w.core, head, k1) && head != [] && k1.state == Connected && k1.partial == []
    && Deliveries(k1.events) == Deliveries(w.core.events)
  }

  /** And its sends succeed. */
  ghost predicate Receives(c: Config, w: Ws, head: seq<byte>, k1: Core) {
    Hears(c, w, head, k1) && k1.lower == []
  }

  lemma {:induction false} HeadAndFrames(c: Config, w: Ws, head: seq<byte>, k1: Core, fs: seq<Wire>)
    requires Receives(c, w, head, k1) && AllWhole(fs)
    ensures var w1 := Feed(c, w, head + EncodeAll(fs));
            && Deliveries(w1.core.events) == Deliveries(k1.events) + Arrivals(c, fs)
            && (NoClose(fs) ==> Live(w1.core))
  {
    hide Expects, Feed, EncodeAll, HandleAll, Deliveries, Drain;
    WholesArrive(c, k1, fs);
    assert AllEncodable(fs);
    if fs == [] {
      NoFrames(c, w, head, k1);
    } else {
      SomethingEncoded(fs);
      HandOver(c, w, head, k1, EncodeAll(fs));
      FeedFrames(c, Ws(k1, [], 0), fs);
      if NoClose(fs) {
        HandleStaysConnected(c, k1, fs);
      }
    }
  }

  lemma {:induction false} NoFrames(c: Config, w: Ws, head: seq<byte>, k1: Core)
    requires Receives(c, w, head, k1)
    ensures Feed(c, w, head + EncodeAll([])) == Ws(k1, [], 0)
  {
    hide Drain, Shake;
    assert Shake(c, w.core, head + []) == (Ok(k1), |head|);
    FeedOpening(c, w, head, k1, []);
    NothingToDrain(c, k1);
  }

  /** At any moment: of a stream whose beginning has come, cut anywhere, the first messages have been delivered. */
  lemma {:induction false} PrefixDelivered(c: Config, w: Ws, head: seq<byte>, k1: Core, fs: seq<Wire>, chunks: seq<seq<byte>>)
    requires Receives(c, w, head, k1) && AllWhole(fs)
    requires NonEmpty(chunks) && Concat(chunks) <= head + EncodeAll(fs)
    ensures Deliveries(FeedAll(c, w, chunks).core.events) <= Deliveries(k1.events) + Arrivals(c, fs)
  {
    hide Expects, Feed, FeedAll, EncodeAll, Deliveries, FramesSent;
    var s := head + EncodeAll(fs);
    var n := CutIsPiece(c, w, chunks);
    var a := Concat(chunks)[..n];
    assert a + s[n..] == s;
    FeedMonotone(c, w, a, s[n..]);
    DeliveriesGrow(Feed(c, w, a).core.events, Feed(c, w, s).core.events);
    HeadAndFrames(c, w, head, k1, fs);
  }

  /** Once a stream has come in whole, all messages before the first CLOSE have been delivered. */
  lemma {:induction false} AllDelivered(c: Config, w: Ws, head: seq<byte>, k1: Core, pre: seq<Wire>, post: seq<Wire>,
                                        chunks: seq<seq<byte>>)
    requires Receives(c, w, head, k1) && AllWhole(pre) && NoClose(pre)
    requires NonEmpty(chunks) && Concat(chunks) == head + EncodeAll(pre) + EncodeAll(post)
    ensures Deliveries(k1.events) + Arrivals(c, pre) <= Deliveries(FeedAll(c, w, chunks).core.events)
  {
    hide Expects, Feed, FeedAll, EncodeAll, Deliveries, FramesSent;
    var a, s := head + EncodeAll(pre), Concat(chunks);
    var n := CutIsPiece(c, w, chunks);
    HeadAndFrames(c, w, head, k1, pre);
    if n < |a| {
      assert s[..n] + a[n..] == a;
      AlivePrefix(c, w, s[..n], a[n..]);
    } else {
      assert a + s[|a|..n] == s[..n];
      FeedMonotone(c, w, a, s[|a|..n]);
      DeliveriesGrow(Feed(c, w, a).core.events, Feed(c, w, s[..n]).core.events);
    }
  }

  // ------------------------------------------------------ what `send` was given

  /** The messages given to `send`, as the receiver should see them. */
  function Arriving(c: Config, asked: seq<Ask>): seq<Event> {
    if asked == [] then []
    else [Delivered(asked[0].text, Take(c.maxMessageSize, asked[0].data))] + Arriving(c, asked[1..])
  }

  lemma {:induction false} ArrivingAppend(c: Config, a: seq<Ask>, b: seq<Ask>)
    ensures Arriving(c, a + b) == Arriving(c, a) + Arriving(c, b)
  {
    if a == [] {
      assert a + b == b;
    } else {
      assert (a + b)[1..] == a[1..] + b;
      ArrivingAppend(c, a[1..], b);
    }
  }

  lemma {:induction false} ExpectedOne(c: Config, e: Event)
    requires IsTry(e)
    ensures Expected(c, [e]) == Arriving(c, AskOf(e))
  {
    assert [e][1..] == [];
    if AskOf(e) != [] {
      assert AskOf(e)[1..] == [];
    }
  }

  /** What the receiver should see of a history is what `send` was given, type and all. */
  lemma {:induction false} ExpectedIsAsked(c: Config, v: seq<Event>)
    ensures Expected(c, Tries(v)) == Arriving(c, DataTried(v))
    decreases |v|
  {
    hide Expected, Arriving, AskOf;
    if v == [] {
      NothingExpected(c);
    } else {
      var past, e := v[..|v| - 1], v[|v| - 1];
      ExpectedIsAsked(c, past);
      ArrivingAppend(c, DataTried(past), AskOf(e));
      if IsTry(e) {
        ExpectedAppend(c, Tries(past), [e]);
        ExpectedOne(c, e);
      } else {
        NothingCarried(c, e);
        assert Tries(past) + [] == Tries(past) && Arriving(c, DataTried(past)) + [] == Arriving(c, DataTried(past));
      }
    }
  }

  lemma {:induction false} NothingExpected(c: Config)
    ensures Expected(c, []) == [] && Arriving(c, []) == []
  {
  }

  lemma {:induction false} NothingCarried(c: Config, e: Event)
    requires !IsTry(e)
    ensures Arriving(c, AskOf(e)) == []
  {
  }

  /** One call of `send` on a connected transport: one message more to arrive, of its type, sent or thrown. */
  lemma {:induction false} SendIsExpected(c: Config, w: Ws, r: Config, text: bool, data: seq<byte>)
    requires w.core.state == Connected
    ensures var k := Step(c, w, CallUser(CallSend(text, data))).core;
            && k.asked == w.core.asked + [Ask(text, data)]
            && Expected(r, Tries(k.events)) == Expected(r, Tries(w.core.events)) + [Delivered(text, Take(r.maxMessageSize, data))]
  {
    hide Expected, Outgoing, Tries, Arriving;
    var k := Step(c, w, CallUser(CallSend(text, data))).core;
    var what := SentFrame(if text then TEXT_FRAME else BINARY_FRAME, data);
    OutgoingCases(w.core.(asked := w.core.asked + [Ask(text, data)]), what);
    var e := k.events[|k.events| - 1];
    assert k.events == w.core.events + [e] && IsTry(e) && What(e) == what;
    TriesAfter(w.core.events, e);
    ExpectedAppend(r, Tries(w.core.events), [e]);
    ExpectedOne(r, e);
    ArrivingOne(r, Ask(text, data));
  }

  lemma {:induction false} ArrivingOne(c: Config, a: Ask)
    ensures Arriving(c, [a]) == [Delivered(a.text, Take(c.maxMessageSize, a.data))]
  {
    assert [a][1..] == [];
  }

  lemma {:induction false} UpToThrownIsPrefix(t: seq<Event>)
    ensures UpToThrown(t) <= t
  {
    if t != [] && !t[0].Thrown? {
      UpToThrownIsPrefix(t[1..]);
    }
  }

  /** The history of a lawful transport holds just what its `send` was given. */
  lemma {:induction false} HistoryIsAsked(s: Wst.WsTransport, c: Config)
    requires s.Valid() && s.Lawful()
    ensures Legal(s.config, s.events) && Expected(c, Tries(s.events)) == Arriving(c, s.asked)
    ensures Expected(c, UpToThrown(Tries(s.events))) <= Arriving(c, s.asked)
  {
    ExpectedIsAsked(c, s.events);
    UpToThrownIsPrefix(Tries(s.events));
    ExpectedGrows(c, UpToThrown(Tries(s.events)), Tries(s.events));
    assert Recorded(s.Core());
  }

  // ------------------------------------------------------------ the whole way

  /** The frames that the calls after the handshake carry. */
  lemma {:induction false} CallsAreFrames(calls: seq<Tcp.Call>, t: seq<Event>, client: bool) returns (fs: seq<Wire>)
    requires |t| == |calls| && forall i :: 0 <= i < |t| ==> IsFrameTry(t[i]) && Wst.Carries(calls[i].message, What(t[i]), client)
    ensures Stand(fs, t) && AllWhole(fs) && EncodeAll(fs) == Concat(Tcp.Messages(calls))
    decreases |t|
  {
    hide Encode;
    if t == [] {
      fs := [];
    } else {
      var what := What(t[0]);
      var f := Frame(true, what.opcode, what.payload);
      assert Wst.IsFrame(calls[0].message, f, client);
      var key :| Wst.IsEncoding(calls[0].message, f, key) && key.Some? == client;
      var rest := CallsAreFrames(calls[1..], t[1..], client);
      fs := [WsMessages.Wire(f, key)] + rest;
      assert fs[1..] == rest;
      assert Tcp.Messages(calls)[0] == calls[0].message && Tcp.Messages(calls)[1..] == Tcp.Messages(calls[1..]);
    }
  }

  /** Frame by frame, this is what was tried. */
  predicate Stand(fs: seq<Wire>, t: seq<Event>) {
    |fs| == |t| && forall i :: 0 <= i < |t| ==>
      What(t[i]).SentFrame? && fs[i].frame == Frame(true, What(t[i]).opcode, What(t[i]).payload)
  }

  /** The application messages among what was tried, as the receiver should see them. */
  function Expected(c: Config, t: seq<Event>): seq<Event> {
    if t == [] then []
    else
      var what := What(t[0]);
      (if what.SentFrame? && IsData(what.opcode) then [Delivered(what.opcode == TEXT_FRAME, Take(c.maxMessageSize, what.payload))]
       else []) + Expected(c, t[1..])
  }

  lemma {:induction false} StandForExpected(c: Config, fs: seq<Wire>, t: seq<Event>)
    requires Stand(fs, t)
    ensures Arrivals(c, fs) == Expected(c, t)
  {
    if t != [] {
      StandForExpected(c, fs[1..], t[1..]);
    }
  }

  lemma {:induction false} ExpectedAppend(c: Config, a: seq<Event>, b: seq<Event>)
    ensures Expected(c, a + b) == Expected(c, a) + Expected(c, b)
  {
    if a == [] {
      assert a + b == b;
    } else {
      assert (a + b)[1..] == a[1..] + b;
      ExpectedAppend(c, a[1..], b);
    }
  }

  /** What was tried up to the first that threw, with it. */
  function UpToThrown(t: seq<Event>): seq<Event> {
    if t == [] || t[0].Thrown? then t[..Min(1, |t|)] else [t[0]] + UpToThrown(t[1..])
  }

  /** What was tried before the first CLOSE. */
  function BeforeClose(t: seq<Event>): (r: seq<Event>)
    ensures r <= t
  {
    if t == [] || IsClose(What(t[0])) then [] else [t[0]] + BeforeClose(t[1..])
  }

  lemma {:induction false} TakenAreUpToThrown(t: seq<Event>, n: nat)
    requires n <= |t| && forall i :: 0 <= i < n - 1 ==> !t[i].Thrown?
    ensures t[..n] <= UpToThrown(t)
  {
    if n > 1 {
      assert t[..n] == [t[0]] + t[1..][..n - 1];
      TakenAreUpToThrown(t[1..], n - 1);
    } else if n == 1 {
      assert t[..1] == [t[0]];
    }
  }

  lemma {:induction false} NoneThrown(t: seq<Event>)
    requires forall i :: 0 <= i < |t| ==> !t[i].Thrown?
    ensures UpToThrown(t) == t
  {
    if t != [] {
      NoneThrown(t[1..]);
    }
  }

  /** What has come out of a TCP transport: everything written, or what was when the socket broke. */
  function Stream(wire: seq<byte>, broken: bool, wireAtBreak: seq<byte>): seq<byte> {
    if broken then wireAtBreak else wire
  }

  /** How many calls it is made of. */
  function Carried(calls: seq<Tcp.Call>, broken: bool, breakAt: nat): seq<Tcp.Call> {
    if broken then Tcp.Through(calls, breakAt) else calls
  }

  lemma {:induction false} StreamIsPrefix(wire: seq<byte>, q: seq<seq<byte>>, calls: seq<Tcp.Call>, broken: bool,
                                          wireAtBreak: seq<byte>, breakAt: nat)
    requires Tcp.Kept(wire, q, calls, broken, wireAtBreak, breakAt)
    ensures Stream(wire, broken, wireAtBreak) <= Concat(Tcp.Messages(Carried(calls, broken, breakAt)))
    ensures !broken && q == [] ==> wire == Concat(Tcp.Messages(calls))
  {
    if !broken {
      assert wire <= wire + Concat(q);
      assert q == [] ==> wire + Concat(q) == wire;
    }
  }

  lemma {:induction false} ExpectedGrows(c: Config, a: seq<Event>, b: seq<Event>)
    requires a <= b
    ensures Expected(c, a) <= Expected(c, b)
  {
    assert b == a + b[|a|..];
    ExpectedAppend(c, a, b[|a|..]);
  }

  /** Calls that begin with the handshake: its bytes, and the frames after it. */
  lemma {:induction false} HeadThenFrames(c: Config, calls: seq<Tcp.Call>, t: seq<Event>, client: bool, body: string)
    returns (fs: seq<Wire>)
    requires Shape(t) && t != [] && What(t[0]) == SentText(body)
    requires |t| == |calls| && forall i :: 0 <= i < |t| ==> Wst.Carries(calls[i].message, What(t[i]), client)
    ensures Stand(fs, t[1..]) && AllWhole(fs) && Concat(Tcp.Messages(calls)) == BytesOf(body) + EncodeAll(fs)
    ensures Expected(c, t) == Arrivals(c, fs)
  {
    hide Wst.IsFrame, EncodeAll, Arrivals;
    fs := CallsAreFrames(calls[1..], t[1..], client);
    StandForExpected(c, fs, t[1..]);
    assert Wst.Carries(calls[0].message, What(t[0]), client);
    assert Tcp.Messages(calls)[0] == calls[0].message && Tcp.Messages(calls)[1..] == Tcp.Messages(calls[1..]);
  }

  /** A sender's history that begins with this handshake, and the calls on its TCP transport. */
  ghost predicate Sends(cs: Config, v: seq<Event>, calls: seq<Tcp.Call>, body: string) {
    && Legal(cs, v) && Wst.Faithful(calls, v, cs.client)
    && (Tries(v) != [] ==> What(Tries(v)[0]) == SentText(body))
  }

  /** And a receiver that waits for its handshake. */
  ghost predicate Linked(cs: Config, v: seq<Event>, calls: seq<Tcp.Call>, c: Config, w: Ws, body: string, k1: Core) {
    Sends(cs, v, calls, body) && Receives(c, w, BytesOf(body), k1)
  }

  /** The stream that leaves a sender: a beginning of its handshake and of the frames of what it sent. */
  lemma {:induction false} StreamOfSent(cs: Config, v: seq<Event>, wire: seq<byte>, q: seq<seq<byte>>, calls: seq<Tcp.Call>,
                                        broken: bool, wireAtBreak: seq<byte>, breakAt: nat, c: Config, body: string)
    returns (fs: seq<Wire>)
    requires Sends(cs, v, calls, body) && Tcp.Kept(wire, q, calls, broken, wireAtBreak, breakAt)
    requires Stream(wire, broken, wireAtBreak) != []
    ensures AllWhole(fs) && Stream(wire, broken, wireAtBreak) <= BytesOf(body) + EncodeAll(fs)
    ensures Arrivals(c, fs) <= Expected(c, UpToThrown(Tries(v)))
    ensures !broken && q == [] ==> wire == BytesOf(body) + EncodeAll(fs) && Arrivals(c, fs) == Expected(c, Tries(v))
  {
    hide EncodeAll, Wst.Carries, Wst.Faithful, Legal, Expected;
    var cc, t := Carried(calls, broken, breakAt), Tries(v);
    var n := |cc|;
    TriesHaveShape(cs, v);
    CallsAreTries(calls, v, cs.client);
    StreamIsPrefix(wire, q, calls, broken, wireAtBreak, breakAt);
    assert n != 0;
    assert cc == calls[..n] && forall i :: 0 <= i < n - 1 ==> calls[i].ok by {
      TakenBefore(calls, broken, wire, q, wireAtBreak, breakAt);
    }
    fs := HeadThenFrames(c, cc, t[..n], cs.client, body);
    TakenAreUpToThrown(t, n);
    ExpectedGrows(c, t[..n], UpToThrown(t));
    assert !broken ==> t[..n] == t;
  }

  /** What was delivered is the beginning of what was sent, the one message that broke the socket included. */
  lemma {:induction false} FirstDelivered(cs: Config, v: seq<Event>, wire: seq<byte>, q: seq<seq<byte>>, calls: seq<Tcp.Call>,
                                          broken: bool, wireAtBreak: seq<byte>, breakAt: nat,
                                          c: Config, w: Ws, body: string, k1: Core, chunks: seq<seq<byte>>)
    requires Linked(cs, v, calls, c, w, body, k1) && Tcp.Kept(wire, q, calls, broken, wireAtBreak, breakAt)
    requires NonEmpty(chunks) && Concat(chunks) == Stream(wire, broken, wireAtBreak)
    ensures Deliveries(FeedAll(c, w, chunks).core.events) <= Deliveries(w.core.events) + Expected(c, UpToThrown(Tries(v)))
  {
    hide Receives, FeedAll, EncodeAll, Deliveries, Expected, Sends, Tcp.Kept;
    ConcatNonEmpty(chunks);
    var fs := StreamOfSent(cs, v, wire, q, calls, broken, wireAtBreak, breakAt, c, body);
    PrefixDelivered(c, w, BytesOf(body), k1, fs, chunks);
    ReceiverHasNothing(c, w, body, k1);
  }

  lemma {:induction false} ReceiverHasNothing(c: Config, w: Ws, body: string, k1: Core)
    requires Receives(c, w, BytesOf(body), k1)
    ensures Deliveries(k1.events) == Deliveries(w.core.events)
  {
  }

  /** All calls but perhaps the last that the stream is made of were taken. */
  lemma {:induction false} TakenBefore(calls: seq<Tcp.Call>, broken: bool, wire: seq<byte>, q: seq<seq<byte>>,
                                       wireAtBreak: seq<byte>, breakAt: nat)
    requires Tcp.Kept(wire, q, calls, broken, wireAtBreak, breakAt)
    ensures var cc := Carried(calls, broken, breakAt);
            |cc| <= |calls| && cc == calls[..|cc|] && (forall i :: 0 <= i < |cc| - 1 ==> calls[i].ok)
            && (!broken ==> forall i :: 0 <= i < |calls| ==> calls[i].ok)
  {
    if broken {
      assert forall i :: 0 <= i < breakAt ==> calls[..breakAt][i] == calls[i];
    }
  }

  lemma {:induction false} ShapeHasNoClose(fs: seq<Wire>, t: seq<Event>, m: nat)
    requires Shape(t) && t != [] && Stand(fs, t[1..]) && 1 <= m == |BeforeClose(t)|
    ensures NoClose(fs[..m - 1])
  {
    forall i | 0 <= i < m - 1 ensures fs[i].frame.opcode != CLOSE {
      BeforeCloseHasNone(t, i + 1);
      assert t[1..][i] == t[i + 1] && IsFrameTry(t[i + 1]);
    }
  }

  lemma {:induction false} BeforeCloseHasNone(t: seq<Event>, i: nat)
    requires i < |BeforeClose(t)|
    ensures !IsClose(What(t[i]))
  {
    if i > 0 {
      BeforeCloseHasNone(t[1..], i - 1);
    }
  }

  lemma {:induction false} EncodeSplit(fs: seq<Wire>, m: nat)
    requires m <= |fs|
    ensures EncodeAll(fs) == EncodeAll(fs[..m]) + EncodeAll(fs[m..])
  {
    assert fs == fs[..m] + fs[m..];
    EncodeAppend(fs[..m], fs[m..]);
  }

  lemma {:induction false} ArrivalsOfPrefix(c: Config, fs: seq<Wire>, t: seq<Event>, m: nat)
    requires t != [] && Stand(fs, t[1..]) && 1 <= m <= |t| && What(t[0]).SentText?
    ensures Arrivals(c, fs[..m - 1]) == Expected(c, t[..m])
  {
    assert t[..m][1..] == t[1..][..m - 1];
    StandForExpected(c, fs[..m - 1], t[1..][..m - 1]);
  }

  /** Once nothing is queued, everything sent before a CLOSE has been delivered. */
  lemma {:induction false} EverythingDelivered(cs: Config, v: seq<Event>, wire: seq<byte>, calls: seq<Tcp.Call>,
                                               c: Config, w: Ws, body: string, k1: Core, chunks: seq<seq<byte>>)
    requires Linked(cs, v, calls, c, w, body, k1) && Tcp.Kept(wire, [], calls, false, [], 0)
    requires NonEmpty(chunks) && Concat(chunks) == wire
    ensures Deliveries(w.core.events) + Expected(c, BeforeClose(Tries(v))) <= Deliveries(FeedAll(c, w, chunks).core.events)
  {
    hide Receives, FeedAll, EncodeAll, Deliveries, Wst.Carries, Wst.Faithful, Legal, Expected, Arrivals, IsWhole, Encode;
    var t := Tries(v);
    TriesHaveShape(cs, v);
    CallsAreTries(calls, v, cs.client);
    StreamIsPrefix(wire, [], calls, false, [], 0);
    ConcatNonEmpty(chunks);
    assert |t| != 0;
    var fs := HeadThenFrames(c, calls, t, cs.client, body);
    var m := |BeforeClose(t)|;
    ShapeHasNoClose(fs, t, m);
    EncodeSplit(fs, m - 1);
    var pre, post := fs[..m - 1], fs[m - 1..];
    assert BytesOf(body) + EncodeAll(fs) == BytesOf(body) + EncodeAll(pre) + EncodeAll(post);
    AllDelivered(c, w, BytesOf(body), k1, pre, post, chunks);
    ArrivalsOfPrefix(c, fs, t, m);
    assert t[..m] == BeforeClose(t);
    ReceiverHasNothing(c, w, body, k1);
  }

  lemma {:induction false} Squeeze(a: seq<Event>, d: seq<Event>, b: seq<Event>)
    requires a <= d <= b && a == b
    ensures d == a
  {
  }

  /**
   * The whole way. A transport has been driven by any calls, its callbacks have called back, its TCP
   * transport has written some of the bytes and queued the rest, or its socket broke; what was written
   * reached the other side, cut anywhere. Then the messages delivered there are the first of those sent,
   * with their types, in order and each up to the receiver's limit; once the TCP queue is empty, they are
   * at least all that were sent before a CLOSE; and without a CLOSE they are all of them.
   */
  lemma {:induction false} SentIsDelivered(s: Wst.WsTransport, c: Config, w: Ws, body: string, k1: Core, chunks: seq<seq<byte>>)
    requires s.Valid() && s.Lawful() && Tries(s.events) != [] && What(Tries(s.events)[0]) == SentText(body)
    requires Receives(c, w, BytesOf(body), k1)
    requires NonEmpty(chunks) && Concat(chunks) == Stream(s.mLower.wire, s.mLower.broken, s.mLower.wireAtBreak)
    ensures var t, d := Tries(s.events), Deliveries(FeedAll(c, w, chunks).core.events);
            && d <= Deliveries(w.core.events) + Expected(c, UpToThrown(t))
            && (!s.mLower.broken && s.mLower.mSendQueue.mQueue == [] ==>
                  && Deliveries(w.core.events) + Expected(c, BeforeClose(t)) <= d
                  && (BeforeClose(t) == t ==> d == Deliveries(w.core.events) + Expected(c, t)))
            && Expected(c, t) == Arriving(c, s.asked) && Expected(c, UpToThrown(t)) <= Arriving(c, s.asked)
  {
    hide WsLifecycle.Inv, Arriving, DataTried;
    HistoryIsAsked(s, c);
    hide Receives, FeedAll, EncodeAll, Deliveries, Wst.Carries, Wst.Faithful, Legal, Expected, Tcp.Kept, Expects;
    var l := s.mLower;
    assert Linked(s.config, s.events, l.calls, c, w, body, k1);
    FirstDelivered(s.config, s.events, l.wire, l.mSendQueue.mQueue, l.calls, l.broken, l.wireAtBreak, l.breakAt,
                   c, w, body, k1, chunks);
    if !l.broken && l.mSendQueue.mQueue == [] {
      KeptWhole(l.wire, l.calls, l.wireAtBreak, l.breakAt);
      EverythingDelivered(s.config, s.events, l.wire, l.calls, c, w, body, k1, chunks);
      var t := Tries(s.events);
      NoneThrownWhole(s.config, s.events, l.calls, l.wire);
      if BeforeClose(t) == t {
        Squeeze(Deliveries(w.core.events) + Expected(c, t), Deliveries(FeedAll(c, w, chunks).core.events),
                Deliveries(w.core.events) + Expected(c, t));
      }
    }
  }

  lemma {:induction false} KeptWhole(wire: seq<byte>, calls: seq<Tcp.Call>, wireAtBreak: seq<byte>, breakAt: nat)
    requires Tcp.Kept(wire, [], calls, false, wireAtBreak, breakAt)
    ensures Tcp.Kept(wire, [], calls, false, [], 0)
  {
  }

  lemma {:induction false} NoneThrownWhole(cs: Config, v: seq<Event>, calls: seq<Tcp.Call>, wire: seq<byte>)
    requires Wst.Faithful(calls, v, cs.client) && Tcp.Kept(wire, [], calls, false, [], 0)
    ensures UpToThrown(Tries(v)) == Tries(v)
  {
    CallsAreTries(calls, v, cs.client);
    TakenBefore(calls, false, wire, [], [], 0);
    NoneThrown(Tries(v));
  }

  // ------------------------------------------------- with the receiver at work

  lemma {:induction false} WholesAssemble(c: Config, k: Core, fs: seq<Wire>)
    requires AllWhole(fs) && k.partial == []
    ensures AssembleAll(c, AssemblyOf(k), fs).delivered == Deliveries(k.events) + Arrivals(c, fs)
  {
    hide HandleAll, AssembleAll, Deliveries;
    var k0 := k.(lower := []);
    WholesArrive(c, k0, fs);
    FramesAssemble(c, k0, fs);
  }

  /** The frames in a beginning of a stream of frames. */
  lemma {:induction false} FramesOfPrefix(c: Config, k: Core, fs: seq<Wire>, x: seq<byte>)
    requires AllWhole(fs) && k.partial == [] && x <= EncodeAll(fs)
    ensures var d := AssembleAll(c, AssemblyOf(k), FramesIn(c, x)).delivered;
            && d <= Deliveries(k.events) + Arrivals(c, fs)
            && (x == EncodeAll(fs) ==> d == Deliveries(k.events) + Arrivals(c, fs))
  {
    hide EncodeAll, AssembleAll, Deliveries, FramesIn, Read;
    var s := EncodeAll(fs);
    var y := s[|x|..];
    assert x + y == s && s + [] == s;
    FramesSplit(c, x, y);
    EncodedFrames(c, fs, []);
    NothingIn(c);
    assert FramesIn(c, s) == Cut(c, fs);
    CutAssembles(c, AssemblyOf(k), fs);
    WholesAssemble(c, k, fs);
    AssembleAppend(c, AssemblyOf(k), FramesIn(c, x), Read(c, Left(c, x), y));
    AssembleGrows(c, AssembleAll(c, AssemblyOf(k), FramesIn(c, x)), Read(c, Left(c, x), y));
  }

  /** A receiver that is given a beginning of a stream, and in between does what it likes. */
  lemma {:induction false} RunDelivers(c: Config, w: Ws, head: seq<byte>, k1: Core, fs: seq<Wire>, calls: seq<Call>)
    requires Hears(c, w, head, k1) && AllWhole(fs) && ReceivedBy(calls) <= head + EncodeAll(fs)
    ensures var k, all := Run(c, w, calls).core, Deliveries(w.core.events) + Arrivals(c, fs);
            && Deliveries(k.events) <= all
            && (k.state == Connected && ReceivedBy(calls) == head + EncodeAll(fs) ==> Deliveries(k.events) == all)
  {
    hide Expects, Run, Deliveries, AssembleAll, FramesIn, Left, EncodeAll;
    var s, v := ReceivedBy(calls), Run(c, w, calls);
    PrefixesCompare(s, head, EncodeAll(fs));
    OpeningRun(c, w, head, k1, calls);
    if |head| <= |s| {
      assert s[|head|..] == (head + EncodeAll(fs))[..|s|][|head|..];
      assert s[|head|..] <= EncodeAll(fs);
      FramesOfPrefix(c, k1, fs, s[|head|..]);
      assert s == head + EncodeAll(fs) ==> s[|head|..] == EncodeAll(fs);
    }
  }

  lemma {:induction false} PrefixesCompare(s: seq<byte>, head: seq<byte>, rest: seq<byte>)
    requires s <= head + rest
    ensures s <= head || head <= s
  {
    assert s == (head + rest)[..|s|];
    if |s| <= |head| {
      assert s == head[..|s|];
    } else {
      assert head == s[..|head|];
    }
  }

  /**
   * The whole way once more, with both sides at work: while the stream comes in, the receiver sends,
   * closes, pings and times out, its sends fail or succeed and its callbacks call back. At every moment
   * what it has delivered is a beginning of what was sent; and if it is still connected when all has come
   * that was sent, it has delivered all of it.
   */
  lemma {:induction false} SentIsDeliveredMeanwhile(s: Wst.WsTransport, c: Config, w: Ws, body: string, k1: Core, calls: seq<Call>)
    requires s.Valid() && s.Lawful() && Tries(s.events) != [] && What(Tries(s.events)[0]) == SentText(body)
    requires Hears(c, w, BytesOf(body), k1)
    requires ReceivedBy(calls) <= Stream(s.mLower.wire, s.mLower.broken, s.mLower.wireAtBreak)
    ensures var t, k := Tries(s.events), Run(c, w, calls).core;
            && Deliveries(k.events) <= Deliveries(w.core.events) + Expected(c, UpToThrown(t))
            && (!s.mLower.broken && s.mLower.mSendQueue.mQueue == [] && ReceivedBy(calls) == s.mLower.wire && k.state == Connected
                ==> Deliveries(k.events) == Deliveries(w.core.events) + Arriving(c, s.asked))
            && Deliveries(k.events) <= Deliveries(w.core.events) + Arriving(c, s.asked)
  {
    hide WsLifecycle.Inv, Arriving, DataTried;
    HistoryIsAsked(s, c);
    hide Hears, Run, EncodeAll, Deliveries, Wst.Carries, Wst.Faithful, Legal, Expected, Arrivals, Tcp.Kept, Expects;
    var l := s.mLower;
    assert Sends(s.config, s.events, l.calls, body);
    if Stream(l.wire, l.broken, l.wireAtBreak) == [] {
      NothingReceivedYet(c, w, BytesOf(body), k1, calls);
    } else {
      var fs := StreamOfSent(s.config, s.events, l.wire, l.mSendQueue.mQueue, l.calls, l.broken, l.wireAtBreak, l.breakAt, c, body);
      RunDelivers(c, w, BytesOf(body), k1, fs, calls);
      var d, u := Deliveries(w.core.events), Expected(c, UpToThrown(Tries(s.events)));
      PrefixAppend(d, Arrivals(c, fs), u);
      PrefixAppend(d, u, Arriving(c, s.asked));
    }
  }

  lemma {:induction false} PrefixAppend(d: seq<Event>, a: seq<Event>, b: seq<Event>)
    requires a <= b
    ensures d + a <= d + b
  {
  }

  lemma {:induction false} NothingReceivedYet(c: Config, w: Ws, head: seq<byte>, k1: Core, calls: seq<Call>)
    requires Hears(c, w, head, k1) && ReceivedBy(calls) == []
    ensures Deliveries(Run(c, w, calls).core.events) == Deliveries(w.core.events) && Run(c, w, calls).core.state != Connected
  {
    hide Expects, Run, Deliveries;
    OpeningRun(c, w, head, k1, calls);
  }

  // --------------------------------------------- such senders and receivers exist

  lemma {:induction false} TriesGrow(a: seq<Event>, b: seq<Event>)
    requires a <= b
    ensures Tries(a) <= Tries(b)
    decreases |b|
  {
    if |a| < |b| {
      TriesGrow(a, b[..|b| - 1]);
    } else {
      assert a == b;
    }
  }

  lemma {:induction false} StepGrows(c: Config, w: Ws, a: Call)
    ensures w.core.events <= Step(c, w, a).core.events
  {
    hide Receive, Change, Fail;
    match a
    case CallUser(call) => UserCallsGrow(w.core, [call]);
    case CallTimeout => ChangeGrows(w.core.(timer := false), Disconnected);
    case CallIncoming(m) =>
      if Live(w.core) {
        FailGrows(w.core);
        if m.Some? {
          if m.value != [] {
            ReceiveGrows(c, w, m.value);
          } else {
            IdleGrows(c, w);
          }
          FailGrows(Receive(c, w, m.value).w.core);
        }
      }
  }

  lemma {:induction false} IdleGrows(c: Config, w: Ws)
    ensures w.core.events <= Receive(c, w, []).w.core.events
  {
    hide Shake, Change, Outgoing;
    var buffer := w.buffer + [];
    if w.core.state == Connecting {
      ShakeGrows(c, w.core, buffer);
    }
    var k := if w.core.state == Connecting then Shake(c, w.core, buffer).0.w else w.core;
    OutgoingGrows(k, SentFrame(PING, PING_PAYLOAD));
    var k1 := Outgoing(k, SentFrame(PING, PING_PAYLOAD)).w;
    ChangeGrows(k1.(outstandingPings := k1.outstandingPings + 1), Failed);
  }

  lemma {:induction false} RunGrows(c: Config, w: Ws, calls: seq<Call>)
    ensures w.core.events <= Run(c, w, calls).core.events
    decreases |calls|
  {
    hide Step;
    if calls != [] {
      RunGrows(c, w, calls[..|calls| - 1]);
      StepGrows(c, Run(c, w, calls[..|calls| - 1]), calls[|calls| - 1]);
    }
  }

  lemma {:induction false} TriesOfTwo(a: Event, b: Event)
    requires !IsTry(a) && IsTry(b)
    ensures Tries([a, b]) == [b]
  {
    assert [a, b][..1] == [a] && [a][..0] == [];
    assert Tries([a]) == Tries([]) + [] == [];
    assert Tries([a, b]) == Tries([a]) + [b];
  }

  /** Whatever a client goes on to do, the first thing it sends is its request. */
  lemma {:induction false} ClientAsksFirst(c: Config, k: Core, nonce: seq<byte>, calls: seq<Call>)
    requires IsFresh(k) && c.client
    ensures var t := Tries(Run(c, Started(c, k, nonce), calls).core.events);
            t != [] && What(t[0]) == SentText(Handshake.RequestText(k.handshake.(key := Handshake.Base64.Encode(nonce))))
  {
    hide Run, Handshake.RequestText;
    var k0 := Emit(k.(state := Connecting), Changed(Connecting));
    CallbackWhenDown(k0);
    var v := Started(c, k, nonce).core.events;
    TriesOfTwo(Changed(Connecting), v[1]);
    RunGrows(c, Started(c, k, nonce), calls);
    TriesGrow(v, Run(c, Started(c, k, nonce), calls).core.events);
  }

  // --------------------------------------------------------- a server's answer

  /** What a server answers to a request, or to something that is none. */
  predicate IsAnswer(c: Config, before: Handshake.Fields, s: seq<byte>, what: Event) {
    match Handshake.ParseRequest(before, Text(s))
    case Wait => false
    case Refused(code, _) => what == SentError(code)
    case Accepted(_, f) => what == SentText(Handshake.ResponseText(Handshake.AcceptKey(c.sha1, f.key), f.protocols))
  }

  /** A server until it has answered: it waits, or has given up, or what it tried first is the answer to what had come. */
  ghost predicate Answering(c: Config, w: Ws, calls: seq<Call>, v: Ws) {
    || (v.core == w.core && v.buffer == ReceivedBy(calls) && v.ignoreLength == 0)
    || (v.core.state in {Disconnected, Failed} && Tries(v.core.events) == [])
    || exists i :: 0 <= i <= |calls| && HasAnswered(c, w, v, ReceivedBy(calls[..i]))
  }

  ghost predicate HasAnswered(c: Config, w: Ws, v: Ws, s: seq<byte>) {
    Tries(v.core.events) != [] && IsAnswer(c, w.core.handshake, s, What(Tries(v.core.events)[0]))
  }

  lemma {:induction false} TriesAfter(v: seq<Event>, e: Event)
    ensures Tries(v + [e]) == Tries(v) + (if IsTry(e) then [e] else [])
  {
    assert (v + [e])[..|v|] == v;
  }

  /** The first thing tried stays the first. */
  lemma {:induction false} AnswerStays(c: Config, w: Ws, v: Ws, u: Ws, s: seq<byte>)
    requires HasAnswered(c, w, v, s) && v.core.events <= u.core.events
    ensures HasAnswered(c, w, u, s)
  {
    hide IsAnswer;
    TriesGrow(v.core.events, u.core.events);
  }

  /** A server whose bytes are a request, or no beginning of one, tries its answer at once. */
  lemma {:induction false} AnswersNow(c: Config, w: Ws, s: seq<byte>, b: seq<byte>, v: Ws)
    requires Awaits(w) && !c.client && Tries(w.core.events) == []
    requires v.core == w.core && v.buffer == s && v.ignoreLength == 0
    requires !Handshake.ParseRequest(w.core.handshake, Text(s + b)).Wait?
    ensures HasAnswered(c, w, Feed(c, v, b), s + b)
  {
    hide Feed, Handshake.ParseRequest, Handshake.ResponseText, Handshake.AcceptKey, Outgoing, Tries, Text;
    var r := Handshake.ParseRequest(w.core.handshake, Text(s + b));
    var k := w.core.(handshake := r.fields);
    var e := if r.Refused? then SentError(r.code)
             else SentText(Handshake.ResponseText(Accept(c, k), k.handshake.protocols));
    var o := Outgoing(k, e);
    OutgoingCases(k, e);
    var last := o.w.events[|o.w.events| - 1];
    TriesAfter(w.core.events, last);
    assert o.w.events == w.core.events + [last] && What(last) == e;
    AnswerGrows(c, v, b, o);
    assert HasAnswered(c, w, v.(core := o.w), s + b);
    AnswerStays(c, w, v.(core := o.w), Feed(c, v, b), s + b);
  }

  /** Whatever comes of the answer, the rest of the call adds to the history. */
  lemma {:induction false} AnswerGrows(c: Config, v: Ws, b: seq<byte>, o: Outcome<Core>)
    requires v.core.state == Connecting && !c.client
    requires var r := Handshake.ParseRequest(v.core.handshake, Text(v.buffer + b));
             && !r.Wait?
             && o == Outgoing(v.core.(handshake := r.fields),
                              if r.Refused? then SentError(r.code)
                              else SentText(Handshake.ResponseText(Handshake.AcceptKey(c.sha1, r.fields.key), r.fields.protocols)))
    ensures o.w.events <= Feed(c, v, b).core.events
  {
    hide Absorb, Drain, Handshake.ParseRequest, Handshake.ResponseText, Outgoing, Change, Fail;
    var x := v.buffer + b;
    var (p, n) := Shake(c, v.core, x);
    ChangeGrows(o.w, Connected);
    var w1 := Ws(p.w, x[n..], v.ignoreLength);
    assert o.w.events <= p.w.events;
    FailGrows(p.w);
    if p.Ok? && p.w.state == Connected {
      if b == [] {
        PingGrows(c, p.w);
        FailGrows(Idle(c, p.w).w);
      } else {
        AbsorbGrows(c, w1);
        FailGrows(Absorb(c, w1).w.core);
      }
    }
  }

  lemma {:induction false} PingGrows(c: Config, k: Core)
    ensures k.events <= Idle(c, k).w.events
  {
    hide Change, Outgoing;
    OutgoingGrows(k, SentFrame(PING, PING_PAYLOAD));
    var k1 := Outgoing(k, SentFrame(PING, PING_PAYLOAD)).w;
    ChangeGrows(k1.(outstandingPings := k1.outstandingPings + 1), Failed);
  }

  lemma {:induction false} QuietDown(c: Config, w: Ws, a: Call)
    requires w.core.state in {Disconnected, Failed} && Tries(w.core.events) == []
    ensures var v := Step(c, w, a); v.core.state in {Disconnected, Failed} && Tries(v.core.events) == []
  {
    hide CloseTimeout, Perform, Tries;
    match a
    case CallUser(call) => WaitingUser(w.core, call);
    case CallIncoming(m) =>
    case CallTimeout => WaitingTimeout(w.core);
  }

  lemma {:induction false} AnswerStep(c: Config, w: Ws, s: seq<byte>, a: Call, v: Ws)
    requires Awaits(w) && !c.client && Tries(w.core.events) == []
    requires v.core == w.core && v.buffer == s && v.ignoreLength == 0
    ensures var u := Step(c, v, a);
            || (u.core == w.core && u.buffer == s + Chunk(a) && u.ignoreLength == 0)
            || (u.core.state in {Disconnected, Failed} && Tries(u.core.events) == [])
            || HasAnswered(c, w, u, s + Chunk(a))
  {
    hide HasAnswered, Incoming, CloseTimeout, Perform, Handshake.ParseRequest, Tries;
    match a
    case CallUser(call) =>
      WaitingUser(w.core, call);
      assert s + [] == s;
    case CallTimeout =>
      WaitingTimeout(w.core);
      assert s + [] == s;
    case CallIncoming(None) => WaitingLost(c, v);
    case CallIncoming(Some(b)) =>
      if Handshake.ParseRequest(w.core.handshake, Text(s + b)).Wait? {
        WaitingMore(c, v, b);
      } else {
        AnswersNow(c, w, s, b, v);
      }
  }

  lemma {:induction false} WaitingUser(k: Core, call: UserCall)
    requires k.state != Connected
    ensures Perform(k, call) == k
  {
    UserCallsWhenDown(k, [call]);
  }

  lemma {:induction false} WaitingTimeout(k: Core)
    requires k.state != Connected && Tries(k.events) == []
    ensures var r := CloseTimeout(k); r == k || (r.state == Disconnected && Tries(r.events) == [])
  {
    var k1 := Emit(k.(timer := false, state := Disconnected), Changed(Disconnected));
    TriesAfter(k.events, Changed(Disconnected));
    CallbackWhenDown(k1);
  }

  lemma {:induction false} WaitingLost(c: Config, v: Ws)
    requires v.core.state == Connecting && Tries(v.core.events) == []
    ensures var r := Incoming(c, v, None).core; r.state == Failed && Tries(r.events) == []
  {
    var k := Emit(v.core.(state := Failed), Changed(Failed));
    TriesAfter(v.core.events, Changed(Failed));
    CallbackWhenDown(k);
  }

  lemma {:induction false} WaitingMore(c: Config, v: Ws, b: seq<byte>)
    requires v.core.state == Connecting && !c.client && v.ignoreLength == 0
    requires Handshake.ParseRequest(v.core.handshake, Text(v.buffer + b)).Wait?
    ensures Incoming(c, v, Some(b)) == Ws(v.core, v.buffer + b, 0)
  {
    hide Shake, Handshake.ParseRequest;
    StillWaits(c, v.core, v.buffer + b);
    assert (v.buffer + b)[0..] == v.buffer + b;
  }

  lemma {:induction false} StillWaits(c: Config, k: Core, s: seq<byte>)
    requires !c.client && Handshake.ParseRequest(k.handshake, Text(s)).Wait?
    ensures Shake(c, k, s) == (Ok(k), 0)
  {
  }

  /**
   * Whatever a server goes on to do, the first thing it sends is its answer to the bytes that had come by
   * then: the response to the key it was asked with, or the error that says what is wrong.
   */
  lemma {:induction false} ServerAnswersFirst(c: Config, w: Ws, calls: seq<Call>)
    requires Awaits(w) && !c.client && Tries(w.core.events) == []
    ensures Answering(c, w, calls, Run(c, w, calls))
    decreases |calls|
  {
    hide Step, HasAnswered;
    if calls != [] {
      var init, a := calls[..|calls| - 1], calls[|calls| - 1];
      var v := Run(c, w, init);
      ServerAnswersFirst(c, w, init);
      if v.core == w.core && v.buffer == ReceivedBy(init) && v.ignoreLength == 0 {
        AnswerStep(c, w, ReceivedBy(init), a, v);
        assert calls[..|calls|] == calls;
      } else if v.core.state in {Disconnected, Failed} && Tries(v.core.events) == [] {
        QuietDown(c, v, a);
      } else {
        var i :| 0 <= i <= |init| && HasAnswered(c, w, v, ReceivedBy(init[..i]));
        StepGrows(c, v, a);
        AnswerStays(c, w, v, Step(c, v, a), ReceivedBy(init[..i]));
        assert calls[..i] == init[..i];
      }
    }
  }

  predicate Narrow(t: string) {
    forall i :: 0 <= i < |t| ==> t[i] as int < 256
  }

  lemma {:induction false} TextOfBytes(t: string)
    requires Narrow(t)
    ensures Text(BytesOf(t)) == t
  {
  }

  /** A server that has just been started receives what a client with these fields sends. */
  lemma {:induction false} ServerReceives(c: Config, w: Ws, f: Handshake.Fields)
    requires Awaits(w) && !c.client && w.core.lower == [] && w.core.partial == []
    requires Handshake.Sendable(f) && Narrow(Handshake.RequestText(f))
    ensures Receives(c, w, BytesOf(Handshake.RequestText(f)), Welcome(c, Requested(w.core, f)).w)
  {
    hide Expects, Welcome, Deliveries;
    TextOfBytes(Handshake.RequestText(f));
    ServerExpects(c, w.core, BytesOf(Handshake.RequestText(f)), f);
    ServerOpens(c, w.core, f);
  }

  /** A client that has sent its request receives what a server that answers it sends. */
  lemma {:induction false} ClientReceives(c: Config, w: Ws, protocols: seq<string>)
    requires Awaits(w) && c.client && w.core.lower == [] && w.core.partial == []
    requires Handshake.HeaderValue(Handshake.Http.Implode(protocols, ','))
    requires Narrow(Handshake.ResponseText(Accept(c, w.core), protocols))
    ensures Receives(c, w, BytesOf(Handshake.ResponseText(Accept(c, w.core), protocols)), Change(w.core, Connected))
  {
    hide Expects, Change, Deliveries;
    var text := Handshake.ResponseText(Accept(c, w.core), protocols);
    TextOfBytes(text);
    ClientExpects(c, w.core, BytesOf(text), protocols);
    ClientOpens(w.core);
  }
}
