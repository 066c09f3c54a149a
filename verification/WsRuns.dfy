/** What is delivered while the receiver goes on sending, closing and pinging, over any run. */
module WsRuns {
  import opened Bytes
  import opened Frames
  import opened WsSpec
  import opened WsTheorems
  import opened WsMessages
  import opened WsReader
  import opened WsClose
  import opened WsLifecycle
  import WsCuts

  // ------------------------------------------- messages, apart from the rest

  /** The message being assembled and the messages delivered. */
  datatype Assembly = Assembly(partial: seq<byte>, opcode: byte, delivered: seq<Event>)

  function AssemblyOf(k: Core): Assembly {
    Assembly(k.partial, k.partialOpcode, Deliveries(k.events))
  }

  function Said(opcode: byte, data: seq<byte>): Event {
    Delivered(opcode == TEXT_FRAME, data)
  }

  function Assemble(c: Config, a: Assembly, f: Frame): Assembly {
    if IsData(f.opcode) then
      var data := Take(c.maxMessageSize, f.payload);
      var before := a.delivered + (if a.partial == [] then [] else [Said(a.opcode, a.partial)]);
      if f.fin then Assembly([], f.opcode, before + [Said(f.opcode, data)]) else Assembly(data, f.opcode, before)
    else if f.opcode == CONTINUATION then
      var data := Take(c.maxMessageSize, a.partial + f.payload);
      if f.fin then Assembly([], a.opcode, a.delivered + [Said(a.opcode, data)]) else a.(partial := data)
    else a
  }

  function AssembleAll(c: Config, a: Assembly, fs: seq<Wire>): Assembly
    decreases |fs|
  {
    if fs == [] then a else AssembleAll(c, Assemble(c, a, Truncate(fs[0].frame, c.maxMessageSize)), fs[1..])
  }

  lemma {:induction false} AssembleAppend(c: Config, a: Assembly, fs: seq<Wire>, gs: seq<Wire>)
    ensures AssembleAll(c, a, fs + gs) == AssembleAll(c, AssembleAll(c, a, fs), gs)
    decreases |fs|
  {
    hide Assemble, Truncate;
    if fs == [] {
      assert fs + gs == gs;
    } else {
      assert (fs + gs)[1..] == fs[1..] + gs;
      AssembleAppend(c, Assemble(c, a, Truncate(fs[0].frame, c.maxMessageSize)), fs[1..], gs);
    }
  }

  lemma {:induction false} AssembleGrows(c: Config, a: Assembly, fs: seq<Wire>)
    ensures a.delivered <= AssembleAll(c, a, fs).delivered
    decreases |fs|
  {
    hide Truncate;
    if fs != [] {
      AssembleGrows(c, Assemble(c, a, Truncate(fs[0].frame, c.maxMessageSize)), fs[1..]);
    }
  }

  /** A frame does to the messages what it does, whatever else goes on, and even when its answer throws. */
  lemma {:induction false} FrameAssembles(c: Config, k: Core, f: Frame)
    ensures AssemblyOf(RecvFrame(c, k, f).w) == Assemble(c, AssemblyOf(k), f)
  {
    hide Deliver, Change, Close, Deliveries;
    if IsData(f.opcode) {
      DeliverUndisturbed(k, k.partialOpcode, k.partial);
      DeliverUndisturbed(Flush(k).(partialOpcode := f.opcode), f.opcode, Take(c.maxMessageSize, f.payload));
    } else if f.opcode == CONTINUATION {
      var data := Take(c.maxMessageSize, k.partial + f.payload);
      DeliverUndisturbed(k.(partial := data), k.partialOpcode, data);
    } else {
      FrameUndisturbed(k, PONG, f.payload);
      CloseUndisturbed(k);
      ChangeUndisturbed(Close(k), Disconnected);
    }
  }

  /** All frames, or as many as were handled before one threw. */
  lemma {:induction false} FramesAssemble(c: Config, k: Core, fs: seq<Wire>)
    ensures var o, all := HandleAll(c, k, fs), AssembleAll(c, AssemblyOf(k), fs);
            && Deliveries(o.w.events) <= all.delivered && (o.Ok? ==> AssemblyOf(o.w) == all)
    decreases |fs|
  {
    hide RecvFrame, Truncate, Assemble;
    if fs != [] {
      var f := Truncate(fs[0].frame, c.maxMessageSize);
      FrameAssembles(c, k, f);
      var o := RecvFrame(c, k, f);
      if o.Ok? {
        FramesAssemble(c, o.w, fs[1..]);
      } else {
        AssembleGrows(c, AssemblyOf(o.w), fs[1..]);
      }
    }
  }

  // ------------------------------------------------------------------- runs

  function Chunk(a: Call): seq<byte> {
    if a.CallIncoming? && a.m.Some? then a.m.value else []
  }

  /** The bytes the transport was given, in however many chunks and whatever was called between them. */
  function ReceivedBy(calls: seq<Call>): seq<byte> {
    if calls == [] then [] else ReceivedBy(calls[..|calls| - 1]) + Chunk(calls[|calls| - 1])
  }

  /** A transport that has been connected. */
  predicate WasConnected(k: Core) {
    k.state in {Connected, Disconnected, Failed}
  }

  /** The end of a transport tells no message. */
  lemma {:induction false} FailAssembles(k: Core)
    ensures AssemblyOf(Fail(k)) == AssemblyOf(k) && !Live(Fail(k))
    ensures WasConnected(k) ==> WasConnected(Fail(k))
  {
    hide Change, Callback, Deliveries;
    FailDown(k);
    ChangeUndisturbed(k, Disconnected);
    ChangeUndisturbed(k, Failed);
    ChangeStates(k, Disconnected);
    ChangeStates(k, Failed);
    var k1 := Change(k, Disconnected);
    AfterEmit(k1, Lost);
    CallbackUndisturbed(Emit(k1, Lost));
    CallbackStates(Emit(k1, Lost));
  }

  lemma {:induction false} IdleAssembles(c: Config, k: Core)
    requires k.state == Connected
    ensures AssemblyOf(Idle(c, k).w) == AssemblyOf(k) && Idle(c, k).w.state in {Connected, Failed}
  {
    hide Change, Deliveries;
    IdleStates(c, k);
    FrameUndisturbed(k, PING, PING_PAYLOAD);
    var k1 := Outgoing(k, SentFrame(PING, PING_PAYLOAD)).w;
    ChangeUndisturbed(k1.(outstandingPings := k1.outstandingPings + 1), Failed);
  }

  /** What one call does to the messages, with the frames that it completes. */
  ghost predicate Assembles(c: Config, w: Ws, fs: seq<Wire>, r: Reader, v: Ws) {
    var all := AssembleAll(c, AssemblyOf(w.core), fs);
    && WasConnected(v.core) && AssemblyOf(w.core).delivered <= Deliveries(v.core.events) <= all.delivered
    && (v.core.state == Connected ==> AssemblyOf(v.core) == all && ReaderOf(v) == r && Midway(c, v))
  }

  lemma {:induction false} FeedAssembles(c: Config, w: Ws, s: seq<byte>)
    requires Midway(c, w) && s != []
    ensures Assembles(c, w, Read(c, ReaderOf(w), s), Then(c, ReaderOf(w), s), Feed(c, w, s))
  {
    hide Feed, HandleAll, AssembleAll, Read, Then, Fail, Deliveries;
    var r := ReaderOf(w);
    var fs := Read(c, r, s);
    var o := HandleAll(c, w.core, fs);
    FeedIsHandle(c, w, s);
    FramesAssemble(c, w.core, fs);
    HandleStates(c, w.core, fs);
    FailAssembles(o.w);
    ThenIsBetween(c, r, s);
    WsCuts.FeedGrows(c, w, s);
    DeliveriesGrow(w.core.events, Feed(c, w, s).core.events);
  }

  lemma {:induction false} DeliveriesGrow(a: seq<Event>, b: seq<Event>)
    requires a <= b
    ensures Deliveries(a) <= Deliveries(b)
    decreases |b|
  {
    if |a| < |b| {
      DeliveriesGrow(a, b[..|b| - 1]);
    } else {
      assert a == b;
    }
  }

  lemma {:induction false} EmptyAssembles(c: Config, w: Ws)
    requires Midway(c, w)
    ensures Assembles(c, w, [], ReaderOf(w), Feed(c, w, []))
  {
    hide Idle, Fail, Parse, Deliveries;
    assert (w.buffer + [])[0..] == w.buffer;
    IdleAssembles(c, w.core);
    FailAssembles(Idle(c, w.core).w);
  }

  lemma {:induction false} PerformAssembles(c: Config, w: Ws, call: UserCall)
    requires Midway(c, w)
    ensures Assembles(c, w, [], ReaderOf(w), Quiet(w.(core := Perform(w.core, call))))
  {
    hide Close, Deliveries;
    PerformUndisturbed(w.core, call);
    CloseStates(w.core);
  }

  lemma {:induction false} TimeoutAssembles(c: Config, w: Ws)
    requires Midway(c, w)
    ensures Assembles(c, w, [], ReaderOf(w), Quiet(w.(core := CloseTimeout(w.core))))
  {
    hide Change, Deliveries;
    var k := w.core.(timer := false);
    ChangeUndisturbed(k, Disconnected);
    ChangeStates(k, Disconnected);
  }

  lemma {:induction false} LostAssembles(c: Config, w: Ws)
    requires Midway(c, w)
    ensures Assembles(c, w, [], ReaderOf(w), Incoming(c, w, None))
  {
    hide Fail, Deliveries;
    FailAssembles(w.core);
  }

  lemma {:induction false} StepAssembles(c: Config, w: Ws, a: Call)
    requires Midway(c, w)
    ensures Assembles(c, w, Read(c, ReaderOf(w), Chunk(a)), Then(c, ReaderOf(w), Chunk(a)), Step(c, w, a))
  {
    ReadNothing(c, ReaderOf(w));
    hide Assembles, Perform, CloseTimeout, Incoming, Read, Then;
    match a
    case CallUser(call) => PerformAssembles(c, w, call);
    case CallTimeout => TimeoutAssembles(c, w);
    case CallIncoming(None) => LostAssembles(c, w);
    case CallIncoming(Some(s)) =>
      if s == [] {
        EmptyAssembles(c, w);
      } else {
        FeedAssembles(c, w, s);
      }
  }

  /** A transport that has gone down is down for good, and tells nothing more. */
  lemma {:induction false} DownStep(c: Config, w: Ws, a: Call)
    requires WasConnected(w.core) && w.core.state != Connected
    ensures var v := Step(c, w, a);
            WasConnected(v.core) && v.core.state != Connected && Deliveries(v.core.events) == Deliveries(w.core.events)
  {
    hide Change, Deliveries;
    match a
    case CallUser(call) => UserCallsWhenDown(w.core, [call]);
    case CallIncoming(m) =>
    case CallTimeout =>
      var k := w.core.(timer := false);
      ChangeUndisturbed(k, Disconnected);
      ChangeStates(k, Disconnected);
  }

  /**
   * Whatever is called and whenever, whichever sends fail, whatever callbacks call: the messages delivered
   * are a beginning of those in the bytes received, and as long as the transport is connected they are
   * all of them, the one being assembled included.
   */
  lemma {:induction false} RunAssembles(c: Config, w: Ws, calls: seq<Call>)
    requires Midway(c, w)
    ensures var s := ReceivedBy(calls);
            Assembles(c, w, Read(c, ReaderOf(w), s), Then(c, ReaderOf(w), s), Run(c, w, calls))
    decreases |calls|
  {
    hide Step, Read, Then, Between, Deliveries, AssembleAll;
    var r, s := ReaderOf(w), ReceivedBy(calls);
    if calls == [] {
      NothingAssembled(c, w);
    } else {
      var init, a := calls[..|calls| - 1], calls[|calls| - 1];
      var u, t := Run(c, w, init), ReceivedBy(init);
      RunAssembles(c, w, init);
      ReadSplit(c, r, t, Chunk(a));
      var fs, gs := Read(c, r, t), Read(c, Then(c, r, t), Chunk(a));
      AssembleAppend(c, AssemblyOf(w.core), fs, gs);
      AssembleGrows(c, AssembleAll(c, AssemblyOf(w.core), fs), gs);
      if u.core.state == Connected {
        StepAssembles(c, u, a);
      } else {
        DownStep(c, u, a);
      }
    }
  }

  lemma {:induction false} NothingAssembled(c: Config, w: Ws)
    requires Midway(c, w)
    ensures Assembles(c, w, Read(c, ReaderOf(w), []), Then(c, ReaderOf(w), []), w)
  {
    ReadNothing(c, ReaderOf(w));
  }

  // -------------------------------------------------- messages that were encoded

  lemma {:induction false} CutAssembles(c: Config, a: Assembly, fs: seq<Wire>)
    ensures AssembleAll(c, a, Cut(c, fs)) == AssembleAll(c, a, fs)
    decreases |fs|
  {
    hide Truncate, Assemble;
    if fs != [] {
      TruncateTwice(fs[0].frame, c.maxMessageSize);
      assert Cut(c, fs)[1..] == Cut(c, fs[1..]);
      CutAssembles(c, Assemble(c, a, Truncate(fs[0].frame, c.maxMessageSize)), fs[1..]);
    }
  }

  lemma {:induction false} TruncateTwice(f: Frame, limit: nat)
    ensures Truncate(Truncate(f, limit), limit) == Truncate(f, limit)
  {
    var p := Truncate(f, limit).payload;
    assert p[..|p|] == p;
  }

  lemma {:induction false} ItemsAssemble(c: Config, k: Core, ms: seq<seq<Wire>>)
    requires AreItems(ms) && k.partial == []
    ensures var all := AssembleAll(c, AssemblyOf(k), Concat(ms));
            all.partial == [] && all.delivered == Deliveries(k.events) + Messages(c, ms)
  {
    hide HandleAll, AssembleAll, Deliveries;
    var k0 := k.(lower := []);
    HandleItems(c, k0, ms);
    FramesAssemble(c, k0, Concat(ms));
  }

  /**
   * End to end, with the receiver at work: messages and control frames on a stream, and between its
   * chunks any sends, closes, idle periods and timeouts. What has been delivered at the end of the stream
   * is a beginning of the messages; all of them if the transport is still connected.
   */
  lemma {:induction false} EndToEndMeanwhile(c: Config, w: Ws, ms: seq<seq<Wire>>, calls: seq<Call>)
    requires Ready(w) && w.core.partial == [] && AreItems(ms) && AllEncodable(Concat(ms))
    requires ReceivedBy(calls) == EncodeAll(Concat(ms))
    ensures var k, all := Run(c, w, calls).core, Deliveries(w.core.events) + Messages(c, ms);
            Deliveries(k.events) <= all && (k.state == Connected ==> Deliveries(k.events) == all)
  {
    hide Run, Deliveries, Read, Then, AssembleAll;
    ReadyIsMidway(c, w);
    RunAssembles(c, w, calls);
    ReadEncoded(c, w, Concat(ms));
    CutAssembles(c, AssemblyOf(w.core), Concat(ms));
    ItemsAssemble(c, w.core, ms);
  }

  // -------------------------------------------------------- staying connected

  /** Calls that leave a transport alone whose sends succeed: the stream does not end, and no close times out. */
  predicate Peaceful(calls: seq<Call>) {
    forall i :: 0 <= i < |calls| ==> calls[i].CallUser? || (calls[i].CallIncoming? && calls[i].m.Some?)
  }

  function Idles(calls: seq<Call>): nat {
    if calls == [] then 0
    else Idles(calls[..|calls| - 1]) + (if calls[|calls| - 1] == CallIncoming(Some([])) then 1 else 0)
  }

  /** The count of unanswered pings is not touched by anything that callbacks call. */
  lemma {:induction false} CallbackPings(k: Core)
    ensures Callback(k).outstandingPings == k.outstandingPings
    decreases |k.script|, 0
  {
    if k.script != [] {
      UserCallsPings(k.(script := k.script[1..]), k.script[0]);
    }
  }

  lemma {:induction false} UserCallsPings(k: Core, calls: seq<UserCall>)
    ensures UserCalls(k, calls).outstandingPings == k.outstandingPings
    decreases |k.script|, 4, |calls|
  {
    if calls != [] {
      ClosePings(k);
      UserCallsPings(Perform(k, calls[0]), calls[1..]);
    }
  }

  lemma {:induction false} ClosePings(k: Core)
    ensures Close(k).outstandingPings == k.outstandingPings
    decreases |k.script|, 2
  {
    var o := Outgoing(k.(closeSent := true), SentFrame(CLOSE, []));
    if k.state == Connected && !k.closeSent && o.Threw? {
      ChangePings(o.w, Disconnected);
    }
  }

  lemma {:induction false} ChangePings(k: Core, s: State)
    ensures Change(k, s).outstandingPings == k.outstandingPings
    decreases |k.script|, 1
  {
    if k.state != s {
      CallbackPings(Emit(k.(state := s), Changed(s)));
    }
  }

  lemma {:induction false} DeliverPings(k: Core, opcode: byte, data: seq<byte>)
    ensures Deliver(k, opcode, data).outstandingPings == k.outstandingPings
  {
    CallbackPings(Emit(k, Delivered(opcode == TEXT_FRAME, data)));
  }

  lemma {:induction false} FramePings(c: Config, k: Core, f: Frame)
    ensures RecvFrame(c, k, f).w.outstandingPings == if f.opcode == PONG then 0 else k.outstandingPings
  {
    hide Deliver, Change, Close;
    DeliverPings(k, k.partialOpcode, k.partial);
    DeliverPings(Flush(k).(partialOpcode := f.opcode), f.opcode, Take(c.maxMessageSize, f.payload));
    var data := Take(c.maxMessageSize, k.partial + f.payload);
    DeliverPings(k.(partial := data), k.partialOpcode, data);
    ClosePings(k);
    ChangePings(Close(k), Disconnected);
  }

  lemma {:induction false} FramesPings(c: Config, k: Core, fs: seq<Wire>)
    requires k.outstandingPings >= 0
    ensures 0 <= HandleAll(c, k, fs).w.outstandingPings <= k.outstandingPings
    decreases |fs|
  {
    hide RecvFrame, Truncate;
    if fs != [] {
      var f := Truncate(fs[0].frame, c.maxMessageSize);
      FramePings(c, k, f);
      if RecvFrame(c, k, f).Ok? {
        FramesPings(c, RecvFrame(c, k, f).w, fs[1..]);
      }
    }
  }

  predicate Calm(c: Config, k: Core, pings: int) {
    k.state == Connected && k.lower == [] && 0 <= k.outstandingPings <= pings
  }

  lemma {:induction false} FeedStaysCalm(c: Config, w: Ws, s: seq<byte>, pings: int)
    requires Midway(c, w) && Calm(c, w.core, pings) && s != [] && NoClose(Read(c, ReaderOf(w), s))
    ensures Calm(c, Feed(c, w, s).core, pings)
  {
    hide Feed, HandleAll, Read, Then;
    var fs := Read(c, ReaderOf(w), s);
    FeedCore(c, w, s);
    DownIffClose(c, w.core, fs);
    FramesPings(c, w.core, fs);
  }

  lemma {:induction false} IdleStaysCalm(c: Config, w: Ws, pings: int)
    requires Midway(c, w) && Calm(c, w.core, pings) && (c.maxOutstandingPings > 0 ==> pings < c.maxOutstandingPings)
    ensures Calm(c, Feed(c, w, []).core, pings + 1)
  {
    assert (w.buffer + [])[0..] == w.buffer;
  }

  lemma {:induction false} PerformStaysCalm(c: Config, w: Ws, call: UserCall, pings: int)
    requires Calm(c, w.core, pings)
    ensures Calm(c, Quiet(w.(core := Perform(w.core, call))).core, pings)
  {
    hide Close, Deliveries;
    PerformUndisturbed(w.core, call);
    ClosePings(w.core);
  }

  /** With sends that succeed, no CLOSE, and fewer idle periods than the limit has room for, it stays connected. */
  lemma {:induction false} StaysConnected(c: Config, w: Ws, calls: seq<Call>)
    requires Midway(c, w) && w.core.lower == [] && w.core.outstandingPings >= 0
    requires Peaceful(calls) && NoClose(Read(c, ReaderOf(w), ReceivedBy(calls)))
    requires c.maxOutstandingPings > 0 ==> w.core.outstandingPings + Idles(calls) <= c.maxOutstandingPings
    ensures Calm(c, Run(c, w, calls).core, w.core.outstandingPings + Idles(calls))
    decreases |calls|
  {
    hide Read, Then, Between, Incoming, Perform, Quiet, Deliveries, AssembleAll;
    if calls != [] {
      var init, a := calls[..|calls| - 1], calls[|calls| - 1];
      var u, pings := Run(c, w, init), w.core.outstandingPings + Idles(init);
      ReadSplit(c, ReaderOf(w), ReceivedBy(init), Chunk(a));
      var fs, gs := Read(c, ReaderOf(w), ReceivedBy(init)), Read(c, Then(c, ReaderOf(w), ReceivedBy(init)), Chunk(a));
      NoCloseParts(fs, gs);
      assert forall i :: 0 <= i < |init| ==> init[i] == calls[i];
      StaysConnected(c, w, init);
      RunAssembles(c, w, init);
      match a
      case CallUser(call) => PerformStaysCalm(c, u, call, pings);
      case CallIncoming(m) =>
        if m.value == [] {
          IdleStaysCalm(c, u, pings);
        } else {
          FeedStaysCalm(c, u, m.value, pings);
        }
    }
  }

  lemma {:induction false} NoCloseParts(fs: seq<Wire>, gs: seq<Wire>)
    requires NoClose(fs + gs)
    ensures NoClose(fs) && NoClose(gs)
  {
    assert forall i :: 0 <= i < |fs| ==> (fs + gs)[i] == fs[i];
    assert forall i :: 0 <= i < |gs| ==> (fs + gs)[|fs| + i] == gs[i];
  }

  /** So with such calls between the chunks, the messages are delivered, all of them. */
  lemma {:induction false} EndToEndInPeace(c: Config, w: Ws, ms: seq<seq<Wire>>, calls: seq<Call>)
    requires Ready(w) && w.core.partial == [] && AreItems(ms) && AllEncodable(Concat(ms))
    requires w.core.lower == [] && w.core.outstandingPings >= 0 && Peaceful(calls)
    requires c.maxOutstandingPings > 0 ==> w.core.outstandingPings + Idles(calls) <= c.maxOutstandingPings
    requires ReceivedBy(calls) == EncodeAll(Concat(ms))
    ensures var k := Run(c, w, calls).core;
            k.state == Connected && Deliveries(k.events) == Deliveries(w.core.events) + Messages(c, ms)
  {
    hide Run, Deliveries, Read;
    ReadyIsMidway(c, w);
    ReadEncoded(c, w, Concat(ms));
    ItemsHaveNoClose(ms);
    CutHasNoClose(c, Concat(ms));
    StaysConnected(c, w, calls);
    EndToEndMeanwhile(c, w, ms, calls);
  }

  // ------------------------------------------------------ from the handshake on

  /** Before all of the other side's handshake has come the transport waits, and nothing else changes. */
  predicate Waits(w: Ws, head: seq<byte>, s: seq<byte>, v: Ws) {
    v.core == w.core && v.buffer == s && v.ignoreLength == 0 && |s| < |head|
  }

  predicate GivenUp(w: Ws, v: Ws) {
    v.core.state in {Disconnected, Failed} && Deliveries(v.core.events) == Deliveries(w.core.events)
  }

  /** What a transport that expects `head` has done once it was given `s`. */
  ghost predicate Opening(c: Config, w: Ws, head: seq<byte>, k1: Core, s: seq<byte>, v: Ws) {
    || Waits(w, head, s, v)
    || GivenUp(w, v)
    || (|head| <= |s| && Assembles(c, Ws(k1, [], 0), FramesIn(c, s[|head|..]), Left(c, s[|head|..]), v))
  }

  /** Of a beginning of the handshake the transport makes nothing yet. */
  lemma {:induction false} Undecided(c: Config, k: Core, head: seq<byte>, k1: Core, s: seq<byte>)
    requires Expects(c, k, head, k1) && s < head
    ensures Shake(c, k, s) == (Ok(k), 0)
  {
    hide Shake;
    if Shake(c, k, s) != (Ok(k), 0) {
      assert s + head[|s|..] == head && head + [] == head;
      assert Shake(c, k, head + []) == (Ok(k1), |head|);
      ShakeStable(c, k, s, head[|s|..]);
    }
  }

  lemma {:induction false} WaitsOn(c: Config, w: Ws, head: seq<byte>, k1: Core, s: seq<byte>, b: seq<byte>, v: Ws)
    requires Awaits(w) && Expects(c, w.core, head, k1) && Waits(w, head, s, v) && s + b < head
    ensures Waits(w, head, s + b, Feed(c, v, b))
  {
    hide Shake;
    Undecided(c, w.core, head, k1, s + b);
    assert (s + b)[0..] == s + b;
  }

  lemma {:induction false} Opens(c: Config, w: Ws, head: seq<byte>, k1: Core, s: seq<byte>, b: seq<byte>, v: Ws)
    requires Awaits(w) && Expects(c, w.core, head, k1) && k1.state == Connected
    requires Waits(w, head, s, v) && head <= s + b
    ensures var x := (s + b)[|head|..];
            Assembles(c, Ws(k1, [], 0), FramesIn(c, x), Left(c, x), Feed(c, v, b))
  {
    hide Shake, HandleAll, FramesIn, Left, Fail, Deliveries, AssembleAll, Drain, Parse;
    var x := (s + b)[|head|..];
    assert head + x == s + b;
    assert Shake(c, w.core, head + x) == (Ok(k1), |head|);
    assert Feed(c, v, b) == Settle(Drain(c, k1, x)) by {
      assert b != [];
      assert x[0..] == x;
    }
    DrainIsHandle(c, k1, x);
    var fs := FramesIn(c, x);
    var o := HandleAll(c, k1, fs);
    FramesAssemble(c, k1, fs);
    HandleStates(c, k1, fs);
    FailAssembles(o.w);
    LeftIsBetween(c, x);
    HandleGrows(c, k1, fs);
    DeliveriesGrow(k1.events, o.w.events);
  }

  /** A call that brings no bytes, while the transport waits. */
  lemma {:induction false} WaitsMeanwhile(c: Config, w: Ws, head: seq<byte>, k1: Core, s: seq<byte>, a: Call, v: Ws)
    requires Awaits(w) && Expects(c, w.core, head, k1) && Waits(w, head, s, v) && s < head && Chunk(a) == []
    ensures Waits(w, head, s, Step(c, v, a)) || GivenUp(w, Step(c, v, a))
  {
    hide Change, Shake, Deliveries;
    match a
    case CallUser(call) => UserCallsWhenDown(w.core, [call]);
    case CallTimeout => ChangeUndisturbed(w.core.(timer := false), Disconnected);
      ChangeStates(w.core.(timer := false), Disconnected);
    case CallIncoming(None) =>
      ChangeUndisturbed(w.core, Failed);
      ChangeStates(w.core, Failed);
    case CallIncoming(Some(b)) =>
      assert s + b == s;
      WaitsOn(c, w, head, k1, s, b, v);
  }

  lemma {:induction false} Comparable(s: seq<byte>, b: seq<byte>, head: seq<byte>)
    requires s + b <= head || head <= s + b
    ensures s <= head || head <= s
  {
    if |s| <= |head| {
      assert s == (s + b)[..|s|];
      assert s + b <= head ==> s == head[..|s|];
    } else {
      assert head <= s + b ==> head == s[..|head|];
    }
  }

  /** From the first byte: the same as for a transport that is connected, once it is. */
  lemma {:induction false} OpeningRun(c: Config, w: Ws, head: seq<byte>, k1: Core, calls: seq<Call>)
    requires Awaits(w) && Expects(c, w.core, head, k1) && k1.state == Connected && head != []
    requires ReceivedBy(calls) <= head || head <= ReceivedBy(calls)
    ensures Opening(c, w, head, k1, ReceivedBy(calls), Run(c, w, calls))
    decreases |calls|
  {
    hide Step, Expects, Left, FramesIn, Assembles, Deliveries;
    if calls != [] {
      var init, a := calls[..|calls| - 1], calls[|calls| - 1];
      var u, s := Run(c, w, init), ReceivedBy(init);
      Comparable(s, Chunk(a), head);
      OpeningRun(c, w, head, k1, init);
      if Waits(w, head, s, u) {
        OpeningStep(c, w, head, k1, s, a, u);
      } else if GivenUp(w, u) {
        DownStep(c, u, a);
      } else {
        OpenStep(c, w, head, k1, s, a, u);
      }
    }
  }

  lemma {:induction false} OpeningStep(c: Config, w: Ws, head: seq<byte>, k1: Core, s: seq<byte>, a: Call, u: Ws)
    requires Awaits(w) && Expects(c, w.core, head, k1) && k1.state == Connected && Waits(w, head, s, u)
    requires s + Chunk(a) <= head || head <= s + Chunk(a)
    ensures Opening(c, w, head, k1, s + Chunk(a), Step(c, u, a))
  {
    hide Expects, Left, FramesIn, Assembles, Deliveries, Incoming, Perform, CloseTimeout;
    var b := Chunk(a);
    if b == [] {
      assert s + b == s;
      WaitsMeanwhile(c, w, head, k1, s, a, u);
    } else if |s + b| < |head| {
      WaitsOn(c, w, head, k1, s, b, u);
    } else {
      assert head <= s + b;
      Opens(c, w, head, k1, s, b, u);
    }
  }

  lemma {:induction false} OpenStep(c: Config, w: Ws, head: seq<byte>, k1: Core, s: seq<byte>, a: Call, u: Ws)
    requires k1.state == Connected && |head| <= |s|
    requires Assembles(c, Ws(k1, [], 0), FramesIn(c, s[|head|..]), Left(c, s[|head|..]), u)
    ensures var x := (s + Chunk(a))[|head|..];
            Assembles(c, Ws(k1, [], 0), FramesIn(c, x), Left(c, x), Step(c, u, a))
  {
    hide Step, Left, FramesIn, Deliveries, AssembleAll, Read, Between;
    var b, y := Chunk(a), s[|head|..];
    assert (s + b)[|head|..] == y + b;
    FramesSplit(c, y, b);
    var fs, gs := FramesIn(c, y), Read(c, Left(c, y), b);
    AssembleAppend(c, AssemblyOf(k1), fs, gs);
    AssembleGrows(c, AssembleAll(c, AssemblyOf(k1), fs), gs);
    if u.core.state == Connected {
      StepAssembles(c, u, a);
    } else {
      DownStep(c, u, a);
    }
  }
}
