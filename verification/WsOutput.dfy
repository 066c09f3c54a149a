/** What a transport sends: the answer to every frame, and over whole runs. */
module WsOutput {
  import opened Bytes
  import opened Frames
  import opened WsSpec
  import opened WsTheorems
  import opened WsCuts
  import opened WsMessages
  import opened WsReader
  import opened WsClose
  import opened WsLifecycle
  import opened WsRuns
  import Handshake

  // ------------------------------------------------------------ what is owed

  /** CLOSE, or an opcode that RFC 6455 reserves: after either the transport wants to close. */
  predicate AsksToClose(opcode: byte) {
    opcode !in {CONTINUATION, TEXT_FRAME, BINARY_FRAME, PING, PONG}
  }

  predicate NoneAsks(fs: seq<Wire>) {
    forall i :: 0 <= i < |fs| ==> !AsksToClose(fs[i].frame.opcode)
  }

  /** A transport that is connected and has not tried a CLOSE. */
  predicate MayClose(k: Core) {
    k.state == Connected && !k.closeSent
  }

  /** The answer to a frame: a pong to a ping with its payload, and one CLOSE. */
  function Answer(mayClose: bool, f: Frame): seq<Event> {
    if f.opcode == PING then [SentFrame(PONG, f.payload)]
    else if mayClose && AsksToClose(f.opcode) then [SentFrame(CLOSE, [])]
    else []
  }

  function Answers(c: Config, mayClose: bool, fs: seq<Wire>): seq<Event>
    decreases |fs|
  {
    if fs == [] then []
    else
      var f := Truncate(fs[0].frame, c.maxMessageSize);
      Answer(mayClose, f) + Answers(c, mayClose && !AsksToClose(f.opcode), fs[1..])
  }

  /**
   * A CLOSE frame, or a frame with a reserved opcode, that comes to a transport that has not tried a
   * CLOSE makes it try one at once, before anything else, whatever callbacks call.
   */
  lemma {:induction false} CloseIsTried(c: Config, k: Core, f: Frame)
    requires MayClose(k) && AsksToClose(f.opcode)
    ensures var e := if k.lower != [] && !k.lower[0] then Thrown(SentFrame(CLOSE, [])) else SentFrame(CLOSE, []);
            k.events + [e] <= RecvFrame(c, k, f).w.events
  {
    hide Change;
    var o := Outgoing(k.(closeSent := true), SentFrame(CLOSE, []));
    ChangeGrows(o.w, Disconnected);
    CloseGrows(k);
    ChangeGrows(Close(k), Disconnected);
  }

  /** With sends that succeed and callbacks that call nothing: a frame brings its answer and nothing else. */
  lemma {:induction false} FrameAnswered(c: Config, k: Core, f: Frame)
    requires k.lower == [] && k.script == []
    ensures var o := RecvFrame(c, k, f);
            && o.Ok? && o.w.lower == [] && o.w.script == []
            && FramesSent(o.w.events) == FramesSent(k.events) + Answer(MayClose(k), f)
            && (MayClose(o.w) <==> MayClose(k) && !AsksToClose(f.opcode))
  {
    hide Deliver, Change, FramesSent, Deliveries;
    RecvFrameStays(c, k, f);
    if IsData(f.opcode) || f.opcode == CONTINUATION {
      DataSendsNothing(c, k, f);
    } else if f.opcode == PING {
      FrameUndisturbed(k, PONG, f.payload);
    } else if f.opcode != PONG {
      QuietClose(k);
      ChangeUndisturbed(Close(k), Disconnected);
      ChangeKeeps(Close(k), Disconnected);
    }
  }

  /** A change of state with nothing that is called. */
  lemma {:induction false} ChangeKeeps(k: Core, s: State)
    requires k.script == []
    ensures Change(k, s) == if k.state == s then k else Emit(k.(state := s), Changed(s))
  {
  }

  lemma {:induction false} QuietClose(k: Core)
    requires k.lower == [] && k.script == []
    ensures Close(k) == if MayClose(k) then Emit(k.(closeSent := true, timer := true), SentFrame(CLOSE, [])) else k
    ensures FramesSent(Close(k).events) == FramesSent(k.events) + if MayClose(k) then [SentFrame(CLOSE, [])] else []
  {
    AfterEmit(k.(closeSent := true, timer := true), SentFrame(CLOSE, []));
  }

  lemma {:induction false} DeliverKeeps(k: Core, opcode: byte, data: seq<byte>)
    requires k.script == []
    ensures var r := Deliver(k, opcode, data);
            && r == Emit(k, Delivered(opcode == TEXT_FRAME, data)) && FramesSent(r.events) == FramesSent(k.events)
  {
    AfterEmit(k, Delivered(opcode == TEXT_FRAME, data));
  }

  lemma {:induction false} DataSendsNothing(c: Config, k: Core, f: Frame)
    requires k.script == [] && (IsData(f.opcode) || f.opcode == CONTINUATION)
    ensures var r := RecvFrame(c, k, f).w;
            && r.script == [] && FramesSent(r.events) == FramesSent(k.events)
            && r.state == k.state && r.closeSent == k.closeSent
  {
    hide Deliver, FramesSent;
    DeliverKeeps(k, k.partialOpcode, k.partial);
    DeliverKeeps(Flush(k).(partialOpcode := f.opcode), f.opcode, Take(c.maxMessageSize, f.payload));
    var data := Take(c.maxMessageSize, k.partial + f.payload);
    DeliverKeeps(k.(partial := data), k.partialOpcode, data);
  }

  /** Frame by frame, whatever the frames. */
  lemma {:induction false} FramesAnswered(c: Config, k: Core, fs: seq<Wire>)
    requires k.lower == [] && k.script == []
    ensures var o := HandleAll(c, k, fs);
            && o.Ok? && o.w.lower == [] && o.w.script == []
            && FramesSent(o.w.events) == FramesSent(k.events) + Answers(c, MayClose(k), fs)
            && (MayClose(o.w) <==> MayClose(k) && NoneAsks(fs))
    decreases |fs|
  {
    hide RecvFrame, Truncate, FramesSent;
    if fs != [] {
      var f := Truncate(fs[0].frame, c.maxMessageSize);
      TruncateKeeps(fs[0].frame, c.maxMessageSize);
      FrameAnswered(c, k, f);
      FramesAnswered(c, RecvFrame(c, k, f).w, fs[1..]);
      NoneAsksSplit(fs);
    }
  }

  lemma {:induction false} NoneAsksSplit(fs: seq<Wire>)
    requires fs != []
    ensures NoneAsks(fs) <==> !AsksToClose(fs[0].frame.opcode) && NoneAsks(fs[1..])
  {
    assert forall i :: 1 <= i < |fs| ==> fs[i] == fs[1..][i - 1];
  }

  /** Without a CLOSE to send, the answers are the pongs owed. */
  lemma {:induction false} AnswersArePongs(c: Config, mayClose: bool, fs: seq<Wire>)
    requires !mayClose || NoneAsks(fs)
    ensures Answers(c, mayClose, fs) == PongsFor(c, fs)
    decreases |fs|
  {
    hide Truncate;
    if fs != [] {
      TruncateKeeps(fs[0].frame, c.maxMessageSize);
      NoneAsksSplit(fs);
      AnswersArePongs(c, mayClose && !AsksToClose(fs[0].frame.opcode), fs[1..]);
    }
  }

  /** Otherwise they are the pongs owed and one CLOSE, in the place of the first frame that asks for it. */
  lemma {:induction false} OneCloseAmongPongs(c: Config, pre: seq<Wire>, x: Wire, post: seq<Wire>)
    requires NoneAsks(pre) && AsksToClose(x.frame.opcode)
    ensures Answers(c, true, pre + [x] + post) == PongsFor(c, pre) + [SentFrame(CLOSE, [])] + PongsFor(c, post)
    decreases |pre|
  {
    hide Truncate;
    var fs := pre + [x] + post;
    if pre == [] {
      TruncateKeeps(x.frame, c.maxMessageSize);
      assert fs[0] == x && fs[1..] == post;
      AnswersArePongs(c, false, post);
      assert Answers(c, true, fs) == [SentFrame(CLOSE, [])] + Answers(c, false, post);
    } else {
      TruncateKeeps(pre[0].frame, c.maxMessageSize);
      NoneAsksSplit(pre);
      assert fs[0] == pre[0] && fs[1..] == pre[1..] + [x] + post;
      OneCloseAmongPongs(c, pre[1..], x, post);
    }
  }

  /** On the wire, cut anywhere: up to and with the first CLOSE, what is sent back is just this. */
  lemma {:induction false} StreamAnswered(c: Config, w: Ws, chunks: seq<seq<byte>>)
    requires Midway(c, w) && w.core.lower == [] && w.core.script == [] && NonEmpty(chunks)
    requires var fs := Read(c, ReaderOf(w), Concat(chunks)); fs != [] ==> NoClose(fs[..|fs| - 1])
    ensures var k := FeedAll(c, w, chunks).core;
            FramesSent(k.events) == FramesSent(w.core.events)
                                    + Answers(c, !w.core.closeSent, Read(c, ReaderOf(w), Concat(chunks)))
  {
    hide FeedAll, HandleAll, Read, FramesSent, Answers;
    CutsAgreeUpToClose(c, w, chunks);
    FramesAnswered(c, w.core, Read(c, ReaderOf(w), Concat(chunks)));
  }

  // ------------------------------------------------------------- whole runs

  /** No CLOSE has been sent yet: nobody asked for one, on either side. */
  predicate Unasked(c: Config, r: Reader, calls: seq<Call>) {
    CallUser(CallClose) !in calls && NoneAsks(Read(c, r, ReceivedBy(calls)))
  }

  /** What a call makes a transport send that is connected, with the frames that its bytes complete. */
  function SentFor(c: Config, mayClose: bool, a: Call, fs: seq<Wire>): seq<Event> {
    match a
    case CallUser(CallSend(text, data)) => [SentFrame(if text then TEXT_FRAME else BINARY_FRAME, data)]
    case CallUser(CallClose) => if mayClose then [SentFrame(CLOSE, [])] else []
    case CallIncoming(Some(s)) => if s == [] then [SentFrame(PING, [0, 0, 0, 0])] else Answers(c, mayClose, fs)
    case _ => []
  }

  function SentOver(c: Config, r: Reader, mayClose: bool, calls: seq<Call>): seq<Event> {
    if calls == [] then []
    else
      var init, a := calls[..|calls| - 1], calls[|calls| - 1];
      SentOver(c, r, mayClose, init)
      + SentFor(c, mayClose && Unasked(c, r, init), a, Read(c, Then(c, r, ReceivedBy(init)), Chunk(a)))
  }

  lemma {:induction false} CallAnswered(c: Config, w: Ws, a: Call)
    requires Midway(c, w) && w.core.lower == [] && w.core.script == []
    requires Step(c, w, a).core.state == Connected
    ensures var k, fs := Step(c, w, a).core, Read(c, ReaderOf(w), Chunk(a));
            && k.lower == [] && k.script == []
            && FramesSent(k.events) == FramesSent(w.core.events) + SentFor(c, MayClose(w.core), a, fs)
            && (MayClose(k) <==> MayClose(w.core) && a != CallUser(CallClose) && NoneAsks(fs))
  {
    hide Read, Then, FramesSent, Incoming;
    ReadNothing(c, ReaderOf(w));
    match a
    case CallUser(CallClose) => QuietClose(w.core);
    case CallUser(CallSend(text, data)) =>
      FrameUndisturbed(w.core.(asked := w.core.asked + [Ask(text, data)]), if text then TEXT_FRAME else BINARY_FRAME, data);
    case CallTimeout => ChangeKeeps(w.core.(timer := false), Disconnected);
    case CallIncoming(None) => LostIsNotConnected(c, w);
    case CallIncoming(Some(s)) =>
      if s == [] {
        IdleAnswered(c, w);
      } else {
        FeedAnswered(c, w, s);
      }
  }

  lemma {:induction false} LostIsNotConnected(c: Config, w: Ws)
    requires w.core.state == Connected
    ensures Incoming(c, w, None).core.state != Connected
  {
    hide Fail;
    FailDown(w.core);
  }

  lemma {:induction false} IdleAnswered(c: Config, w: Ws)
    requires Midway(c, w) && w.core.lower == [] && w.core.script == [] && Incoming(c, w, Some([])).core.state == Connected
    ensures var k := Incoming(c, w, Some([])).core;
            && k.lower == [] && k.script == [] && k.closeSent == w.core.closeSent
            && FramesSent(k.events) == FramesSent(w.core.events) + [SentFrame(PING, [0, 0, 0, 0])]
  {
    hide FramesSent;
    assert (w.buffer + [])[0..] == w.buffer;
    FrameUndisturbed(w.core, PING, PING_PAYLOAD);
    var k1 := Outgoing(w.core, SentFrame(PING, PING_PAYLOAD)).w;
    ChangeKeeps(k1.(outstandingPings := k1.outstandingPings + 1), Failed);
  }

  lemma {:induction false} FeedAnswered(c: Config, w: Ws, s: seq<byte>)
    requires Midway(c, w) && w.core.lower == [] && w.core.script == [] && s != []
    ensures var k, fs := Feed(c, w, s).core, Read(c, ReaderOf(w), s);
            && k.lower == [] && k.script == []
            && FramesSent(k.events) == FramesSent(w.core.events) + Answers(c, MayClose(w.core), fs)
            && (MayClose(k) <==> MayClose(w.core) && NoneAsks(fs))
  {
    hide Feed, HandleAll, Read, FramesSent, Answers;
    FeedCore(c, w, s);
    FramesAnswered(c, w.core, Read(c, ReaderOf(w), s));
  }

  /**
   * Over any run that leaves the transport connected, with sends that succeed and callbacks that call
   * nothing: the frames it sent are exactly these, in order. For every call of `send` a frame of its type;
   * for every idle period a ping; for the bytes received a pong to every ping, and one CLOSE in all, when
   * first a caller or the other side asks for it.
   */
  lemma {:induction false} RunSends(c: Config, w: Ws, calls: seq<Call>)
    requires Midway(c, w) && w.core.lower == [] && w.core.script == []
    requires Run(c, w, calls).core.state == Connected
    ensures var k := Run(c, w, calls).core;
            && k.lower == [] && k.script == []
            && FramesSent(k.events) == FramesSent(w.core.events) + SentOver(c, ReaderOf(w), MayClose(w.core), calls)
            && (MayClose(k) <==> MayClose(w.core) && Unasked(c, ReaderOf(w), calls))
    decreases |calls|
  {
    hide Step, Read, Then, Between, FramesSent, AssembleAll, SentFor;
    var r := ReaderOf(w);
    if calls == [] {
      ReadNothing(c, r);
    } else {
      var init, a := calls[..|calls| - 1], calls[|calls| - 1];
      var u := Run(c, w, init);
      RunAssembles(c, w, init);
      if u.core.state != Connected {
        DownStep(c, u, a);
      } else {
        RunSends(c, w, init);
        CallAnswered(c, u, a);
        ReadSplit(c, r, ReceivedBy(init), Chunk(a));
        NoneAsksAppend(Read(c, r, ReceivedBy(init)), Read(c, Then(c, r, ReceivedBy(init)), Chunk(a)));
        assert calls == init + [a];
      }
    }
  }

  lemma {:induction false} NoneAsksAppend(fs: seq<Wire>, gs: seq<Wire>)
    ensures NoneAsks(fs + gs) <==> NoneAsks(fs) && NoneAsks(gs)
  {
    assert forall i :: 0 <= i < |fs| ==> (fs + gs)[i] == fs[i];
    assert forall i :: 0 <= i < |gs| ==> (fs + gs)[|fs| + i] == gs[i];
  }

  // ------------------------------------------------------- comings and goings

  /** The lower stream ends, or something throws: a connected transport goes down and reports it, any other has failed. */
  lemma {:induction false} EndIsReported(c: Config, w: Ws)
    requires Live(w.core) && w.core.script == []
    ensures var k := Incoming(c, w, None).core;
            if w.core.state == Connected then
              k == w.core.(state := Disconnected, events := w.core.events + [Changed(Disconnected), Lost])
            else k == w.core.(state := Failed, events := w.core.events + [Changed(Failed)])
  {
    ChangeKeeps(w.core, Disconnected);
    ChangeKeeps(w.core, Failed);
    assert w.core.events + [Changed(Disconnected)] + [Lost] == w.core.events + [Changed(Disconnected), Lost];
  }

  /** A CLOSE that no answer comes to ends the transport when the time is over. */
  lemma {:induction false} CloseTimesOut(k: Core)
    requires MayClose(k) && k.lower == [] && k.script == []
    ensures var r := CloseTimeout(Close(k));
            r.state == Disconnected && r.events == k.events + [SentFrame(CLOSE, []), Changed(Disconnected)]
  {
    QuietClose(k);
    ChangeKeeps(Close(k).(timer := false), Disconnected);
    assert k.events + [SentFrame(CLOSE, [])] + [Changed(Disconnected)] == k.events + [SentFrame(CLOSE, []), Changed(Disconnected)];
  }

  /** The answer to a CLOSE frame: a CLOSE, and the end. */
  lemma {:induction false} CloseIsAnswered(c: Config, k: Core, f: Frame)
    requires MayClose(k) && k.lower == [] && k.script == [] && f.opcode == CLOSE
    ensures var r := RecvFrame(c, k, f).w;
            r.state == Disconnected && r.events == k.events + [SentFrame(CLOSE, []), Changed(Disconnected)]
  {
    QuietClose(k);
    ChangeKeeps(Close(k), Disconnected);
    assert k.events + [SentFrame(CLOSE, [])] + [Changed(Disconnected)] == k.events + [SentFrame(CLOSE, []), Changed(Disconnected)];
  }

  /** What a server that waits for a request makes of the bytes so far. */
  lemma {:induction false} ServerShakes(c: Config, k: Core, s: seq<byte>)
    requires !c.client && k.state == Connecting && k.lower == [] && k.script == []
    ensures var (o, n) := Shake(c, k, s);
            match Handshake.ParseRequest(k.handshake, Text(s))
            case Wait => o == Ok(k) && n == 0
            case Refused(code, f) =>
              o.Threw? && Fail(o.w) == k.(handshake := f, state := Failed, events := k.events + [SentError(code), Changed(Failed)])
            case Accepted(length, f) =>
              var answer := SentText(Handshake.ResponseText(Handshake.AcceptKey(c.sha1, f.key), f.protocols));
              && n == length
              && o == Ok(k.(handshake := f, state := Connected, events := k.events + [answer, Changed(Connected)]))
  {
    hide Handshake.ParseRequest, Handshake.ResponseText, Handshake.AcceptKey;
    var r := Handshake.ParseRequest(k.handshake, Text(s));
    if r.Refused? {
      var e := Emit(k.(handshake := r.fields), SentError(r.code));
      ChangeKeeps(e, Failed);
      assert e.events + [Changed(Failed)] == k.events + [SentError(r.code), Changed(Failed)];
    } else if r.Accepted? {
      var answer := SentText(Handshake.ResponseText(Handshake.AcceptKey(c.sha1, r.fields.key), r.fields.protocols));
      var e := Emit(k.(handshake := r.fields), answer);
      ChangeKeeps(e, Connected);
      assert e.events + [Changed(Connected)] == k.events + [answer, Changed(Connected)];
    }
  }

  /** And a client that waits for the response. */
  lemma {:induction false} ClientShakes(c: Config, k: Core, s: seq<byte>)
    requires c.client && k.state == Connecting && k.script == []
    ensures var (o, n) := Shake(c, k, s);
            match Handshake.ParseResponse(Handshake.AcceptKey(c.sha1, k.handshake.key), Text(s))
            case Pending => o == Ok(k) && n == 0
            case Rejected => o == Threw(k) && Fail(k) == k.(state := Failed, events := k.events + [Changed(Failed)])
            case Opened(length) => n == length && o == Ok(k.(state := Connected, events := k.events + [Changed(Connected)]))
  {
    hide Handshake.ParseResponse, Handshake.AcceptKey;
    ChangeKeeps(k, Failed);
    ChangeKeeps(k, Connected);
  }
}
