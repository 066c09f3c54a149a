/** What happened stays so, and every way of cutting a stream comes to the beginning of it in one piece. */
module WsCuts {
  import opened Bytes
  import opened Frames
  import opened WsSpec
  import opened WsTheorems
  import Handshake

  // -------------------------------------------------------- histories only grow

  lemma {:induction false} CallbackGrows(k: Core)
    ensures k.events <= Callback(k).events
    decreases |k.script|, 0
  {
    if k.script != [] {
      UserCallsGrow(k.(script := k.script[1..]), k.script[0]);
    }
  }

  lemma {:induction false} UserCallsGrow(k: Core, calls: seq<UserCall>)
    ensures k.events <= UserCalls(k, calls).events
    decreases |k.script|, 4, |calls|
  {
    hide Perform;
    if calls != [] {
      PerformGrows(k, calls[0]);
      UserCallsGrow(Perform(k, calls[0]), calls[1..]);
    }
  }

  lemma {:induction false} PerformGrows(k: Core, call: UserCall)
    ensures k.events <= Perform(k, call).events
    decreases |k.script|, 3
  {
    hide Close, Outgoing;
    CloseGrows(k);
    if call.CallSend? {
      OutgoingGrows(k.(asked := k.asked + [Ask(call.text, call.data)]), SentFrame(if call.text then TEXT_FRAME else BINARY_FRAME, call.data));
    }
  }

  lemma {:induction false} ChangeGrows(k: Core, s: State)
    ensures k.events <= Change(k, s).events
    decreases |k.script|, 1
  {
    if k.state != s {
      CallbackGrows(Emit(k.(state := s), Changed(s)));
    }
  }

  lemma {:induction false} OutgoingGrows(k: Core, e: Event)
    ensures k.events <= Outgoing(k, e).w.events
  {
  }

  lemma {:induction false} CloseGrows(k: Core)
    ensures k.events <= Close(k).events
    decreases |k.script|, 2
  {
    var o := Outgoing(k.(closeSent := true), SentFrame(CLOSE, []));
    OutgoingGrows(k.(closeSent := true), SentFrame(CLOSE, []));
    if o.Threw? {
      ChangeGrows(o.w, Disconnected);
    }
  }

  lemma {:induction false} DeliverGrows(k: Core, opcode: byte, data: seq<byte>)
    ensures k.events <= Deliver(k, opcode, data).events
  {
    CallbackGrows(Emit(k, Delivered(opcode == TEXT_FRAME, data)));
  }

  lemma {:induction false} RecvDataGrows(c: Config, k: Core, f: Frame)
    ensures k.events <= RecvData(c, k, f).events
  {
    hide Deliver, Take;
    DeliverGrows(k, k.partialOpcode, k.partial);
    var k1 := Flush(k).(partialOpcode := f.opcode);
    DeliverGrows(k1, f.opcode, Take(c.maxMessageSize, f.payload));
  }

  lemma {:induction false} RecvContinuationGrows(c: Config, k: Core, f: Frame)
    ensures k.events <= RecvContinuation(c, k, f).events
  {
    hide Deliver, Take;
    var data := Take(c.maxMessageSize, k.partial + f.payload);
    DeliverGrows(k.(partial := data), k.partialOpcode, data);
  }

  lemma {:induction false} RecvFrameGrows(c: Config, k: Core, f: Frame)
    ensures k.events <= RecvFrame(c, k, f).w.events
  {
    hide RecvData, RecvContinuation, Close, Change, Outgoing;
    RecvDataGrows(c, k, f);
    RecvContinuationGrows(c, k, f);
    OutgoingGrows(k, SentFrame(PONG, f.payload));
    CloseGrows(k);
    ChangeGrows(Close(k), Disconnected);
  }

  lemma {:induction false} DrainGrows(c: Config, k: Core, buffer: seq<byte>)
    ensures k.events <= Drain(c, k, buffer).w.core.events
    decreases |buffer|
  {
    hide RecvFrame, Parse;
    var p := Parse(buffer, c.maxMessageSize);
    if p.Got? {
      RecvFrameGrows(c, k, p.frame);
      var o := RecvFrame(c, k, p.frame);
      if o.Ok? && p.total <= |buffer| {
        DrainGrows(c, o.w, buffer[p.total..]);
      }
    }
  }

  lemma {:induction false} OnResponseGrows(k: Core, r: Handshake.ResponseResult)
    ensures k.events <= OnResponse(k, r).0.w.events
  {
    hide Change;
    ChangeGrows(k, Connected);
  }

  lemma {:induction false} OnRequestGrows(c: Config, k: Core, r: Handshake.RequestResult)
    ensures k.events <= OnRequest(c, k, r).0.w.events
  {
    hide Change, Outgoing;
    match r
    case Wait =>
    case Refused(code, f) => OutgoingGrows(k.(handshake := f), SentError(code));
    case Accepted(_, f) =>
      var k1 := k.(handshake := f);
      var e := SentText(Handshake.ResponseText(Accept(c, k1), k1.handshake.protocols));
      OutgoingGrows(k1, e);
      ChangeGrows(Outgoing(k1, e).w, Connected);
  }

  lemma {:induction false} ShakeGrows(c: Config, k: Core, buffer: seq<byte>)
    ensures k.events <= Shake(c, k, buffer).0.w.events
  {
    hide OnResponse, OnRequest;
    if c.client {
      OnResponseGrows(k, Handshake.ParseResponse(Accept(c, k), Text(buffer)));
    } else {
      OnRequestGrows(c, k, Handshake.ParseRequest(k.handshake, Text(buffer)));
    }
  }

  lemma {:induction false} AbsorbGrows(c: Config, w: Ws)
    ensures w.core.events <= Absorb(c, w).w.core.events
  {
    hide Drain;
    var n := Min(w.ignoreLength, |w.buffer|);
    DrainGrows(c, w.core, w.buffer[n..]);
  }

  lemma {:induction false} ReceiveGrows(c: Config, w: Ws, m: seq<byte>)
    requires m != []
    ensures w.core.events <= Receive(c, w, m).w.core.events
  {
    hide Shake, Absorb;
    var buffer := w.buffer + m;
    if w.core.state == Connecting {
      ShakeGrows(c, w.core, buffer);
    }
    var (o, n) := if w.core.state == Connecting then Shake(c, w.core, buffer) else (Ok(w.core), 0);
    AbsorbGrows(c, Ws(o.w, buffer[n..], w.ignoreLength));
  }

  lemma {:induction false} FailGrows(k: Core)
    ensures k.events <= Fail(k).events
  {
    hide Change, Callback;
    ChangeGrows(k, Disconnected);
    ChangeGrows(k, Failed);
    CallbackGrows(Emit(Change(k, Disconnected), Lost));
  }

  lemma {:induction false} FeedGrows(c: Config, w: Ws, m: seq<byte>)
    requires m != []
    ensures w.core.events <= Feed(c, w, m).core.events
  {
    hide Receive, Fail;
    ReceiveGrows(c, w, m);
    FailGrows(Receive(c, w, m).w.core);
  }

  // ---------------------------------------------------- one piece, and its parts

  lemma {:induction false} SettleGrows(o: Outcome<Ws>)
    ensures o.w.core.events <= Settle(o).core.events
  {
    hide Fail;
    FailGrows(o.w.core);
  }

  /** What the beginning of a stream does is the beginning of what the stream does. */
  lemma {:induction false} FeedMonotone(c: Config, w: Ws, a: seq<byte>, b: seq<byte>)
    requires WellFormed(w) && a != []
    ensures Feed(c, w, a).core.events <= Feed(c, w, a + b).core.events
  {
    hide Receive, Fail, Absorb;
    if b == [] {
      assert a + b == a;
    } else if Live(w.core) {
      FeedSplit(c, w, a, b);
      if Live(Feed(c, w, a).core) {
        FeedGrows(c, Feed(c, w, a), b);
      } else {
        DeadSplit(c, w, a, b);
      }
    }
  }

  lemma {:induction false} DeadSplit(c: Config, w: Ws, a: seq<byte>, b: seq<byte>)
    requires WellFormed(w) && Live(w.core) && a != [] && b != [] && !Live(Feed(c, w, a).core)
    ensures Feed(c, w, a).core.events <= Feed(c, w, a + b).core.events
  {
    hide Receive, Fail, Absorb;
    ReceiveSplit(c, w, a, b);
    ReceiveShape(c, w, a);
    var o, ab := Receive(c, w, a), Receive(c, w, a + b);
    if o.Ok? {
      AbsorbGrows(c, Extend(o.w, b));
      SettleGrows(ab);
    }
  }

  lemma {:induction false} FeedQuiet(c: Config, w: Ws, m: seq<byte>)
    ensures !Live(Feed(c, w, m).core) ==> Feed(c, w, m) == Ws(Feed(c, w, m).core, [], 0)
  {
    hide Receive, Fail;
  }

  lemma {:induction false} FeedDead(c: Config, w: Ws, m: seq<byte>)
    requires !Live(w.core)
    ensures Feed(c, w, m) == Ws(w.core, [], 0)
  {
    hide Receive, Fail;
  }

  /**
   * However a stream is cut, the outcome is that of the beginning of the stream in one piece: of all of
   * it, or of as much as took the transport down.
   */
  lemma {:induction false} CutIsPiece(c: Config, w: Ws, chunks: seq<seq<byte>>) returns (n: nat)
    requires WellFormed(w) && NonEmpty(chunks)
    ensures 0 < n <= |Concat(chunks)| && FeedAll(c, w, chunks) == Feed(c, w, Concat(chunks)[..n])
    ensures n == |Concat(chunks)| || !Live(Feed(c, w, Concat(chunks)[..n]).core)
    decreases |chunks|
  {
    hide Feed;
    var init, last := chunks[..|chunks| - 1], chunks[|chunks| - 1];
    assert chunks == init + [last];
    ConcatLast(init, last);
    var s, t := Concat(chunks), Concat(init);
    n := |s|;
    assert s[..|s|] == s;
    if init == [] {
      assert s == last;
    } else {
      var n0 := CutIsPiece(c, w, init);
      if Live(FeedAll(c, w, init).core) {
        assert t[..n0] == t;
        FeedSplit(c, w, t, last);
      } else {
        n := n0;
        assert s[..n] == t[..n];
        FeedDead(c, FeedAll(c, w, init), last);
        FeedQuiet(c, w, t[..n]);
      }
    }
  }
}
