/** What holds of everything a transport ever does, over every run that begins with one start. */
module WsLifecycle {
  import opened Bytes
  import opened Frames
  import opened WsSpec
  import opened WsTheorems
  import Handshake

  // ------------------------------------------------------------ legal traces

  /** The frames a transport sends: it never fragments. */
  predicate IsSentOpcode(opcode: byte) {
    IsData(opcode) || opcode == PING || opcode == PONG || opcode == CLOSE
  }

  predicate IsClose(e: Event) {
    e.SentFrame? && e.opcode == CLOSE
  }

  predicate CloseTried(events: seq<Event>) {
    exists i :: 0 <= i < |events| && IsTry(events[i]) && IsClose(What(events[i]))
  }

  predicate TextTried(events: seq<Event>) {
    exists i :: 0 <= i < |events| && IsTry(events[i]) && What(events[i]).SentText?
  }

  /** The messages among what was tried. */
  function DataTried(events: seq<Event>): seq<Ask> {
    if events == [] then [] else DataTried(events[..|events| - 1]) + AskOf(events[|events| - 1])
  }

  function AskOf(e: Event): seq<Ask> {
    if IsTry(e) && What(e).SentFrame? && IsData(What(e).opcode) then [Ask(What(e).opcode == TEXT_FRAME, What(e).payload)]
    else []
  }

  predicate Untried(events: seq<Event>) {
    forall i :: 0 <= i < |events| ==> !IsTry(events[i])
  }

  predicate NeverChanged(events: seq<Event>) {
    forall i :: 0 <= i < |events| ==> !events[i].Changed?
  }

  /** The state the callbacks have reported. */
  function Reported(events: seq<Event>): State {
    if events == [] then Disconnected
    else
      var last := events[|events| - 1];
      if last.Changed? then last.state else Reported(events[..|events| - 1])
  }

  /** May this be sent after `past`? The handshake once and first; frames after it and once connected; one CLOSE. */
  predicate MayTry(past: seq<Event>, what: Event) {
    match what
    case SentFrame(opcode, _) =>
      && Changed(Connected) in past && TextTried(past)
      && IsSentOpcode(opcode) && (opcode == CLOSE ==> !CloseTried(past))
    case SentText(_) => Reported(past) == Connecting && Untried(past)
    case SentError(_) => Reported(past) == Connecting && Untried(past)
    case _ => false
  }

  /** May `e` come after `past`? */
  predicate MayFollow(c: Config, past: seq<Event>, e: Event) {
    match e
    case Changed(s) =>
      && s != Completed && s != Reported(past)
      && (s == Connecting ==> NeverChanged(past) && Untried(past))
      && (s == Connected ==> Reported(past) == Connecting)
    case Delivered(_, data) => Changed(Connected) in past && |data| <= c.maxMessageSize
    case Lost => Reported(past) == Disconnected
    case Thrown(what) => MayTry(past, what)
    case _ => MayTry(past, e)
  }

  predicate Legal(c: Config, events: seq<Event>) {
    events == []
    || (Legal(c, events[..|events| - 1]) && MayFollow(c, events[..|events| - 1], events[|events| - 1]))
  }

  // ------------------------------------------------------------ the invariant

  /** Frames are only handled by a transport that has been connected. */
  predicate Opened(k: Core) {
    Changed(Connected) in k.events
  }

  predicate CoreInv(c: Config, k: Core) {
    && Legal(c, k.events)
    && k.state == Reported(k.events)
    && (k.state == Connected ==> Opened(k))
    && (Opened(k) ==> TextTried(k.events))
    && (k.state == Connecting ==> if c.client then TextTried(k.events) else Untried(k.events))
    && Recorded(k)
    && |k.partial| <= c.maxMessageSize
    && (k.state == Connecting ==> k.outstandingPings == 0)
    && (k.state == Connected && c.maxOutstandingPings > 0 ==> k.outstandingPings <= c.maxOutstandingPings)
  }

  /** A CLOSE was tried exactly if that is noted, and of messages exactly those that `send` was given. */
  predicate Recorded(k: Core) {
    (k.closeSent <==> CloseTried(k.events)) && DataTried(k.events) == k.asked
  }

  predicate Inv(c: Config, w: Ws) {
    CoreInv(c, w.core) && WellFormed(w)
  }

  /** The invariant is kept, and what has been opened has been. */
  predicate Keeps(c: Config, before: Core, after: Core) {
    CoreInv(c, after) && (Opened(before) ==> Opened(after))
  }

  lemma {:induction false} EmitTrace(c: Config, past: seq<Event>, e: Event)
    requires Legal(c, past) && MayFollow(c, past, e)
    ensures var v := past + [e];
            && Legal(c, v)
            && Reported(v) == (if e.Changed? then e.state else Reported(past))
            && (CloseTried(v) <==> CloseTried(past) || (IsTry(e) && IsClose(What(e))))
            && (TextTried(v) <==> TextTried(past) || (IsTry(e) && What(e).SentText?))
            && (Untried(v) <==> Untried(past) && !IsTry(e))
            && DataTried(v) == DataTried(past) + AskOf(e)
            && (forall x :: x in v <==> x in past || x == e)
  {
    var v := past + [e];
    assert v[..|v| - 1] == past;
    assert forall i :: 0 <= i < |past| ==> v[i] == past[i];
    assert v[|past|] == e;
  }

  lemma {:induction false} OutgoingCases(k: Core, e: Event)
    ensures var o := Outgoing(k, e);
            o.w == Emit(k.(lower := o.w.lower), if o.Threw? then Thrown(e) else e)
  {
  }

  /** What is noted before a frame is sent. */
  function Noting(k: Core, opcode: byte, payload: seq<byte>): Core {
    if opcode == CLOSE then k.(closeSent := true)
    else if IsData(opcode) then k.(asked := k.asked + [Ask(opcode == TEXT_FRAME, payload)])
    else k
  }

  /** Sending a frame. */
  lemma {:induction false} FrameInv(c: Config, k: Core, opcode: byte, payload: seq<byte>)
    requires CoreInv(c, k) && Opened(k) && k.state != Connecting && IsSentOpcode(opcode)
    requires opcode == CLOSE ==> !k.closeSent
    ensures var o := Outgoing(Noting(k, opcode, payload), SentFrame(opcode, payload));
            && Keeps(c, k, o.w) && o.w.state == k.state && o.w.outstandingPings == k.outstandingPings
  {
    hide Legal, DataTried, CloseTried, TextTried, Untried, Reported, WsSpec.Outgoing;
    OutgoingCases(Noting(k, opcode, payload), SentFrame(opcode, payload));
    assert DataTried(k.events) + [] == DataTried(k.events);
    EmitTrace(c, k.events, SentFrame(opcode, payload));
    EmitTrace(c, k.events, Thrown(SentFrame(opcode, payload)));
  }

  // ---------------------------------------- callbacks, and what they call back

  lemma {:induction false} CallbackInv(c: Config, k: Core)
    requires CoreInv(c, k)
    ensures Keeps(c, k, Callback(k))
    decreases |k.script|, 0
  {
    if k.script != [] {
      UserCallsInv(c, k.(script := k.script[1..]), k.script[0]);
    }
  }

  lemma {:induction false} UserCallsInv(c: Config, k: Core, calls: seq<UserCall>)
    requires CoreInv(c, k)
    ensures Keeps(c, k, UserCalls(k, calls))
    decreases |k.script|, 4, |calls|
  {
    if calls != [] {
      PerformInv(c, k, calls[0]);
      UserCallsInv(c, Perform(k, calls[0]), calls[1..]);
    }
  }

  lemma {:induction false} PerformInv(c: Config, k: Core, call: UserCall)
    requires CoreInv(c, k)
    ensures Keeps(c, k, Perform(k, call))
    decreases |k.script|, 3
  {
    match call
    case CallClose => CloseInv(c, k);
    case CallSend(text, data) =>
      if k.state == Connected {
        FrameInv(c, k, if text then TEXT_FRAME else BINARY_FRAME, data);
      }
  }

  /** Going down is always allowed. */
  lemma {:induction false} DownInv(c: Config, k: Core, s: State)
    requires CoreInv(c, k) && (s == Disconnected || s == Failed)
    ensures Keeps(c, k, Change(k, s)) && Change(k, s).state == s
    decreases |k.script|, 1
  {
    hide Legal, DataTried, CloseTried, TextTried, Untried, Reported, Callback;
    if s != k.state {
      EmitTrace(c, k.events, Changed(s));
      var k1 := Emit(k.(state := s), Changed(s));
      CallbackInv(c, k1);
      CallbackWhenDown(k1);
    }
  }

  lemma {:induction false} CloseInv(c: Config, k: Core)
    requires CoreInv(c, k)
    ensures Keeps(c, k, Close(k))
    decreases |k.script|, 2
  {
    if k.state == Connected && !k.closeSent {
      var k0 := k.(closeSent := true);
      FrameInv(c, k, CLOSE, []);
      var o := Outgoing(k0, SentFrame(CLOSE, []));
      if o.Threw? {
        DownInv(c, o.w, Disconnected);
      }
    }
  }

  /** The transport comes up. */
  lemma {:induction false} UpInv(c: Config, k: Core)
    requires Legal(c, k.events) && k.state == Reported(k.events) == Connecting && TextTried(k.events)
    requires Recorded(k)
    requires |k.partial| <= c.maxMessageSize && k.outstandingPings == 0
    ensures CoreInv(c, Change(k, Connected))
  {
    hide Legal, DataTried, CloseTried, TextTried, Untried, Reported, Callback;
    EmitTrace(c, k.events, Changed(Connected));
    CallbackInv(c, Emit(k.(state := Connected), Changed(Connected)));
  }

  lemma {:induction false} DeliverInv(c: Config, k: Core, opcode: byte, data: seq<byte>)
    requires CoreInv(c, k) && Opened(k) && |data| <= c.maxMessageSize
    ensures Keeps(c, k, Deliver(k, opcode, data))
  {
    hide Legal, DataTried, CloseTried, TextTried, Untried, Reported, Callback;
    EmitTrace(c, k.events, Delivered(opcode == TEXT_FRAME, data));
    CallbackInv(c, Emit(k, Delivered(opcode == TEXT_FRAME, data)));
  }

  // -------------------------------------------------------------- receiving

  lemma {:induction false} RecvDataInv(c: Config, k: Core, f: Frame)
    requires CoreInv(c, k) && Opened(k)
    ensures Keeps(c, k, RecvData(c, k, f))
  {
    hide Deliver, Legal;
    DeliverInv(c, k, k.partialOpcode, k.partial);
    var k1 := Flush(k).(partialOpcode := f.opcode);
    assert Keeps(c, k, k1);
    DeliverInv(c, k1, f.opcode, Take(c.maxMessageSize, f.payload));
  }

  lemma {:induction false} RecvContinuationInv(c: Config, k: Core, f: Frame)
    requires CoreInv(c, k) && Opened(k)
    ensures Keeps(c, k, RecvContinuation(c, k, f))
  {
    hide Deliver, Legal;
    var data := Take(c.maxMessageSize, k.partial + f.payload);
    DeliverInv(c, k.(partial := data), k.partialOpcode, data);
  }

  lemma {:induction false} RecvFrameInv(c: Config, k: Core, f: Frame)
    requires CoreInv(c, k) && Opened(k) && k.state != Connecting
    ensures Keeps(c, k, RecvFrame(c, k, f).w) && RecvFrame(c, k, f).w.state != Connecting
  {
    hide Legal, RecvData, RecvContinuation, Close, Change, Outgoing;
    RecvFrameStates(c, k, f);
    RecvDataInv(c, k, f);
    RecvContinuationInv(c, k, f);
    CloseInv(c, k);
    DownInv(c, Close(k), Disconnected);
    FrameInv(c, k, PONG, f.payload);
  }

  lemma {:induction false} DrainInv(c: Config, k: Core, buffer: seq<byte>)
    requires CoreInv(c, k) && Opened(k) && k.state != Connecting
    ensures Keeps(c, k, Drain(c, k, buffer).w.core)
    decreases |buffer|
  {
    hide Legal, RecvFrame, Parse;
    var p := Parse(buffer, c.maxMessageSize);
    if p.Got? {
      RecvFrameInv(c, k, p.frame);
      var o := RecvFrame(c, k, p.frame);
      if o.Ok? && p.total <= |buffer| {
        DrainInv(c, o.w, buffer[p.total..]);
      }
    }
  }

  lemma {:induction false} FailInv(c: Config, k: Core)
    requires CoreInv(c, k)
    ensures CoreInv(c, Fail(k))
  {
    hide Legal, Change, Callback;
    DownInv(c, k, Disconnected);
    DownInv(c, k, Failed);
    if k.state == Connected {
      LostInv(c, Change(k, Disconnected));
    }
  }

  lemma {:induction false} LostInv(c: Config, k: Core)
    requires CoreInv(c, k) && k.state == Disconnected
    ensures CoreInv(c, Callback(Emit(k, Lost)))
  {
    hide Legal, DataTried, CloseTried, TextTried, Untried, Reported, Callback;
    EmitTrace(c, k.events, Lost);
    CallbackInv(c, Emit(k, Lost));
  }

  lemma {:induction false} IdleInv(c: Config, k: Core)
    requires CoreInv(c, k) && k.state == Connected
    ensures CoreInv(c, Idle(c, k).w)
  {
    FrameInv(c, k, PING, PING_PAYLOAD);
    var o := Outgoing(k, SentFrame(PING, PING_PAYLOAD));
    if o.Ok? {
      AddPingInv(c, o.w);
    }
  }

  /** The count may be over the limit for as long as it takes to fail. */
  lemma {:induction false} AddPingInv(c: Config, k: Core)
    requires CoreInv(c, k) && k.state == Connected
    ensures CoreInv(c, AddPing(c, k))
  {
    hide Legal, DataTried, CloseTried, TextTried, Untried, Reported, Callback;
    var k1 := k.(outstandingPings := k.outstandingPings + 1);
    if c.maxOutstandingPings > 0 && k1.outstandingPings > c.maxOutstandingPings {
      EmitTrace(c, k.events, Changed(Failed));
      CallbackInv(c, Emit(k1.(state := Failed), Changed(Failed)));
    }
  }

  // -------------------------------------------------------------- handshakes

  lemma {:induction false} WelcomeInv(c: Config, k: Core)
    requires CoreInv(c, k) && k.state == Connecting && !c.client
    ensures var o := Welcome(c, k);
            if o.Ok? then CoreInv(c, o.w) else CoreInv(c, Fail(o.w))
  {
    hide Legal, DataTried, CloseTried, TextTried, Untried, Reported, Callback, Change, Fail;
    var e := SentText(Handshake.ResponseText(Accept(c, k), k.handshake.protocols));
    EmitTrace(c, k.events, e);
    EmitTrace(c, k.events, Thrown(e));
    var o := Outgoing(k, e);
    if o.Ok? {
      UpInv(c, o.w);
    } else {
      TriedFailsInv(c, o.w);
    }
  }

  /** A server that has tried to answer and has not come up can only fail. */
  lemma {:induction false} TriedFailsInv(c: Config, k: Core)
    requires Legal(c, k.events) && k.state == Reported(k.events) == Connecting && (Opened(k) ==> TextTried(k.events))
    requires Recorded(k)
    requires |k.partial| <= c.maxMessageSize
    ensures CoreInv(c, Fail(k))
  {
    hide Legal, DataTried, CloseTried, TextTried, Untried, Reported, Callback;
    EmitTrace(c, k.events, Changed(Failed));
    CallbackInv(c, Emit(k.(state := Failed), Changed(Failed)));
  }

  lemma {:induction false} RefusedInv(c: Config, k: Core, code: nat)
    requires CoreInv(c, k) && k.state == Connecting && !c.client
    ensures CoreInv(c, Fail(Outgoing(k, SentError(code)).w))
  {
    hide Legal, DataTried, CloseTried, TextTried, Untried, Reported, Callback, Change, Fail;
    var e := SentError(code);
    EmitTrace(c, k.events, e);
    EmitTrace(c, k.events, Thrown(e));
    TriedFailsInv(c, Outgoing(k, e).w);
  }

  /** What throws while shaking hands is a failure, which the invariant is stated after. */
  lemma {:induction false} ShakeInv(c: Config, k: Core, buffer: seq<byte>)
    requires CoreInv(c, k) && k.state == Connecting
    ensures var o := Shake(c, k, buffer).0;
            if o.Ok? then CoreInv(c, o.w) else CoreInv(c, Fail(o.w))
  {
    hide Fail, Change, Legal, Welcome;
    if c.client {
      UpInv(c, k);
      FailInv(c, k);
    } else {
      var r := Handshake.ParseRequest(k.handshake, Text(buffer));
      if !r.Wait? {
        var k1 := k.(handshake := r.fields);
        assert CoreInv(c, k1);
        if r.Refused? {
          RefusedInv(c, k1, r.code);
        } else {
          WelcomeInv(c, k1);
        }
      }
    }
  }

  lemma {:induction false} AbsorbInv(c: Config, w: Ws)
    requires CoreInv(c, w.core) && w.core.state == Connected
    ensures CoreInv(c, Absorb(c, w).w.core)
  {
    DrainInv(c, w.core, w.buffer[Min(w.ignoreLength, |w.buffer|)..]);
  }

  lemma {:induction false} ReceiveInv(c: Config, w: Ws, m: seq<byte>)
    requires Inv(c, w) && Live(w.core)
    ensures var o := Receive(c, w, m);
            if o.Ok? then CoreInv(c, o.w.core) else CoreInv(c, Fail(o.w.core))
  {
    hide CoreInv, Shake, Absorb, Idle, Fail;
    var buffer := w.buffer + m;
    if w.core.state == Connecting {
      ShakeInv(c, w.core, buffer);
    }
    var (o, n) := if w.core.state == Connecting then Shake(c, w.core, buffer) else (Ok(w.core), 0);
    var w1 := Ws(o.w, buffer[n..], w.ignoreLength);
    if o.Ok? && w1.core.state == Connected {
      IdleInv(c, w1.core);
      FailInv(c, Idle(c, w1.core).w);
      AbsorbInv(c, w1);
      FailInv(c, Absorb(c, w1).w.core);
    }
  }

  // -------------------------------------------------------------------- runs

  /** A call on the transport; every callback it makes may call back as the script says. */
  datatype Call =
    | CallUser(call: UserCall)
    | CallIncoming(m: Option<seq<byte>>)
    | CallTimeout

  function Step(c: Config, w: Ws, a: Call): Ws {
    match a
    case CallUser(call) => Quiet(w.(core := Perform(w.core, call)))
    case CallIncoming(m) => Incoming(c, w, m)
    case CallTimeout => Quiet(w.(core := CloseTimeout(w.core)))
  }

  function Run(c: Config, w: Ws, calls: seq<Call>): Ws {
    if calls == [] then w else Step(c, Run(c, w, calls[..|calls| - 1]), calls[|calls| - 1])
  }

  /** A transport after its one start, whether or not the request could be sent. */
  function Started(c: Config, k: Core, nonce: seq<byte>): Ws {
    Ws(Start(c, k, nonce).w, [], 0)
  }

  predicate IsFresh(k: Core) {
    k == Fresh(k.handshake, k.partialOpcode, k.lower, k.script)
  }

  lemma {:induction false} StartedInv(c: Config, k: Core, nonce: seq<byte>)
    requires IsFresh(k)
    ensures Inv(c, Started(c, k, nonce))
  {
    hide Legal, Handshake.RequestText, DataTried, CloseTried, TextTried, Untried, Outgoing;
    CallbackWhenDown(Emit(k.(state := Connecting), Changed(Connecting)));
    var k1 := Change(k, Connecting);
    assert [] + [Changed(Connecting)] == [Changed(Connecting)];
    FirstEvent(c);
    if c.client {
      var g := k1.handshake.(key := Handshake.Base64.Encode(nonce));
      AskedInv(c, k1.(handshake := g), SentText(Handshake.RequestText(g)));
    }
  }

  lemma {:induction false} FirstEvent(c: Config)
    ensures var v := [Changed(Connecting)];
            && Legal(c, v) && Reported(v) == Connecting && Untried(v) && !CloseTried(v) && Changed(Connected) !in v
            && DataTried(v) == []
  {
    EmitTrace(c, [], Changed(Connecting));
  }

  lemma {:induction false} AskedInv(c: Config, k: Core, e: Event)
    requires c.client && e.SentText? && k.events == [Changed(Connecting)] && k.state == Connecting
    requires k.partial == [] && k.outstandingPings == 0 && !k.closeSent && k.asked == []
    ensures CoreInv(c, Outgoing(k, e).w)
  {
    hide Legal, DataTried, CloseTried, TextTried, Untried, Reported, WsSpec.Outgoing;
    OutgoingCases(k, e);
    FirstEvent(c);
    EmitTrace(c, k.events, e);
    EmitTrace(c, k.events, Thrown(e));
  }

  lemma {:induction false} IncomingInv(c: Config, w: Ws, m: Option<seq<byte>>)
    requires Inv(c, w)
    ensures CoreInv(c, Incoming(c, w, m).core)
  {
    hide CoreInv, Receive, Fail;
    if Live(w.core) {
      FailInv(c, w.core);
      if m.Some? {
        ReceiveInv(c, w, m.value);
      }
    }
  }

  lemma {:induction false} IncomingWellFormed(c: Config, w: Ws, m: Option<seq<byte>>)
    requires WellFormed(w)
    ensures WellFormed(Incoming(c, w, m))
  {
    if m.Some? && m.value != [] {
      FeedKeepsWellFormed(c, w, m.value);
    } else if Live(w.core) {
      hide Fail, Shake;
      FailDown(w.core);
      if m.Some? {
        NothingReceived(c, w);
        FailDown(Receive(c, w, []).w.core);
      }
    }
  }

  lemma {:induction false} NothingReceived(c: Config, w: Ws)
    requires WellFormed(w) && Live(w.core)
    ensures var o := Receive(c, w, []);
            o.Ok? ==> (o.w.ignoreLength > 0 ==> o.w.buffer == []) && (o.w.core.state != Connected && Live(o.w.core) ==> o.w.ignoreLength == 0)
  {
    hide Shake, Idle;
    if w.core.state == Connecting {
      ShakeCases(c, w.core, w.buffer + []);
    }
    assert (w.buffer + [])[0..] == w.buffer;
    var k := if w.core.state == Connecting then Shake(c, w.core, w.buffer + []).0.w else w.core;
    if k.state == Connected {
      IdleStates(c, k);
    }
  }

  lemma {:induction false} IdleStates(c: Config, k: Core)
    requires k.state == Connected
    ensures Idle(c, k).w.state in {Connected, Failed}
  {
    hide AddPing;
    AddPingStates(c, Outgoing(k, SentFrame(PING, PING_PAYLOAD)).w);
  }

  lemma {:induction false} StepInv(c: Config, w: Ws, a: Call)
    requires Inv(c, w)
    ensures Inv(c, Step(c, w, a))
  {
    hide Legal, Perform, Incoming, Change;
    match a
    case CallUser(call) =>
      PerformInv(c, w.core, call);
      PerformWellFormed(w, call);
    case CallIncoming(m) =>
      IncomingInv(c, w, m);
      IncomingWellFormed(c, w, m);
    case CallTimeout => DownInv(c, w.core.(timer := false), Disconnected);
  }

  lemma {:induction false} PerformWellFormed(w: Ws, call: UserCall)
    requires WellFormed(w)
    ensures WellFormed(Quiet(w.(core := Perform(w.core, call))))
  {
    CloseStates(w.core);
  }

  /** Every state of every run is as it should be. */
  lemma {:induction false} RunInv(c: Config, k: Core, nonce: seq<byte>, calls: seq<Call>)
    requires IsFresh(k)
    ensures Inv(c, Run(c, Started(c, k, nonce), calls))
    decreases |calls|
  {
    if calls == [] {
      StartedInv(c, k, nonce);
    } else {
      var init := calls[..|calls| - 1];
      RunInv(c, k, nonce, init);
      StepInv(c, Run(c, Started(c, k, nonce), init), calls[|calls| - 1]);
    }
  }

  // ------------------------------------------------- what a legal trace means

  lemma {:induction false} LegalPrefix(c: Config, v: seq<Event>, i: nat)
    requires Legal(c, v) && i < |v|
    ensures Legal(c, v[..i]) && MayFollow(c, v[..i], v[i])
    decreases |v|
  {
    var init := v[..|v| - 1];
    if i < |v| - 1 {
      LegalPrefix(c, init, i);
      assert init[..i] == v[..i];
    }
  }

  /** After the transport has gone down it stays down. */
  lemma {:induction false} DownForGood(c: Config, v: seq<Event>, i: nat)
    requires Legal(c, v) && i < |v| && (v[i] == Changed(Disconnected) || v[i] == Changed(Failed))
    ensures Reported(v) == Disconnected || Reported(v) == Failed
    decreases |v|
  {
    if i < |v| - 1 {
      var init := v[..|v| - 1];
      DownForGood(c, init, i);
      assert init[i].Changed?;
    }
  }

  /**
   * The handshake is sent once, first; at most one CLOSE is sent; no frame is sent and no message
   * delivered before the connection; no way back up; one connection. A send that threw counts as one.
   */
  ghost predicate Orderly(v: seq<Event>) {
    && (forall i, j :: 0 <= i < j < |v| && IsTry(v[i]) && IsTry(v[j]) ==>
          What(v[j]).SentFrame? && !(IsClose(What(v[i])) && IsClose(What(v[j]))) && !What(v[i]).SentError?)
    && (forall i :: 0 <= i < |v| && ((IsTry(v[i]) && What(v[i]).SentFrame?) || v[i].Delivered?) ==> Changed(Connected) in v[..i])
    && (forall i :: 0 <= i < |v| && IsTry(v[i]) && What(v[i]).SentFrame? ==> TextTried(v[..i]))
    && (forall i, j :: 0 <= i < j < |v| && v[i].Changed? && v[i].state in {Disconnected, Failed} && v[j].Changed?
                       ==> v[j].state in {Disconnected, Failed})
    && (forall i, j :: 0 <= i < j < |v| && v[i].Changed? && v[j].Changed? && v[j].state in {Connecting, Connected}
                       ==> v[i].state == Connecting && v[j].state == Connected)
  }

  /** After an error reply nothing is sent. */
  lemma {:induction false} ErrorIsLast(c: Config, v: seq<Event>, i: nat)
    requires Legal(c, v) && i < |v| && IsTry(v[i]) && What(v[i]).SentError?
    ensures !TextTried(v)
    decreases |v|
  {
    var init, last := v[..|v| - 1], v[|v| - 1];
    assert forall j :: 0 <= j < |init| ==> init[j] == v[j];
    if i < |v| - 1 {
      ErrorIsLast(c, init, i);
      assert IsTry(init[i]);
    }
  }

  lemma {:induction false} SecondTry(c: Config, v: seq<Event>, i: nat, j: nat)
    requires Legal(c, v) && i < j < |v| && IsTry(v[i]) && IsTry(v[j])
    ensures What(v[j]).SentFrame? && !(IsClose(What(v[i])) && IsClose(What(v[j]))) && !What(v[i]).SentError?
  {
    LegalPrefix(c, v, j);
    assert v[..j][i] == v[i];
    if What(v[i]).SentError? {
      ErrorIsLast(c, v[..j], i);
    }
  }

  lemma {:induction false} LegalIsOrderly(c: Config, v: seq<Event>)
    requires Legal(c, v)
    ensures Orderly(v)
  {
    hide Legal;
    forall i, j | 0 <= i < j < |v| && IsTry(v[i]) && IsTry(v[j])
      ensures What(v[j]).SentFrame? && !(IsClose(What(v[i])) && IsClose(What(v[j]))) && !What(v[i]).SentError?
    {
      SecondTry(c, v, i, j);
    }
    forall i | 0 <= i < |v| && ((IsTry(v[i]) && What(v[i]).SentFrame?) || v[i].Delivered?)
      ensures Changed(Connected) in v[..i] && (IsTry(v[i]) ==> TextTried(v[..i]))
    {
      LegalPrefix(c, v, i);
    }
    forall i, j | 0 <= i < j < |v| && v[i].Changed? && v[i].state in {Disconnected, Failed} && v[j].Changed?
      ensures v[j].state in {Disconnected, Failed}
    {
      LegalPrefix(c, v, j);
      assert v[..j][i] == v[i];
      DownForGood(c, v[..j], i);
    }
    forall i, j | 0 <= i < j < |v| && v[i].Changed? && v[j].Changed? && v[j].state in {Connecting, Connected}
      ensures v[i].state == Connecting && v[j].state == Connected
    {
      LegalPrefix(c, v, j);
      assert v[..j][i] == v[i];
      if v[i].state != Connecting {
        ConnectingOnce(c, v[..j], i);
      }
    }
  }

  /** Once connected, the reported state is never Connecting again. */
  lemma {:induction false} ConnectingOnce(c: Config, v: seq<Event>, i: nat)
    requires Legal(c, v) && i < |v| && v[i].Changed? && v[i].state != Connecting
    ensures Reported(v) != Connecting
    decreases |v|
  {
    if i < |v| - 1 {
      var init := v[..|v| - 1];
      ConnectingOnce(c, init, i);
      assert init[i].Changed?;
    }
  }

  /** The lifecycle of a transport, over every run from one start. */
  lemma {:induction false} Lifecycle(c: Config, k: Core, nonce: seq<byte>, calls: seq<Call>)
    requires IsFresh(k)
    ensures var w := Run(c, Started(c, k, nonce), calls);
            && Orderly(w.core.events)
            && w.core.state == Reported(w.core.events)
            && |w.core.partial| <= c.maxMessageSize
            && (forall e :: e in w.core.events && e.Delivered? ==> |e.data| <= c.maxMessageSize)
            && (w.core.state == Connected && c.maxOutstandingPings > 0 ==> w.core.outstandingPings <= c.maxOutstandingPings)
            && (w.ignoreLength > 0 ==> w.buffer == [])
            && Recorded(w.core)
  {
    RunInv(c, k, nonce, calls);
    var v := Run(c, Started(c, k, nonce), calls).core.events;
    LegalIsOrderly(c, v);
    forall e | e in v && e.Delivered? ensures |e.data| <= c.maxMessageSize {
      var i :| 0 <= i < |v| && v[i] == e;
      LegalPrefix(c, v, i);
    }
  }

  // -------------------------------------------------------------- idle peers

  /** So many idle periods of the lower stream, with nothing received in between. */
  function IdleFor(c: Config, w: Ws, n: nat): Ws {
    if n == 0 then w else Incoming(c, IdleFor(c, w, n - 1), Some([]))
  }

  lemma {:induction false} IdleOnce(c: Config, w: Ws)
    requires w.core.state == Connected && w.core.lower == []
    ensures Incoming(c, w, Some([])) ==
            Quiet(w.(core := AddPing(c, Emit(w.core, SentFrame(PING, PING_PAYLOAD)))))
  {
    assert w.buffer + [] == w.buffer && w.buffer[0..] == w.buffer;
  }

  function Pings(n: nat): seq<Event> {
    seq(n, _ => SentFrame(PING, PING_PAYLOAD))
  }

  lemma {:induction false} AddPingStates(c: Config, k: Core)
    requires k.state == Connected
    ensures var owed := k.outstandingPings + 1;
            if c.maxOutstandingPings > 0 && owed > c.maxOutstandingPings then AddPing(c, k).state == Failed
            else AddPing(c, k) == k.(outstandingPings := owed)
  {
    ChangeStates(k.(outstandingPings := k.outstandingPings + 1), Failed);
  }

  lemma {:induction false} DownStays(c: Config, w: Ws, m: Option<seq<byte>>)
    requires !Live(w.core)
    ensures Incoming(c, w, m).core == w.core
  {
  }

  /**
   * A peer that stays silent is pinged once in each idle period and given up exactly when it owes more
   * than the limit; with no limit, never.
   */
  lemma {:induction false} SilentPeerFails(c: Config, w: Ws, n: nat)
    requires w.core.state == Connected && w.core.lower == []
    requires c.maxOutstandingPings > 0 ==> w.core.outstandingPings <= c.maxOutstandingPings
    ensures var k, owed := IdleFor(c, w, n).core, w.core.outstandingPings + n;
            if c.maxOutstandingPings <= 0 || owed <= c.maxOutstandingPings then
              && k.state == Connected && k.lower == [] && k.outstandingPings == owed
              && k.events == w.core.events + Pings(n)
            else k.state == Failed
    decreases n
  {
    hide Incoming, AddPing;
    if n > 0 {
      SilentPeerFails(c, w, n - 1);
      var w1 := IdleFor(c, w, n - 1);
      if w1.core.state == Connected {
        IdleOnce(c, w1);
        AddPingStates(c, Emit(w1.core, SentFrame(PING, PING_PAYLOAD)));
        assert w.core.events + Pings(n - 1) + [SentFrame(PING, PING_PAYLOAD)] == w.core.events + Pings(n);
      } else {
        DownStays(c, w1, Some([]));
      }
    }
  }
}
