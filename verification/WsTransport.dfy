/** The transport object: mutable buffers, masking in place, and the loops of the source, over a TCP transport. */
module WsTransport {
  import opened Bytes
  import opened Frames
  import opened WsSpec
  import opened WsTheorems
  import opened WsLifecycle
  import opened Handshake
  import FrameBytes
  import Tcp = TcpTransport

  /** A frame as the code passes it around: the payload is a stretch of somebody's buffer. */
  datatype FrameRef = FrameRef(fin: bool, opcode: byte, start: nat, length: nat)

  /** Are these the bytes of what was to be sent? A frame carries a key exactly when a client sends it. */
  ghost predicate Carries(bytes: seq<byte>, what: Event, client: bool) {
    match what
    case SentFrame(opcode, payload) => IsFrame(bytes, Frame(true, opcode, payload), client)
    case SentText(body) => bytes == BytesOf(body)
    case SentError(code) => bytes == BytesOf(ErrorText(code))
    case _ => false
  }

  ghost predicate IsFrame(bytes: seq<byte>, f: Frame, masked: bool) {
    Encodable(f) && exists key: Option<Key> :: IsEncoding(bytes, f, key) && key.Some? == masked
  }

  predicate IsEncoding(bytes: seq<byte>, f: Frame, key: Option<Key>) {
    bytes == Encode(f, key)
  }

  /** The messages handed to the lower transport are those of the history, in order, with the same outcomes. */
  ghost predicate Faithful(calls: seq<Tcp.Call>, events: seq<Event>, client: bool) {
    if events == [] then calls == []
    else
      var last, init := events[|events| - 1], events[..|events| - 1];
      if !IsTry(last) then Faithful(calls, init, client)
      else
        && calls != []
        && Carries(calls[|calls| - 1].message, What(last), client) && calls[|calls| - 1].ok == !last.Thrown?
        && Faithful(calls[..|calls| - 1], init, client)
  }

  lemma {:induction false} FaithfulAfter(calls: seq<Tcp.Call>, events: seq<Event>, client: bool, e: Event)
    requires Faithful(calls, events, client) && !IsTry(e)
    ensures Faithful(calls, events + [e], client)
  {
    assert (events + [e])[..|events|] == events;
  }

  lemma {:induction false} FaithfulAfterTry(calls: seq<Tcp.Call>, events: seq<Event>, client: bool, bytes: seq<byte>, e: Event)
    requires Faithful(calls, events, client) && IsTry(e) && Carries(bytes, What(e), client)
    ensures Faithful(calls + [Tcp.Call(bytes, !e.Thrown?)], events + [e], client)
  {
    var calls1 := calls + [Tcp.Call(bytes, !e.Thrown?)];
    assert (events + [e])[..|events|] == events && calls1[..|calls|] == calls;
  }

  lemma {:induction false} CarriesFrame(bytes: seq<byte>, f: Frame, key: Option<Key>)
    requires bytes == Encode(f, key) && f.fin && Encodable(f)
    ensures bytes != [] && Carries(bytes, SentFrame(f.opcode, f.payload), key.Some?)
  {
    assert IsEncoding(bytes, f, key);
  }

  /** What user code sends fits in a frame. */
  predicate Sizable(script: seq<seq<UserCall>>) {
    forall i :: 0 <= i < |script| ==> AllSizable(script[i])
  }

  predicate AllSizable(calls: seq<UserCall>) {
    forall i :: 0 <= i < |calls| ==> IsSizable(calls[i])
  }

  predicate IsSizable(call: UserCall) {
    call.CallSend? ==> |call.data| < Pow256(8)
  }

  /** The two length bytes or the eight, as an integer loaded from memory and swapped. */
  method ReadLength(a: array<byte>) returns (r: Option<(nat, nat)>)
    requires a.Length >= 2
    ensures r == ParseLength(a[..])
  {
    var length := ToNat(a[1] & 0x7F);
    if length == 0x7E {
      if a.Length - 2 < 2 {
        return None;
      }
      assert a[2..4] == a[..][2..4];
      NtohsReadsNetworkOrder(a[2..4]);
      return Some((Swap(ValueLE(a[2..4]), 2), 4));
    } else if length == 0x7F {
      if a.Length - 2 < 8 {
        return None;
      }
      assert a[2..10] == a[..][2..10];
      NtohllReadsNetworkOrder(a[2..10]);
      return Some((Htonll(ValueLE(a[2..10])), 10));
    }
    return Some((length, 2));
  }

  method ReadHead(a: array<byte>) returns (head: Head)
    ensures head == ParseHead(a[..])
  {
    if a.Length < 2 {
      return Partial;
    }
    var fin, masked, opcode := a[0] & 0x80 != 0, a[1] & 0x80 != 0, a[0] & 0x0F;
    var length := ReadLength(a);
    if length == None {
      return Partial;
    }
    var (n, cur) := length.value;
    if !masked {
      return Head(fin, opcode, None, n, cur);
    }
    if a.Length - cur < 4 {
      return Partial;
    }
    assert a[cur..cur + 4] == a[..][cur..cur + 4];
    return Head(fin, opcode, Some(a[cur..cur + 4]), n, cur + 4);
  }

  /** XOR a stretch of a buffer with a key, in place. */
  method MaskInPlace(a: array<byte>, start: nat, length: nat, key: Key)
    requires start + length <= a.Length
    modifies a
    ensures forall i :: 0 <= i < length ==> a[start + i] == old(a[start + i]) ^ key[i % 4]
    ensures a[start..start + length] == Mask(old(a[start..start + length]), key)
    ensures a[..start] == old(a[..start]) && a[start + length..] == old(a[start + length..])
  {
    for i := 0 to length
      invariant forall q :: 0 <= q < a.Length ==>
                  a[q] == if start <= q < start + i then old(a[q]) ^ key[(q - start) % 4] else old(a[q])
    {
      a[start + i] := a[start + i] ^ key[i % 4];
    }
  }

  /** The payload that begins at `at`, unmasked octet by octet with the key before it, if there is one. */
  predicate IsUnmasked(s: seq<byte>, payload: seq<byte>, at: nat) {
    && 2 <= |s| && FrameBytes.HeaderEnd(s) == at && at + |payload| <= |s|
    && forall i :: 0 <= i < |payload| ==>
      payload[i] == if FrameBytes.Masked(s) then s[at + i] ^ s[at - 4 + i % 4] else s[at + i]
  }

  lemma {:induction false} UnmaskedPayload(s: seq<byte>, limit: nat)
    ensures var p := Parse(s, limit); p.Got? ==> IsUnmasked(s, p.frame.payload, p.at)
  {
    FrameBytes.ParseOnWire(s, limit);
  }

  class WsTransport {
    const config: Config
    const mHandshake: WsHandshake
    const mLower: Tcp.TcpTransport

    var mState: State
    var mBuffer: array<byte>
    var mPartial: seq<byte>
    var mPartialOpcode: byte
    var mIgnoreLength: nat
    var mOutstandingPings: int
    var mCloseSent: bool
    var mTimer: bool

    /** The environment: what the coming callbacks call. */
    var script: seq<seq<UserCall>>
    ghost var asked: seq<Ask>
    ghost var events: seq<Event>

    ghost function Core(): WsSpec.Core
      reads this, mHandshake, mLower
    {
      WsSpec.Core(mState, mPartial, mPartialOpcode, mOutstandingPings, mCloseSent, mTimer,
                  mHandshake.Contents(), mLower.outcomes, script, asked, events)
    }

    ghost function Contents(): Ws
      reads this, mHandshake, mLower, mBuffer
    {
      Ws(Core(), mBuffer[..], mIgnoreLength)
    }

    /** The history of this object is that of the messages on the lower transport. */
    ghost predicate Sound()
      reads this, mHandshake, mLower, mLower.mSendQueue
    {
      && mHandshake.sha1 == config.sha1 && mLower.Valid() && Sizable(script)
      && Faithful(mLower.calls, events, config.client)
    }

    /** And while it is live, so is the lower transport. */
    ghost predicate Valid()
      reads this, mHandshake, mLower, mLower.mSendQueue
    {
      Sound() && (mState == Connecting || mState == Connected ==> mLower.mState == Tcp.Connected)
    }

    /** The state is one that a run leads to. */
    ghost predicate Lawful()
      reads this, mHandshake, mLower, mBuffer
    {
      WsLifecycle.Inv(config, Quiet(Contents()))
    }

    /** The opcode of a message not yet started has no initial value. */
    constructor (config: Config, handshake: WsHandshake, lower: Tcp.TcpTransport, opcode: byte, script: seq<seq<UserCall>>)
      requires handshake.sha1 == config.sha1 && lower.Valid() && lower.calls == [] && Sizable(script)
      ensures Valid() && fresh(mBuffer) && mHandshake == handshake && mLower == lower && this.config == config
      ensures Contents() == Ws(Fresh(handshake.Contents(), opcode, lower.outcomes, script), [], 0)
    {
      this.config, mHandshake, mLower := config, handshake, lower;
      mState, mBuffer := Disconnected, new byte[0];
      mPartial, mPartialOpcode, mIgnoreLength, mOutstandingPings := [], opcode, 0, 0;
      mCloseSent, mTimer := false, false;
      this.script, asked, events := script, [], [];
    }

    // -------------------------------------------------------------- primitives

    /** Hand a message to the lower transport. */
    method Outgoing(bytes: seq<byte>, ghost what: Event) returns (r: Tcp.Answer)
      requires Valid() && mLower.mState == Tcp.Connected
      requires IsSend(what) && Carries(bytes, what, config.client) && bytes != []
      modifies this`events, mLower, mLower.mSendQueue
      ensures Valid() && mLower.mState == Tcp.Connected
      ensures var o := WsSpec.Outgoing(old(Core()), what); r.Exception? == o.Threw? && Core() == o.w
      ensures r.Returned? ==> r.flushed == (mLower.mSendQueue.mQueue == [])
    {
      hide Faithful, Sizable, Carries, Tcp.Kept, Tcp.Told, Tcp.NoneEmpty, Tcp.Size;
      r := mLower.Send(bytes);
      ghost var e := if r.Exception? then Thrown(what) else what;
      FaithfulAfterTry(old(mLower.calls), events, config.client, bytes, e);
      events := events + [e];
    }

    /** The header, in the shortest form. */
    method FrameHeader(opcode: byte, key: Option<Key>, length: nat) returns (header: seq<byte>)
      requires length < Pow256(8)
      ensures header == Header(true, opcode, key, length)
    {
      hide FirstByte, SecondByte, Swap, BigEndian, LittleEndian, Htonll, Pow256;
      header := [FirstByte(true, opcode)];
      if length < 0x7E {
        header := header + [SecondByte(key.Some?, length)];
      } else if length <= 0xFFFF {
        StoreNetworkOrder(length, 2);
        header := header + [SecondByte(key.Some?, 0x7E)] + LittleEndian(Swap(length, 2), 2);
      } else {
        HtonllIsNetworkOrder(length);
        header := header + [SecondByte(key.Some?, 0x7F)] + LittleEndian(Htonll(length), 8);
      }
      if key.Some? {
        header := header + key.value;
      }
    }

    /** The payload is masked in place, in whatever buffer it lives in. */
    method SendFrame(opcode: byte, payload: array<byte>, start: nat, length: nat) returns (r: Tcp.Answer)
      requires Valid() && mLower.mState == Tcp.Connected && start + length <= payload.Length
      requires opcode < 16 && length < Pow256(8)
      modifies this`events, mLower, mLower.mSendQueue, payload
      ensures Valid() && mLower.mState == Tcp.Connected
      ensures var o := WsSpec.Outgoing(old(Core()), SentFrame(opcode, old(payload[start..start + length])));
              r.Exception? == o.Threw? && Core() == o.w
      ensures r.Returned? ==> r.flushed == (mLower.mSendQueue.mQueue == [])
      ensures payload[..start] == old(payload[..start]) && payload[start + length..] == old(payload[start + length..])
    {
      hide Faithful, Sizable, Carries, Header, WsSpec.Outgoing;
      ghost var data := payload[start..start + length];
      var key: Option<Key> := None;
      if config.client {
        var k: Key := *;
        key := Some(k);
        MaskInPlace(payload, start, length, k);
      }
      var header := FrameHeader(opcode, key, length);
      var bytes := header + payload[start..start + length];
      CarriesFrame(bytes, Frame(true, opcode, data), key);
      r := Outgoing(bytes, SentFrame(opcode, data));
    }

    // ---------------------------------------- callbacks, and what they call back

    /** A callback has been called, and calls what the script says. */
    method RunCallback()
      requires Valid()
      modifies this`mState, this`mCloseSent, this`mTimer, this`script, this`asked, this`events, mLower, mLower.mSendQueue
      ensures Valid() && Core() == Callback(old(Core())) && mLower.mState == old(mLower.mState)
      decreases |script|, 0
    {
      if script == [] {
        return;
      }
      var calls := script[0];
      ghost var goal := Callback(Core());
      script := script[1..];
      assert calls[0..] == calls;
      for i := 0 to |calls|
        invariant Valid() && UserCalls(Core(), calls[i..]) == goal && mLower.mState == old(mLower.mState)
        invariant |script| < |old(script)| && AllSizable(calls)
      {
        assert calls[i..][1..] == calls[i + 1..];
        PerformCall(calls[i]);
      }
    }

    method PerformCall(call: UserCall)
      requires Valid() && IsSizable(call)
      modifies this`mState, this`mCloseSent, this`mTimer, this`script, this`asked, this`events, mLower, mLower.mSendQueue
      ensures Valid() && Core() == Perform(old(Core()), call) && mLower.mState == old(mLower.mState)
      decreases |script|, 3
    {
      match call
      case CallClose =>
        Close();
      case CallSend(text, data) =>
        var a := new byte[|data|](i requires 0 <= i < |data| => data[i]);
        assert a[..] == data;
        var r := Send(a, text);
    }

    method ChangeState(s: State)
      requires Sound() && (s == Connecting || s == Connected ==> mLower.mState == Tcp.Connected)
      modifies this`mState, this`mCloseSent, this`mTimer, this`script, this`asked, this`events, mLower, mLower.mSendQueue
      ensures Valid() && Core() == Change(old(Core()), s) && mLower.mState == old(mLower.mState)
      decreases |script|, 1
    {
      hide Faithful, Sizable, Callback, Tcp.Kept, Tcp.Told, Tcp.NoneEmpty, Tcp.Size;
      if mState != s {
        FaithfulAfter(mLower.calls, events, config.client, Changed(s));
        mState := s;
        events := events + [Changed(s)];
        RunCallback();
      }
    }

    method Recv(opcode: byte, data: seq<byte>)
      requires Valid()
      modifies this`mState, this`mCloseSent, this`mTimer, this`script, this`asked, this`events, mLower, mLower.mSendQueue
      ensures Valid() && Core() == Deliver(old(Core()), opcode, data) && mLower.mState == old(mLower.mState)
    {
      hide Faithful, Sizable;
      ghost var e := Delivered(opcode == TEXT_FRAME, data);
      FaithfulAfter(mLower.calls, events, config.client, e);
      events := events + [e];
      RunCallback();
    }

    method Close()
      requires Valid()
      modifies this`mState, this`mCloseSent, this`mTimer, this`script, this`asked, this`events, mLower, mLower.mSendQueue
      ensures Valid() && Core() == WsSpec.Close(old(Core())) && mLower.mState == old(mLower.mState)
      ensures old(Lawful()) ==> Lawful()
      decreases |script|, 2
    {
      hide Faithful, Sizable, WsLifecycle.Inv, Callback, Tcp.Kept, Tcp.Told, Tcp.NoneEmpty, Tcp.Size, Quiet, Perform, WsSpec.Outgoing;
      if mState != Connected || mCloseSent {
        return;
      }
      mCloseSent := true;
      var none := new byte[0];
      assert none[0..0] == [];
      Pow256Is32();
      var r := SendFrame(CLOSE, none, 0, 0);
      if r.Exception? {
        ChangeState(Disconnected);
      } else {
        mTimer := true;
      }
      if old(Lawful()) {
        CloseKeepsLaw(config, old(Contents()), Contents());
      }
    }

    /** The message is masked in place, so a client's copy of it is not what it was. */
    method SendData(message: array<byte>, text: bool) returns (r: Tcp.Answer)
      requires Valid() && mState == Connected && message.Length < Pow256(8)
      modifies this`asked, this`events, mLower, mLower.mSendQueue, message
      ensures Valid() && mLower.mState == old(mLower.mState)
      ensures var o := WsSpec.Send(old(Core()), text, old(message[..])); r.Exception? == o.Threw? && Core() == o.w
      ensures r.Returned? ==> r.flushed == (mLower.mSendQueue.mQueue == [])
      ensures asked == old(asked) + [Ask(text, old(message[..]))]
    {
      hide Faithful, Sizable, WsSpec.Outgoing, Tcp.Kept, Tcp.Told, Tcp.NoneEmpty, Tcp.Size;
      assert message[0..0 + message.Length] == message[..];
      asked := asked + [Ask(text, message[..])];
      r := SendFrame(if text then TEXT_FRAME else BINARY_FRAME, message, 0, message.Length);
    }

    /** No message at all is ignored. */
    method Send(message: array?<byte>, text: bool) returns (r: Tcp.Answer)
      requires Valid() && (message != null ==> message.Length < Pow256(8))
      modifies this`asked, this`events, mLower, mLower.mSendQueue, message
      ensures Valid() && mLower.mState == old(mLower.mState)
      ensures mState != Connected ==> r.Exception? && Core() == old(Core())
      ensures message == null && mState == Connected ==> r == Tcp.Returned(false) && Core() == old(Core())
      ensures message != null ==> var o := WsSpec.Send(old(Core()), text, old(message[..])); r.Exception? == o.Threw? && Core() == o.w
      ensures message != null && r.Returned? ==> r.flushed == (mLower.mSendQueue.mQueue == [])
      ensures asked == old(asked) + (if message == null || mState != Connected then [] else [Ask(text, old(message[..]))])
      ensures (message == null || message != mBuffer) && old(Lawful()) ==> Lawful()
    {
      hide Faithful, Sizable, WsLifecycle.Inv, WsSpec.Outgoing, Tcp.Kept, Tcp.Told, Tcp.NoneEmpty, Tcp.Size, Quiet, Perform;
      if mState != Connected {
        return Tcp.Exception;
      }
      if message == null {
        return Tcp.Returned(false);
      }
      ghost var was, data := Contents(), message[..];
      r := SendData(message, text);
      if message != mBuffer && old(Lawful()) {
        SendKeepsLaw(config, was, Contents(), text, data);
      }
    }

    // ------------------------------------------------------------------ frames

    /** The frame at the front of the buffer, unmasked in place; zero when it is not complete. */
    method ParseFrame() returns (total: nat, frame: FrameRef)
      modifies mBuffer
      ensures Parse(old(mBuffer[..]), config.maxMessageSize).More? ==> total == 0 && mBuffer[..] == old(mBuffer[..])
      ensures match Parse(old(mBuffer[..]), config.maxMessageSize)
              case More => true
              case Got(f, at, n) =>
                && total == n && frame == FrameRef(f.fin, f.opcode, at, |f.payload|)
                && mBuffer[at..at + |f.payload|] == f.payload
                && mBuffer[..at] == old(mBuffer[..at]) && mBuffer[at + |f.payload|..] == old(mBuffer[at + |f.payload|..])
                && IsUnmasked(old(mBuffer[..]), mBuffer[at..at + |f.payload|], at)
    {
      hide ParseHead, Mask, IsUnmasked;
      ghost var s := mBuffer[..];
      UnmaskedPayload(s, config.maxMessageSize);
      frame := FrameRef(true, BINARY_FRAME, 0, 0);
      var head := ReadHead(mBuffer);
      if head.Partial? {
        return 0, frame;
      }
      var cur := head.size;
      var maxFrameLength := Max(MAX_CONTROL_FRAME_LENGTH, config.maxMessageSize);
      if mBuffer.Length - cur < Min(head.length, maxFrameLength) {
        return 0, frame;
      }
      var kept := if head.length > maxFrameLength then maxFrameLength else head.length;
      assert mBuffer[cur..cur + kept] == s[cur..cur + kept];
      if head.key.Some? {
        MaskInPlace(mBuffer, cur, kept, head.key.value);
      }
      return cur + head.length, FrameRef(head.fin, head.opcode, cur, kept);
    }

    method RecvData(opcode: byte, fin: bool, payload: seq<byte>)
      requires Valid()
      modifies this`mPartial, this`mPartialOpcode, this`mState, this`mCloseSent, this`mTimer, this`script,
               this`asked, this`events, mLower, mLower.mSendQueue
      ensures Valid() && mLower.mState == old(mLower.mState)
      ensures Core() == WsSpec.RecvData(config, old(Core()), Frame(fin, opcode, payload))
    {
      hide Faithful, Sizable, Callback, Tcp.Kept, Tcp.Told, Tcp.NoneEmpty, Tcp.Size;
      var size := |payload|;
      if size > config.maxMessageSize {
        size := config.maxMessageSize;
      }
      if mPartial != [] {
        Recv(mPartialOpcode, mPartial);
        mPartial := [];
      }
      mPartialOpcode := opcode;
      if fin {
        Recv(opcode, payload[..size]);
      } else {
        mPartial := mPartial + payload[..size];
        assert mPartial == payload[..size];
      }
    }

    method RecvContinuation(fin: bool, payload: seq<byte>)
      requires Valid()
      modifies this`mPartial, this`mState, this`mCloseSent, this`mTimer, this`script, this`asked, this`events,
               mLower, mLower.mSendQueue
      ensures Valid() && mLower.mState == old(mLower.mState)
      ensures Core() == WsSpec.RecvContinuation(config, old(Core()), Frame(fin, CONTINUATION, payload))
    {
      hide Faithful, Sizable, Callback;
      mPartial := mPartial + payload;
      if |mPartial| > config.maxMessageSize {
        mPartial := mPartial[..config.maxMessageSize];
      }
      assert mPartial == Take(config.maxMessageSize, old(mPartial) + payload);
      if fin {
        Recv(mPartialOpcode, mPartial);
        mPartial := [];
      }
    }

    method RecvFrame(frame: FrameRef) returns (threw: bool)
      requires Valid() && mLower.mState == Tcp.Connected
      requires frame.start + frame.length <= mBuffer.Length && frame.length < Pow256(8)
      modifies this`mPartial, this`mPartialOpcode, this`mOutstandingPings, mBuffer,
               this`mState, this`mCloseSent, this`mTimer, this`script, this`asked, this`events, mLower, mLower.mSendQueue
      ensures Valid() && mLower.mState == Tcp.Connected
      ensures var f := Frame(frame.fin, frame.opcode, old(mBuffer[frame.start..frame.start + frame.length]));
              var o := WsSpec.RecvFrame(config, old(Core()), f);
              threw == o.Threw? && Core() == o.w
      ensures mBuffer[frame.start + frame.length..] == old(mBuffer[frame.start + frame.length..])
    {
      hide WsSpec.RecvData, WsSpec.RecvContinuation, WsSpec.Close, WsSpec.Outgoing, Change, Faithful, Sizable;
      threw := false;
      var payload := mBuffer[frame.start..frame.start + frame.length];
      if frame.opcode == TEXT_FRAME || frame.opcode == BINARY_FRAME {
        RecvData(frame.opcode, frame.fin, payload);
      } else if frame.opcode == CONTINUATION {
        RecvContinuation(frame.fin, payload);
      } else if frame.opcode == PING {
        var r := SendFrame(PONG, mBuffer, frame.start, frame.length);
        threw := r.Exception?;
      } else if frame.opcode == PONG {
        mOutstandingPings := 0;
      } else if frame.opcode == CLOSE {
        Close();
        ChangeState(Disconnected);
      } else {
        Close();
      }
    }

    method AddOutstandingPing()
      requires Valid()
      modifies this`mOutstandingPings, this`mState, this`mCloseSent, this`mTimer, this`script, this`asked,
               this`events, mLower, mLower.mSendQueue
      ensures Valid() && Core() == AddPing(config, old(Core())) && mLower.mState == old(mLower.mState)
    {
      mOutstandingPings := mOutstandingPings + 1;
      if config.maxOutstandingPings > 0 && mOutstandingPings > config.maxOutstandingPings {
        ChangeState(Failed);
      }
    }

    // ---------------------------------------------------------------- incoming

    /** Take bytes off the front of the buffer. */
    method Erase(n: nat)
      requires n <= mBuffer.Length
      modifies this`mBuffer
      ensures fresh(mBuffer) && mBuffer[..] == old(mBuffer[n..])
    {
      var b := new byte[mBuffer.Length - n](i requires 0 <= i < mBuffer.Length - n reads this, mBuffer => mBuffer[n + i]);
      assert b[..] == mBuffer[n..];
      mBuffer := b;
    }

    method Append(m: seq<byte>)
      modifies this`mBuffer
      ensures fresh(mBuffer) && mBuffer[..] == old(mBuffer[..]) + m
    {
      var all := mBuffer[..] + m;
      var b := new byte[|all|](i requires 0 <= i < |all| => all[i]);
      assert b[..] == all;
      mBuffer := b;
    }

    /** Parse and handle the frame at the front; only its payload changes in the buffer. */
    method TakeFrame() returns (len: nat, threw: bool)
      requires Valid() && mLower.mState == Tcp.Connected
      modifies this`mPartial, this`mPartialOpcode, this`mOutstandingPings, mBuffer,
               this`mState, this`mCloseSent, this`mTimer, this`script, this`asked, this`events, mLower, mLower.mSendQueue
      ensures Valid() && mLower.mState == Tcp.Connected
      ensures match Parse(old(mBuffer[..]), config.maxMessageSize)
              case More => len == 0 && !threw && Contents() == old(Contents())
              case Got(f, at, total) =>
                var o := WsSpec.RecvFrame(config, old(Core()), f);
                && len == total && threw == o.Threw? && Core() == o.w
                && mBuffer[at + |f.payload|..] == old(mBuffer[at + |f.payload|..])
    {
      hide WsSpec.RecvFrame, Faithful, Sizable;
      ghost var s := mBuffer[..];
      ParsedFits(s, config.maxMessageSize);
      var frame;
      len, frame := ParseFrame();
      if len == 0 {
        return len, false;
      }
      assert mBuffer[frame.start..frame.start + frame.length] == Parse(s, config.maxMessageSize).frame.payload;
      threw := RecvFrame(frame);
    }

    /** One round of the parse loop. */
    method ReadFrame() returns (threw: bool, more: bool)
      requires Valid() && mLower.mState == Tcp.Connected && mIgnoreLength == 0
      modifies this, mBuffer, mLower, mLower.mSendQueue
      ensures Valid() && mLower.mState == Tcp.Connected && (mBuffer == old(mBuffer) || fresh(mBuffer))
      ensures threw || more ==> mIgnoreLength == 0
      ensures more ==> !threw && mBuffer.Length + 2 <= old(mBuffer.Length)
      ensures match Parse(old(mBuffer[..]), config.maxMessageSize)
              case More => !threw && !more && Contents() == old(Contents())
              case Got(f, _, total) =>
                var o := WsSpec.RecvFrame(config, old(Core()), f);
                && threw == o.Threw? && Core() == o.w
                && (!threw ==> more == (total <= old(mBuffer.Length)))
                && (more ==> mBuffer[..] == old(mBuffer[..])[total..])
                && (!threw && !more ==> mBuffer[..] == [] && mIgnoreLength == total - old(mBuffer.Length))
    {
      hide WsSpec.RecvFrame, Faithful, Sizable;
      ghost var s := mBuffer[..];
      ghost var p := Parse(s, config.maxMessageSize);
      more := false;
      var len;
      len, threw := TakeFrame();
      if len == 0 || threw {
        return;
      }
      if len > mBuffer.Length {
        mIgnoreLength := len - mBuffer.Length;
        Erase(mBuffer.Length);
      } else {
        TailOfTail(mBuffer[..], s, p.at + |p.frame.payload|, len);
        Erase(len);
        more := true;
      }
    }

    /** The parse loop: each round uses up at least two bytes, or ends. */
    method ReadFrames() returns (threw: bool)
      requires Valid() && mLower.mState == Tcp.Connected && mIgnoreLength == 0
      modifies this, mBuffer, mLower, mLower.mSendQueue
      ensures Valid() && mLower.mState == Tcp.Connected && (mBuffer == old(mBuffer) || fresh(mBuffer))
      ensures var o := Drain(config, old(Core()), old(mBuffer[..]));
              threw == o.Threw? && Core() == o.w.core && (!threw ==> Contents() == o.w)
    {
      hide WsSpec.RecvFrame, Faithful, Sizable, Parse;
      var more := true;
      threw := false;
      ghost var goal := Drain(config, Core(), mBuffer[..]);
      while more
        invariant Valid() && mLower.mState == Tcp.Connected && (mBuffer == old(mBuffer) || fresh(mBuffer))
        invariant more ==> !threw && mIgnoreLength == 0 && Drain(config, Core(), mBuffer[..]) == goal
        invariant !more ==> threw == goal.Threw? && Core() == goal.w.core && (!threw ==> Contents() == goal.w)
        decreases more, mBuffer.Length
      {
        threw, more := ReadFrame();
      }
    }

    /** The client: wait for the server's answer. Returns how many bytes it took. */
    method AwaitResponse(text: string) returns (threw: bool, n: nat)
      requires Valid() && mLower.mState == Tcp.Connected
      modifies this`mState, this`mCloseSent, this`mTimer, this`script, this`asked, this`events, mLower, mLower.mSendQueue
      ensures Valid() && mLower.mState == Tcp.Connected
      ensures var r := OnResponse(old(Core()), ParseResponse(AcceptKey(config.sha1, old(Core()).handshake.key), text));
              threw == r.0.Threw? && Core() == r.0.w && n == r.1
    {
      hide Faithful, Sizable, Change, ParseResponse;
      var r := mHandshake.ParseHttpResponse(text);
      match r
      case Pending => return false, 0;
      case Rejected => return true, 0;
      case Opened(k) =>
        ChangeState(Connected);
        return false, k;
    }

    method SendResponse() returns (threw: bool)
      requires Valid() && mLower.mState == Tcp.Connected
      modifies this`mState, this`mCloseSent, this`mTimer, this`script, this`asked, this`events, mLower, mLower.mSendQueue
      ensures Valid() && mLower.mState == Tcp.Connected
      ensures var o := Welcome(config, old(Core())); threw == o.Threw? && Core() == o.w
    {
      hide Faithful, Sizable, Change, ResponseText;
      var response := mHandshake.GenerateHttpResponse();
      TextsNotEmpty();
      var r := Outgoing(BytesOf(response), SentText(response));
      threw := r.Exception?;
      if !threw {
        ChangeState(Connected);
      }
    }

    method SendError(code: nat)
      requires Valid() && mLower.mState == Tcp.Connected
      modifies this`events, mLower, mLower.mSendQueue
      ensures Valid() && mLower.mState == Tcp.Connected && Core() == WsSpec.Outgoing(old(Core()), SentError(code)).w
    {
      hide Faithful, Sizable, ErrorText;
      var response := mHandshake.GenerateHttpError(code);
      TextsNotEmpty();
      var r := Outgoing(BytesOf(response), SentError(code));
    }

    /** The server: wait for the client's request, and answer it. */
    method AwaitRequest(text: string) returns (threw: bool, n: nat)
      requires Valid() && mLower.mState == Tcp.Connected
      modifies mHandshake, this`mState, this`mCloseSent, this`mTimer, this`script, this`asked, this`events, mLower,
               mLower.mSendQueue
      ensures Valid() && mLower.mState == Tcp.Connected
      ensures var r := OnRequest(config, old(Core()), ParseRequest(old(Core()).handshake, text));
              threw == r.0.Threw? && Core() == r.0.w && n == r.1
    {
      hide Faithful, Sizable, WsSpec.Outgoing, Welcome, ParseRequest;
      ghost var k := Core();
      var r := mHandshake.ParseHttpRequest(text);
      match r
      case Wait =>
        return false, 0;
      case Refused(code, f) =>
        assert Core() == k.(handshake := f);
        SendError(code);
        return true, 0;
      case Accepted(m, f) =>
        assert Core() == k.(handshake := f);
        threw := SendResponse();
        return threw, m;
    }

    method TryHandshake() returns (threw: bool)
      requires Valid() && mLower.mState == Tcp.Connected
      modifies this`mBuffer, mHandshake, this`mState, this`mCloseSent, this`mTimer, this`script, this`asked,
               this`events, mLower, mLower.mSendQueue
      ensures Valid() && mLower.mState == Tcp.Connected && (mBuffer == old(mBuffer) || fresh(mBuffer))
      ensures var (o, n) := Shake(config, old(Core()), old(mBuffer[..]));
              threw == o.Threw? && Core() == o.w && (!threw ==> mBuffer[..] == old(mBuffer[..])[n..])
    {
      hide Faithful, Sizable, OnRequest, OnResponse, ParseRequest, ParseResponse;
      var n;
      var text := Text(mBuffer[..]);
      ghost var (o, used) := Shake(config, Core(), mBuffer[..]);
      if config.client {
        threw, n := AwaitResponse(text);
      } else {
        threw, n := AwaitRequest(text);
      }
      if !threw {
        Erase(n);
      }
    }

    /** Nothing came for a while: send a ping. */
    method OnIdle() returns (threw: bool)
      requires Valid() && mLower.mState == Tcp.Connected
      modifies this`mOutstandingPings, this`mState, this`mCloseSent, this`mTimer, this`script, this`asked,
               this`events, mLower, mLower.mSendQueue
      ensures Valid() && mLower.mState == Tcp.Connected
      ensures var o := Idle(config, old(Core())); threw == o.Threw? && Core() == o.w
    {
      hide Faithful, Sizable, AddPing, WsSpec.Outgoing;
      var dummy := new byte[4](_ => 0);
      assert dummy[0..4] == PING_PAYLOAD;
      Pow256Is32();
      var r := SendFrame(PING, dummy, 0, 4);
      threw := r.Exception?;
      if !threw {
        AddOutstandingPing();
      }
    }

    method ReadBytes() returns (threw: bool)
      requires Valid() && mLower.mState == Tcp.Connected
      modifies this, mBuffer, mLower, mLower.mSendQueue
      ensures Valid() && mLower.mState == Tcp.Connected && (mBuffer == old(mBuffer) || fresh(mBuffer))
      ensures var o := Absorb(config, old(Contents()));
              threw == o.Threw? && Core() == o.w.core && (!threw ==> Contents() == o.w)
    {
      hide Faithful, Sizable, Drain;
      threw := false;
      assert mBuffer[0..] == mBuffer[..];
      if mIgnoreLength > 0 {
        var len := Min(mIgnoreLength, mBuffer.Length);
        Erase(len);
        mIgnoreLength := mIgnoreLength - len;
      }
      if mIgnoreLength == 0 {
        threw := ReadFrames();
      }
    }

    /** The part of `incoming` that may throw. */
    method Process(message: seq<byte>) returns (threw: bool)
      requires Valid() && (mState == Connecting || mState == Connected)
      modifies this, mBuffer, mHandshake, mLower, mLower.mSendQueue
      ensures Valid() && mLower.mState == Tcp.Connected && (mBuffer == old(mBuffer) || fresh(mBuffer))
      ensures var o := WsSpec.Receive(config, old(Contents()), message);
              threw == o.Threw? && Core() == o.w.core && (!threw ==> Contents() == o.w)
    {
      hide Shake, Absorb, Idle, Faithful, Sizable, Tcp.Kept, Tcp.Told, Tcp.NoneEmpty, Tcp.Size;
      Append(message);
      threw := false;
      assert mBuffer[0..] == mBuffer[..];
      if mState == Connecting {
        threw := TryHandshake();
      }
      if !threw && mState == Connected {
        if message == [] {
          threw := OnIdle();
        } else {
          threw := ReadBytes();
        }
      }
    }

    /** The end of the lower stream, or of the transport after an exception. */
    method Lose()
      requires Sound()
      modifies this`mState, this`mCloseSent, this`mTimer, this`script, this`asked, this`events, mLower, mLower.mSendQueue
      ensures Valid() && Core() == Fail(old(Core())) && mLower.mState == old(mLower.mState)
    {
      hide Faithful, Sizable, Callback;
      if mState == Connected {
        ChangeState(Disconnected);
        FaithfulAfter(mLower.calls, events, config.client, Lost);
        events := events + [Lost];
        RunCallback();
      } else {
        ChangeState(Failed);
      }
    }

    /** Bytes from below; none of them when idle; no message when the lower stream has ended. */
    method Incoming(message: Option<seq<byte>>)
      requires Valid()
      modifies this, mBuffer, mHandshake, mLower, mLower.mSendQueue
      ensures Valid() && (mBuffer == old(mBuffer) || fresh(mBuffer)) && mLower.mState == old(mLower.mState)
      ensures Quiet(Contents()) == WsSpec.Incoming(config, old(Contents()), message)
      ensures old(Lawful()) ==> Lawful()
    {
      Consume(message);
      if old(Lawful()) {
        IncomingKeepsLaw(config, old(Contents()), Contents(), message);
      }
    }

    method Consume(message: Option<seq<byte>>)
      requires Valid()
      modifies this, mBuffer, mHandshake, mLower, mLower.mSendQueue
      ensures Valid() && (mBuffer == old(mBuffer) || fresh(mBuffer)) && mLower.mState == old(mLower.mState)
      ensures Quiet(Contents()) == WsSpec.Incoming(config, old(Contents()), message)
    {
      hide Faithful, Sizable, Fail, WsSpec.Receive;
      if mState != Connecting && mState != Connected {
        return;
      }
      ghost var o := if message.Some? then WsSpec.Receive(config, Contents(), message.value) else Threw(Contents());
      if message.Some? {
        var threw := Process(message.value);
        if !threw {
          return;
        }
      }
      Lose();
      LostIsQuiet(o.w, Contents());
    }

    // ------------------------------------------------------------- other calls

    /** The nonce is the random part of the key. */
    method Start(nonce: seq<byte>) returns (threw: bool)
      requires Valid() && mLower.mState == Tcp.Connected
      modifies mHandshake, this`mState, this`mCloseSent, this`mTimer, this`script, this`asked, this`events, mLower,
               mLower.mSendQueue
      ensures Valid() && mLower.mState == Tcp.Connected
      ensures var o := WsSpec.Start(config, old(Core()), nonce); threw == o.Threw? && Core() == o.w
      ensures old(IsFresh(Core()) && mBuffer[..] == [] && mIgnoreLength == 0) ==> Lawful()
    {
      hide Faithful, Sizable, Change, RequestText, WsSpec.Outgoing, WsLifecycle.Inv;
      ghost var was := Contents();
      threw := false;
      ChangeState(Connecting);
      if config.client {
        var request := mHandshake.GenerateHttpRequest(nonce);
        TextsNotEmpty();
        var r := Outgoing(BytesOf(request), SentText(request));
        threw := r.Exception?;
      }
      if IsFresh(was.core) && was.buffer == [] && was.ignoreLength == 0 {
        StartIsLawful(config, was, Contents(), nonce);
      }
    }

    /** The task scheduled by `Close` for ten seconds later. */
    method CloseTimeout()
      requires Valid() && mTimer
      modifies this`mState, this`mCloseSent, this`mTimer, this`script, this`asked, this`events, mLower, mLower.mSendQueue
      ensures Valid() && Core() == WsSpec.CloseTimeout(old(Core())) && mLower.mState == old(mLower.mState)
      ensures old(Lawful()) ==> Lawful()
    {
      hide Faithful, Sizable, Change, WsLifecycle.Inv;
      mTimer := false;
      ChangeState(Disconnected);
      if old(Lawful()) {
        TimeoutKeepsLaw(config, old(Contents()), Contents());
      }
    }

    /** The lower transport can write again, or finds its socket broken and ends. */
    method LowerWritable()
      requires Valid()
      modifies this, mBuffer, mHandshake, mLower, mLower.mSendQueue
      ensures Valid() && (mBuffer == old(mBuffer) || fresh(mBuffer))
      ensures mLower.mState == old(mLower.mState) ==> Contents() == old(Contents())
      ensures mLower.mState != old(mLower.mState) ==> mLower.mState == Tcp.Disconnected
      ensures mLower.mState != old(mLower.mState) ==> Quiet(Contents()) == WsSpec.Incoming(config, old(Contents()), None)
      ensures old(Lawful()) ==> Lawful()
    {
      hide Faithful, Sizable, Fail, WsLifecycle.Inv;
      mLower.OnWritable();
      if mLower.mState == Tcp.Disconnected && (mState == Connecting || mState == Connected) {
        Lose();
        LostIsQuiet(old(Contents()), Contents());
        if old(Lawful()) {
          IncomingKeepsLaw(config, old(Contents()), Contents(), None);
        }
      }
    }
  }

  lemma {:induction false} TextsNotEmpty()
    ensures forall f: Fields :: BytesOf(RequestText(f)) != []
    ensures forall accept, protocols :: BytesOf(ResponseText(accept, protocols)) != []
    ensures forall code: nat :: BytesOf(ErrorText(code)) != []
  {
  }

  /** A call keeps the invariant of runs. */
  lemma {:induction false} CallKeepsLaw(c: Config, w: Ws, w1: Ws, call: UserCall)
    requires WsLifecycle.Inv(c, Quiet(w)) && w1 == w.(core := Perform(w.core, call))
    ensures WsLifecycle.Inv(c, Quiet(w1))
  {
    hide Perform, Legal;
    StepInv(c, Quiet(w), CallUser(call));
    if !Live(w.core) {
      PerformWhenDown(w.core, call);
    }
  }

  lemma {:induction false} CloseKeepsLaw(c: Config, w: Ws, w1: Ws)
    requires WsLifecycle.Inv(c, Quiet(w)) && w1 == w.(core := WsSpec.Close(w.core))
    ensures WsLifecycle.Inv(c, Quiet(w1))
  {
    hide WsLifecycle.Inv, Quiet, WsSpec.Close;
    CallKeepsLaw(c, w, w1, CallClose);
  }

  lemma {:induction false} SendKeepsLaw(c: Config, w: Ws, w1: Ws, text: bool, data: seq<byte>)
    requires WsLifecycle.Inv(c, Quiet(w)) && w1 == w.(core := WsSpec.Send(w.core, text, data).w)
    ensures WsLifecycle.Inv(c, Quiet(w1))
  {
    hide WsLifecycle.Inv, Quiet;
    CallKeepsLaw(c, w, w1, CallSend(text, data));
  }

  lemma {:induction false} PerformWhenDown(k: WsSpec.Core, call: UserCall)
    requires !Live(k)
    ensures Perform(k, call) == k
  {
  }

  lemma {:induction false} IncomingKeepsLaw(c: Config, w: Ws, w1: Ws, m: Option<seq<byte>>)
    requires WsLifecycle.Inv(c, Quiet(w)) && Quiet(w1) == WsSpec.Incoming(c, w, m)
    ensures WsLifecycle.Inv(c, Quiet(w1))
  {
    hide WsLifecycle.CoreInv;
    IncomingInv(c, Quiet(w), m);
    IncomingWellFormed(c, Quiet(w), m);
    SameWhenQuiet(c, w, m);
  }

  lemma {:induction false} SameWhenQuiet(c: Config, w: Ws, m: Option<seq<byte>>)
    ensures WsSpec.Incoming(c, Quiet(w), m) == WsSpec.Incoming(c, w, m)
  {
    hide Settle, Receive;
  }

  lemma {:induction false} TimeoutKeepsLaw(c: Config, w: Ws, w1: Ws)
    requires WsLifecycle.Inv(c, Quiet(w)) && w1 == w.(core := WsSpec.CloseTimeout(w.core))
    ensures WsLifecycle.Inv(c, Quiet(w1))
  {
    hide Change, Legal;
    if w.core.timer {
      DownInv(c, w.core.(timer := false), Disconnected);
      ChangeStates(w.core.(timer := false), Disconnected);
    }
  }

  lemma {:induction false} StartIsLawful(c: Config, w: Ws, w1: Ws, nonce: seq<byte>)
    requires IsFresh(w.core) && w1 == Ws(WsSpec.Start(c, w.core, nonce).w, [], 0)
    ensures WsLifecycle.Inv(c, Quiet(w1))
  {
    hide WsSpec.Start, WsLifecycle.CoreInv;
    StartedInv(c, w.core, nonce);
  }

  /** A transport that has failed is not live, so its buffer no longer matters. */
  lemma {:induction false} LostIsQuiet(before: Ws, after: Ws)
    requires after.core == Fail(before.core)
    ensures Quiet(after) == Settle(Threw(before))
  {
    hide Fail;
    FailDown(before.core);
  }

  lemma {:induction false} TailOfTail(a: seq<byte>, b: seq<byte>, i: nat, j: nat)
    requires i <= j <= |a| == |b| && a[i..] == b[i..]
    ensures a[j..] == b[j..]
  {
    assert a[j..] == a[i..][j - i..] && b[j..] == b[i..][j - i..];
  }

  lemma {:induction false} ParsedFits(s: seq<byte>, limit: nat)
    ensures match Parse(s, limit)
            case More => true
            case Got(f, _, _) => f.opcode < 16 && |f.payload| < Pow256(8)
  {
    if |s| >= 4 { ValueBEBound(s[2..4]); }
    if |s| >= 10 { ValueBEBound(s[2..10]); }
    Pow256Is32();
  }
}
