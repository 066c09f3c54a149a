/** How the receiver cuts a byte stream into messages, whatever the chunks it arrives in. */
module WsTheorems {
  import opened Bytes
  import opened Frames
  import opened WsSpec
  import Handshake

  function Feed(c: Config, w: Ws, chunk: seq<byte>): Ws {
    Incoming(c, w, Some(chunk))
  }

  function FeedAll(c: Config, w: Ws, chunks: seq<seq<byte>>): Ws {
    if chunks == [] then w
    else Feed(c, FeedAll(c, w, chunks[..|chunks| - 1]), chunks[|chunks| - 1])
  }

  predicate NonEmpty(chunks: seq<seq<byte>>) {
    chunks != [] && forall i :: 0 <= i < |chunks| ==> chunks[i] != []
  }

  /** Between calls: what is being skipped is never buffered, and skipping only happens once connected. */
  predicate WellFormed(w: Ws) {
    && (w.ignoreLength > 0 ==> w.buffer == [])
    && (w.core.state != Connected ==> w.ignoreLength == 0)
  }

  function Extend(w: Ws, b: seq<byte>): Ws {
    w.(buffer := w.buffer + b)
  }

  // ----------------------------------------------------- what states do

  /** A live transport can be taken down from inside a callback; nothing else happens to the state there. */
  predicate SameOrDown(before: Core, after: Core) {
    after.state == before.state || (before.state == Connected && after.state == Disconnected)
  }

  lemma {:induction false} CallbackStates(k: Core)
    ensures SameOrDown(k, Callback(k))
    decreases |k.script|, 0
  {
    if k.script != [] {
      UserCallsStates(k.(script := k.script[1..]), k.script[0]);
    }
  }

  lemma {:induction false} UserCallsStates(k: Core, calls: seq<UserCall>)
    ensures SameOrDown(k, UserCalls(k, calls))
    decreases |k.script|, 3, |calls|
  {
    if calls != [] {
      CloseStates(k);
      UserCallsStates(Perform(k, calls[0]), calls[1..]);
    }
  }

  /** Unless the transport is connected, there is nothing that a callback could do to it. */
  lemma {:induction false} CallbackWhenDown(k: Core)
    requires k.state != Connected
    ensures Callback(k) == k.(script := if k.script == [] then [] else k.script[1..])
  {
    if k.script != [] {
      UserCallsWhenDown(k.(script := k.script[1..]), k.script[0]);
    }
  }

  lemma {:induction false} UserCallsWhenDown(k: Core, calls: seq<UserCall>)
    requires k.state != Connected
    ensures UserCalls(k, calls) == k
    decreases |calls|
  {
    if calls != [] {
      assert Perform(k, calls[0]) == k;
      UserCallsWhenDown(k, calls[1..]);
    }
  }

  lemma {:induction false} ChangeStates(k: Core, s: State)
    ensures SameOrDown(k.(state := s), Change(k, s))
    decreases |k.script|, 1
  {
    if k.state != s {
      CallbackStates(Emit(k.(state := s), Changed(s)));
    }
  }

  lemma {:induction false} CloseStates(k: Core)
    ensures SameOrDown(k, Close(k))
    decreases |k.script|, 2
  {
    var o := Outgoing(k.(closeSent := true), SentFrame(CLOSE, []));
    if k.state == Connected && !k.closeSent && o.Threw? {
      ChangeStates(o.w, Disconnected);
    }
  }

  lemma {:induction false} FlushStates(k: Core)
    ensures SameOrDown(k, Flush(k))
  {
    CallbackStates(Emit(k, Delivered(k.partialOpcode == TEXT_FRAME, k.partial)));
  }

  lemma {:induction false} RecvDataStates(c: Config, k: Core, f: Frame)
    ensures SameOrDown(k, RecvData(c, k, f))
  {
    hide Callback, Flush;
    FlushStates(k);
    var k1 := Flush(k).(partialOpcode := f.opcode);
    CallbackStates(Emit(k1, Delivered(f.opcode == TEXT_FRAME, Take(c.maxMessageSize, f.payload))));
  }

  lemma {:induction false} RecvContinuationStates(c: Config, k: Core, f: Frame)
    ensures SameOrDown(k, RecvContinuation(c, k, f))
  {
    hide Callback;
    var data := Take(c.maxMessageSize, k.partial + f.payload);
    CallbackStates(Emit(k.(partial := data), Delivered(k.partialOpcode == TEXT_FRAME, data)));
  }

  lemma {:induction false} RecvFrameStates(c: Config, k: Core, f: Frame)
    ensures var k1 := RecvFrame(c, k, f).w; k1.state == k.state || k1.state == Disconnected
  {
    hide Change, Close, RecvData, RecvContinuation;
    RecvDataStates(c, k, f);
    RecvContinuationStates(c, k, f);
    CloseStates(k);
    ChangeStates(Close(k), Disconnected);
  }

  // ------------------------------------------------------- splitting a chunk

  /** One frame off the front of the buffer. */
  lemma {:induction false} DrainStep(c: Config, k: Core, a: seq<byte>, p: Parsed, o: Outcome<Core>)
    requires p == Parse(a, c.maxMessageSize) && p.Got? && o == RecvFrame(c, k, p.frame)
    ensures o.Threw? ==> Drain(c, k, a) == Threw(Ws(o.w, a, 0))
    ensures o.Ok? && p.total > |a| ==> Drain(c, k, a) == Ok(Ws(o.w, [], p.total - |a|))
    ensures o.Ok? && p.total <= |a| ==> Drain(c, k, a) == Drain(c, o.w, a[p.total..])
  {
  }

  /** Reading frames, then more input, is reading frames off the longer buffer. */
  lemma {:induction false} DrainSplit(c: Config, k: Core, a: seq<byte>, b: seq<byte>)
    ensures match Drain(c, k, a)
            case Ok(w) => Drain(c, k, a + b) == Absorb(c, Extend(w, b))
            case Threw(w) => Drain(c, k, a + b) == Threw(Extend(w, b))
    decreases |a|
  {
    hide RecvFrame, Parse;
    var p := Parse(a, c.maxMessageSize);
    if p.More? {
      assert (a + b)[0..] == a + b;
    } else {
      PrefixStable(a, b, c.maxMessageSize);
      var o := RecvFrame(c, k, p.frame);
      DrainStep(c, k, a, p, o);
      DrainStep(c, k, a + b, p, o);
      if o.Ok? {
        if p.total > |a| {
          SkipSplit(c, o.w, a, b, p.total);
        } else {
          assert (a + b)[p.total..] == a[p.total..] + b;
          DrainSplit(c, o.w, a[p.total..], b);
        }
      }
    }
  }

  lemma {:induction false} SkipSplit(c: Config, k: Core, a: seq<byte>, b: seq<byte>, total: nat)
    requires total > |a|
    ensures Absorb(c, Extend(Ws(k, [], total - |a|), b)) ==
            if total > |a + b| then Ok(Ws(k, [], total - |a + b|)) else Drain(c, k, (a + b)[total..])
  {
    assert [] + b == b;
    if total <= |a| + |b| {
      assert (a + b)[total..] == b[total - |a|..];
    } else {
      assert b[|b|..] == [];
    }
  }

  lemma {:induction false} AbsorbSplit(c: Config, w: Ws, b: seq<byte>)
    ensures match Absorb(c, w)
            case Ok(w1) => Absorb(c, Extend(w, b)) == Absorb(c, Extend(w1, b))
            case Threw(w1) => Absorb(c, Extend(w, b)) == Threw(Extend(w1, b))
  {
    hide Drain;
    var n := w.ignoreLength;
    if n <= |w.buffer| {
      assert (w.buffer + b)[n..] == w.buffer[n..] + b;
      DrainSplit(c, w.core, w.buffer[n..], b);
    } else {
      assert w.buffer[|w.buffer|..] == [] && [] + b == b;
      assert w.buffer + b[Min(n - |w.buffer|, |b|)..] == w.buffer + b[Min(n - |w.buffer|, |b|)..];
      assert (w.buffer + b)[Min(n, |w.buffer| + |b|)..] == b[Min(n - |w.buffer|, |b|)..];
    }
  }

  lemma {:induction false} TextExtends(a: seq<byte>, b: seq<byte>)
    ensures Text(a + b) == Text(a) + Text(b)
  {
  }

  /** The verdict on a handshake does not depend on what follows it. */
  lemma {:induction false} ShakeStable(c: Config, k: Core, a: seq<byte>, b: seq<byte>)
    requires Shake(c, k, a) != (Ok(k), 0)
    ensures Shake(c, k, a + b) == Shake(c, k, a)
  {
    TextExtends(a, b);
    if c.client {
      Handshake.ResponseVerdictStable(Accept(c, k), Text(a), Text(b));
    } else {
      Handshake.RequestVerdictStable(k.handshake, Text(a), Text(b));
    }
  }

  /** Either the handshake is still open, or it failed, or the transport is connected and bytes were used. */
  lemma {:induction false} ShakeCases(c: Config, k: Core, a: seq<byte>)
    requires k.state == Connecting
    ensures var (o, n) := Shake(c, k, a);
            || (o == Ok(k) && n == 0)
            || (o.Threw? && o.w.state == Connecting)
            || (o.Ok? && o.w.state in {Connected, Disconnected} && n > 0)
  {
    if c.client {
      ResponseCases(k, Handshake.ParseResponse(Accept(c, k), Text(a)));
    } else {
      RequestCases(c, k, Handshake.ParseRequest(k.handshake, Text(a)));
    }
  }

  lemma {:induction false} ResponseCases(k: Core, r: Handshake.ResponseResult)
    requires k.state == Connecting && (r.Opened? ==> r.length > 0)
    ensures var (o, n) := OnResponse(k, r);
            || (o == Ok(k) && n == 0)
            || (o.Threw? && o.w.state == Connecting)
            || (o.Ok? && o.w.state in {Connected, Disconnected} && n > 0)
  {
    ChangeStates(k, Connected);
  }

  lemma {:induction false} RequestCases(c: Config, k: Core, r: Handshake.RequestResult)
    requires k.state == Connecting && (r.Accepted? ==> r.length > 0)
    ensures var (o, n) := OnRequest(c, k, r);
            || (o == Ok(k) && n == 0)
            || (o.Threw? && o.w.state == Connecting)
            || (o.Ok? && o.w.state in {Connected, Disconnected} && n > 0)
  {
    hide Change;
    if r.Accepted? {
      var k1 := k.(handshake := r.fields);
      var o := Outgoing(k1, SentText(Handshake.ResponseText(Accept(c, k1), k1.handshake.protocols)));
      ChangeStates(o.w, Connected);
    }
  }

  /** From a connected transport, reading frames leads nowhere but to Disconnected. */
  lemma {:induction false} DrainStates(c: Config, k: Core, a: seq<byte>)
    ensures var w := Drain(c, k, a).w; w.core.state == k.state || w.core.state == Disconnected
    ensures Drain(c, k, a).Ok? ==> (Drain(c, k, a).w.ignoreLength > 0 ==> Drain(c, k, a).w.buffer == [])
    decreases |a|
  {
    var p := Parse(a, c.maxMessageSize);
    if p.Got? {
      RecvFrameStates(c, k, p.frame);
      var o := RecvFrame(c, k, p.frame);
      if o.Ok? && p.total <= |a| {
        DrainStates(c, o.w, a[p.total..]);
      }
    }
  }

  lemma {:induction false} AbsorbStates(c: Config, w: Ws)
    ensures var w1 := Absorb(c, w).w; w1.core.state == w.core.state || w1.core.state == Disconnected
    ensures Absorb(c, w).Ok? ==> (Absorb(c, w).w.ignoreLength > 0 ==> Absorb(c, w).w.buffer == [])
  {
    DrainStates(c, w.core, w.buffer[Min(w.ignoreLength, |w.buffer|)..]);
  }

  lemma {:induction false} FrameBuffer(c: Config, w: Ws, b: seq<byte>)
    requires b != []
    ensures w.core.state == Connected ==> Receive(c, w, b) == Absorb(c, Extend(w, b))
  {
    assert (w.buffer + b)[0..] == w.buffer + b;
  }

  /** The two outcomes of a chunk and of one chunk more. */
  predicate Splits(c: Config, oa: Outcome<Ws>, oab: Outcome<Ws>, b: seq<byte>) {
    match oa
    case Threw(w1) => oab.Threw? && oab.w.core == w1.core
    case Ok(w1) =>
      if Live(w1.core) then oab == Receive(c, w1, b)
      else oab == Absorb(c, Extend(w1, b)) || oab == Ok(Extend(w1, b))
  }

  lemma {:induction false} AbsorbSplits(c: Config, w: Ws, b: seq<byte>)
    requires w.core.state == Connected && b != []
    ensures Splits(c, Absorb(c, w), Absorb(c, Extend(w, b)), b)
  {
    hide Drain, Shake;
    AbsorbSplit(c, w, b);
    AbsorbStates(c, w);
    FrameBuffer(c, Absorb(c, w).w, b);
  }

  lemma {:induction false} ExtendTwice(w: Ws, a: seq<byte>, b: seq<byte>)
    ensures Extend(Extend(w, a), b) == Extend(w, a + b)
  {
    assert w.buffer + (a + b) == (w.buffer + a) + b;
  }

  /** A transport whose handshake is decided by the bytes it has goes on with the bytes that follow. */
  lemma {:induction false} ReceiveShaken(c: Config, w: Ws, a: seq<byte>, o: Outcome<Core>, n: nat)
    requires w.core.state == Connecting && a != [] && Shake(c, w.core, w.buffer + a) == (o, n)
    ensures o.Threw? ==> Receive(c, w, a) == Threw(Ws(o.w, (w.buffer + a)[n..], w.ignoreLength))
    ensures o.Ok? && o.w.state == Disconnected ==> Receive(c, w, a) == Ok(Ws(o.w, (w.buffer + a)[n..], w.ignoreLength))
    ensures o.Ok? && o.w.state == Connected ==> Receive(c, w, a) == Absorb(c, Ws(o.w, (w.buffer + a)[n..], w.ignoreLength))
    ensures o == Ok(w.core) && n == 0 ==> Receive(c, w, a) == Ok(Extend(w, a))
  {
    assert (w.buffer + a)[0..] == w.buffer + a;
  }

  /** What one more chunk does, once the first one has left the transport alive. */
  lemma {:induction false} ReceiveSplit(c: Config, w: Ws, a: seq<byte>, b: seq<byte>)
    requires Live(w.core) && WellFormed(w) && a != [] && b != []
    ensures Splits(c, Receive(c, w, a), Receive(c, w, a + b), b)
  {
    hide Receive, Absorb, Shake;
    ExtendTwice(w, a, b);
    if w.core.state == Connecting {
      ShakeCases(c, w.core, w.buffer + a);
      var (o, n) := Shake(c, w.core, w.buffer + a);
      ReceiveShaken(c, w, a, o, n);
      if o == Ok(w.core) && n == 0 {
        SameBuffer(c, w, a, b);
      } else {
        ShakeStable(c, w.core, w.buffer + a, b);
        assert w.buffer + (a + b) == (w.buffer + a) + b;
        ReceiveShaken(c, w, a + b, o, n);
        assert (w.buffer + a + b)[n..] == (w.buffer + a)[n..] + b;
        if o.Ok? && o.w.state == Connected {
          AbsorbSplits(c, Ws(o.w, (w.buffer + a)[n..], w.ignoreLength), b);
        }
      }
    } else {
      FrameBuffer(c, w, a);
      FrameBuffer(c, w, a + b);
      AbsorbSplits(c, Extend(w, a), b);
    }
  }

  lemma {:induction false} SameBuffer(c: Config, w: Ws, a: seq<byte>, b: seq<byte>)
    requires w.core.state == Connecting && b != []
    ensures Receive(c, Extend(w, a), b) == Receive(c, w, a + b)
  {
    assert w.buffer + a + b == w.buffer + (a + b);
  }

  lemma {:induction false} ReceiveShape(c: Config, w: Ws, a: seq<byte>)
    requires Live(w.core) && WellFormed(w) && a != []
    ensures var o := Receive(c, w, a);
            && (Live(o.w.core) || o.w.core.state == Disconnected)
            && (o.Ok? ==> (o.w.ignoreLength > 0 ==> o.w.buffer == []))
            && (o.Ok? && o.w.core.state == Connecting ==> o.w.ignoreLength == 0)
  {
    var x := w.buffer + a;
    if w.core.state == Connecting {
      ShakeCases(c, w.core, x);
      var (o, n) := Shake(c, w.core, x);
      AbsorbStates(c, Ws(o.w, x[n..], w.ignoreLength));
    } else {
      assert x[0..] == x;
      AbsorbStates(c, Ws(w.core, x, w.ignoreLength));
    }
  }

  lemma {:induction false} FailDown(k: Core)
    ensures !Live(Fail(k))
  {
    hide Change, Callback;
    ChangeStates(k, Disconnected);
    ChangeStates(k, Failed);
    CallbackStates(Emit(Change(k, Disconnected), Lost));
  }

  lemma {:induction false} SettleShape(o: Outcome<Ws>)
    requires Live(o.w.core) || o.w.core.state == Disconnected
    ensures o.Threw? ==> !Live(Settle(o).core)
    ensures o.Ok? && Live(o.w.core) ==> Settle(o) == o.w
    ensures o.Ok? && !Live(o.w.core) ==> !Live(Settle(o).core)
    ensures o.Ok? && (o.w.ignoreLength > 0 ==> o.w.buffer == []) && (o.w.core.state == Connecting ==> o.w.ignoreLength == 0)
            ==> WellFormed(Settle(o))
    ensures o.Threw? ==> WellFormed(Settle(o))
  {
    hide Fail;
    FailDown(o.w.core);
  }

  lemma {:induction false} FeedKeepsWellFormed(c: Config, w: Ws, a: seq<byte>)
    requires WellFormed(w) && a != []
    ensures WellFormed(Feed(c, w, a))
  {
    if Live(w.core) {
      ReceiveShape(c, w, a);
      SettleShape(Receive(c, w, a));
    }
  }

  lemma {:induction false} FeedSplit(c: Config, w: Ws, a: seq<byte>, b: seq<byte>)
    requires WellFormed(w) && a != [] && b != []
    ensures if Live(Feed(c, w, a).core) then Feed(c, w, a + b) == Feed(c, Feed(c, w, a), b)
            else !Live(Feed(c, w, a + b).core)
  {
    if Live(w.core) {
      ReceiveSplit(c, w, a, b);
      ReceiveShape(c, w, a);
      ReceiveShape(c, w, a + b);
      var o, ab := Receive(c, w, a), Receive(c, w, a + b);
      SettleShape(o);
      SettleShape(ab);
      if o.Ok? && !Live(o.w.core) {
        AbsorbStates(c, Extend(o.w, b));
      }
    }
  }

  // ------------------------------------------------- chunking never matters

  /** Some proper prefix of the stream already ends the transport: a CLOSE, or a failure. */
  predicate LivesToTheEnd(c: Config, w: Ws, s: seq<byte>) {
    |s| > 1 ==> Live(Feed(c, w, s[..|s| - 1]).core)
  }

  lemma {:induction false} AlivePrefix(c: Config, w: Ws, a: seq<byte>, b: seq<byte>)
    requires WellFormed(w) && a != [] && Live(Feed(c, w, a + b).core)
    ensures Live(Feed(c, w, a).core)
  {
    if b == [] {
      assert a + b == a;
    } else {
      FeedSplit(c, w, a, b);
    }
  }

  lemma {:induction false} LivesAtPrefix(c: Config, w: Ws, s: seq<byte>, n: nat)
    requires WellFormed(w) && LivesToTheEnd(c, w, s) && 0 < n < |s|
    ensures Live(Feed(c, w, s[..n]).core)
  {
    hide Feed;
    var a, b := s[..n], s[n..|s| - 1];
    assert a + b == s[..|s| - 1];
    AlivePrefix(c, w, a, b);
  }

  lemma {:induction false} LivesToPrefix(c: Config, w: Ws, s: seq<byte>, n: nat)
    requires WellFormed(w) && LivesToTheEnd(c, w, s) && 0 < n < |s|
    ensures LivesToTheEnd(c, w, s[..n])
  {
    if n > 1 {
      assert s[..n][..|s[..n]| - 1] == s[..n - 1];
      LivesAtPrefix(c, w, s, n - 1);
    }
  }

  lemma {:induction false} ConcatNonEmpty(chunks: seq<seq<byte>>)
    requires NonEmpty(chunks)
    ensures Concat(chunks) != []
  {
    assert chunks[0] != [];
  }

  /** However a stream is cut, the result is that of the stream in one piece. */
  lemma {:induction false} ChunksAreOneChunk(c: Config, w: Ws, chunks: seq<seq<byte>>)
    requires WellFormed(w) && NonEmpty(chunks)
    requires LivesToTheEnd(c, w, Concat(chunks))
    ensures FeedAll(c, w, chunks) == Feed(c, w, Concat(chunks))
    decreases |chunks|
  {
    var init, last := chunks[..|chunks| - 1], chunks[|chunks| - 1];
    assert chunks == init + [last];
    ConcatLast(init, last);
    if init == [] {
      assert Concat(chunks) == last;
    } else {
      var s, t := Concat(chunks), Concat(init);
      ConcatNonEmpty(init);
      assert t == s[..|t|];
      LivesAtPrefix(c, w, s, |t|);
      LivesToPrefix(c, w, s, |t|);
      ChunksAreOneChunk(c, w, init);
      FeedSplit(c, w, t, last);
    }
  }

  /** Two ways of cutting the same stream cannot be told apart. */
  lemma {:induction false} ChunkingIndependence(c: Config, w: Ws, chunks: seq<seq<byte>>, chunks': seq<seq<byte>>)
    requires WellFormed(w) && NonEmpty(chunks) && NonEmpty(chunks') && Concat(chunks) == Concat(chunks')
    requires LivesToTheEnd(c, w, Concat(chunks))
    ensures FeedAll(c, w, chunks) == FeedAll(c, w, chunks')
  {
    ChunksAreOneChunk(c, w, chunks);
    ChunksAreOneChunk(c, w, chunks');
  }

  /** If the stream in one piece leaves the transport alive, so does every way of cutting it, with the same result. */
  lemma {:induction false} OnePieceIsEnough(c: Config, w: Ws, chunks: seq<seq<byte>>)
    requires WellFormed(w) && NonEmpty(chunks) && Live(Feed(c, w, Concat(chunks)).core)
    ensures FeedAll(c, w, chunks) == Feed(c, w, Concat(chunks))
  {
    var s := Concat(chunks);
    if |s| > 1 {
      assert s[..|s| - 1] + s[|s| - 1..] == s;
      AlivePrefix(c, w, s[..|s| - 1], s[|s| - 1..]);
    }
    ChunksAreOneChunk(c, w, chunks);
  }
}
