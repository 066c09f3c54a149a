/** Streams with a CLOSE in them: up to it cutting never matters, after it only what stays mute. */
module WsClose {
  import opened Bytes
  import opened Frames
  import opened WsSpec
  import opened WsTheorems
  import opened WsCuts
  import opened WsMessages
  import opened WsReader

  /** Between chunks of a connected transport: no frame is complete. */
  predicate Midway(c: Config, w: Ws) {
    w.core.state == Connected && WellFormed(w) && Between(c, ReaderOf(w))
  }

  lemma {:induction false} ReadyIsMidway(c: Config, w: Ws)
    requires Ready(w)
    ensures Midway(c, w)
  {
    NothingIn(c);
  }

  // ------------------------------------------------ up to and with the CLOSE

  /** With sends that succeed, exactly a CLOSE takes a connected transport down. */
  lemma {:induction false} DownIffClose(c: Config, k: Core, fs: seq<Wire>)
    requires k.lower == [] && k.state in {Connected, Disconnected}
    ensures var o := HandleAll(c, k, fs);
            o.Ok? && o.w.lower == [] && o.w.state == if NoClose(fs) then k.state else Disconnected
    decreases |fs|
  {
    hide RecvFrame, Truncate;
    if fs != [] {
      var f := Truncate(fs[0].frame, c.maxMessageSize);
      TruncateKeeps(fs[0].frame, c.maxMessageSize);
      RecvFrameStays(c, k, f);
      var k1 := RecvFrame(c, k, f).w;
      if f.opcode == CLOSE {
        CloseFrame(c, k, f);
      }
      DownIffClose(c, k1, fs[1..]);
      assert NoClose(fs) <==> f.opcode != CLOSE && NoClose(fs[1..]) by {
        assert forall i :: 1 <= i < |fs| ==> fs[i] == fs[1..][i - 1];
      }
    }
  }

  lemma {:induction false} FeedCore(c: Config, w: Ws, s: seq<byte>)
    requires w.core.state == Connected && w.core.lower == [] && s != []
    ensures Feed(c, w, s).core == HandleAll(c, w.core, Read(c, ReaderOf(w), s)).w
    ensures Live(Feed(c, w, s).core) <==> NoClose(Read(c, ReaderOf(w), s))
  {
    hide Feed, HandleAll, Read;
    FeedIsHandle(c, w, s);
    DownIffClose(c, w.core, Read(c, ReaderOf(w), s));
  }

  /** The condition of the chunking theorems, read off the bytes: no CLOSE is complete before the last byte. */
  lemma {:induction false} LivesIffNoClose(c: Config, w: Ws, s: seq<byte>)
    requires Midway(c, w) && w.core.lower == [] && s != []
    ensures LivesToTheEnd(c, w, s) <==> NoClose(Read(c, ReaderOf(w), s[..|s| - 1]))
  {
    hide Feed, Read;
    if |s| > 1 {
      FeedCore(c, w, s[..|s| - 1]);
    } else {
      assert s[..|s| - 1] == [];
      ReadNothing(c, ReaderOf(w));
    }
  }

  lemma {:induction false} HandleNeverThrowsAfter(c: Config, k: Core, a: seq<Wire>, b: seq<Wire>)
    requires k.lower == []
    ensures HandleAll(c, k, a).Ok? && HandleAll(c, k, a).w.lower == []
    ensures HandleAll(c, k, a + b) == HandleAll(c, HandleAll(c, k, a).w, b)
  {
    HandleNeverThrows(c, k, a);
    HandleAppend(c, k, a, b);
  }

  /** A cut of the stream handles a beginning of its frames: all of them, or with a CLOSE among them. */
  lemma {:induction false} CutHandles(c: Config, w: Ws, chunks: seq<seq<byte>>) returns (n: nat)
    requires Midway(c, w) && w.core.lower == [] && NonEmpty(chunks)
    ensures var fs := Read(c, ReaderOf(w), Concat(chunks));
            && n <= |fs| && FeedAll(c, w, chunks).core == HandleAll(c, w.core, fs[..n]).w
            && (n == |fs| || !NoClose(fs[..n]))
  {
    hide Feed, FeedAll, HandleAll, Read, Then;
    var s, r := Concat(chunks), ReaderOf(w);
    var m := CutIsPiece(c, w, chunks);
    FeedCore(c, w, s[..m]);
    assert s[..m] + s[m..] == s;
    ReadSplit(c, r, s[..m], s[m..]);
    n := |Read(c, r, s[..m])|;
    assert Read(c, r, s)[..n] == Read(c, r, s[..m]);
    if m == |s| {
      assert s[..m] == s;
    }
  }

  lemma {:induction false} NoCloseBefore(fs: seq<Wire>, n: nat, m: nat)
    requires n <= m <= |fs| && NoClose(fs[..m])
    ensures NoClose(fs[..n])
  {
    assert forall i :: 0 <= i < n ==> fs[..n][i] == fs[..m][i];
  }

  /** So, up to and with the first CLOSE, two ways of cutting a stream cannot be told apart. */
  lemma {:induction false} CutsAgreeUpToClose(c: Config, w: Ws, chunks: seq<seq<byte>>)
    requires Midway(c, w) && w.core.lower == [] && NonEmpty(chunks)
    requires var fs := Read(c, ReaderOf(w), Concat(chunks)); fs != [] ==> NoClose(fs[..|fs| - 1])
    ensures FeedAll(c, w, chunks).core == HandleAll(c, w.core, Read(c, ReaderOf(w), Concat(chunks))).w
  {
    hide Feed, FeedAll, HandleAll, Read;
    var fs := Read(c, ReaderOf(w), Concat(chunks));
    var n := CutHandles(c, w, chunks);
    if n < |fs| {
      NoCloseBefore(fs, n, |fs| - 1);
    }
    assert fs[..|fs|] == fs;
  }

  // --------------------------------------------------------- after the CLOSE

  /** What is held of an unfinished message after these frames. */
  function Held(c: Config, held: seq<byte>, fs: seq<Wire>): seq<byte>
    decreases |fs|
  {
    if fs == [] then held
    else
      var f := fs[0].frame;
      var held1 := if IsData(f.opcode) then (if f.fin then [] else Take(c.maxMessageSize, f.payload))
                   else if f.opcode == CONTINUATION then (if f.fin then [] else Take(c.maxMessageSize, held + f.payload))
                   else held;
      Held(c, held1, fs[1..])
  }

  /**
   * Frames that a transport which is down handles without a sound: no ping, nothing that ends a message,
   * and nothing that begins one while another is held.
   */
  predicate Mute(c: Config, held: seq<byte>, fs: seq<Wire>)
    decreases |fs|
  {
    if fs == [] then true
    else
      var f := fs[0].frame;
      if f.opcode == PING then false
      else if IsData(f.opcode) then !f.fin && held == [] && Mute(c, Take(c.maxMessageSize, f.payload), fs[1..])
      else if f.opcode == CONTINUATION then !f.fin && Mute(c, Take(c.maxMessageSize, held + f.payload), fs[1..])
      else Mute(c, held, fs[1..])
  }

  /** What one frame leaves of a message being assembled. */
  lemma {:induction false} HeldAfterOne(c: Config, k: Core, f: Frame)
    requires k.lower == [] && |k.partial| <= c.maxMessageSize
    ensures var k1 := RecvFrame(c, k, Truncate(f, c.maxMessageSize)).w;
            k1.partial == if IsData(f.opcode) then (if f.fin then [] else Take(c.maxMessageSize, f.payload))
                          else if f.opcode == CONTINUATION then (if f.fin then [] else Take(c.maxMessageSize, k.partial + f.payload))
                          else k.partial
  {
    hide RecvData, RecvContinuation, Close, Change, Deliver, Deliveries;
    assert k.partial == Take(c.maxMessageSize, k.partial);
    if IsData(f.opcode) {
      FirstFrame(c, k, f);
    } else if f.opcode == CONTINUATION {
      ContinuationTakes(c, k, f, k.partial);
    } else {
      CloseUndisturbed(k);
      ChangeUndisturbed(Close(k), Disconnected);
    }
  }

  lemma {:induction false} HeldAfterAll(c: Config, k: Core, fs: seq<Wire>)
    requires k.lower == [] && |k.partial| <= c.maxMessageSize
    ensures var o := HandleAll(c, k, fs);
            o.Ok? && o.w.lower == [] && o.w.partial == Held(c, k.partial, fs) && |o.w.partial| <= c.maxMessageSize
    decreases |fs|
  {
    hide RecvFrame, Truncate;
    if fs != [] {
      var f := Truncate(fs[0].frame, c.maxMessageSize);
      HeldAfterOne(c, k, fs[0].frame);
      RecvFrameStays(c, k, f);
      HeldAfterAll(c, RecvFrame(c, k, f).w, fs[1..]);
    }
  }

  lemma {:induction false} HandleGrows(c: Config, k: Core, fs: seq<Wire>)
    ensures k.events <= HandleAll(c, k, fs).w.events
    decreases |fs|
  {
    hide RecvFrame, Truncate;
    if fs != [] {
      var f := Truncate(fs[0].frame, c.maxMessageSize);
      RecvFrameGrows(c, k, f);
      if RecvFrame(c, k, f).Ok? {
        HandleGrows(c, RecvFrame(c, k, f).w, fs[1..]);
      }
    }
  }

  /** Does this frame make a sound? */
  predicate Sounds(held: seq<byte>, f: Frame) {
    || f.opcode == PING
    || (IsData(f.opcode) && (f.fin || held != []))
    || (f.opcode == CONTINUATION && f.fin)
  }

  /** A transport that is down tells one frame more exactly when the frame makes a sound. */
  lemma {:induction false} OneMuteFrame(c: Config, k: Core, f: Frame)
    requires k.state == Disconnected && k.lower == []
    ensures var k1 := RecvFrame(c, k, f).w;
            k1.state == Disconnected && (k1.events == k.events <==> !Sounds(k.partial, f))
  {
    hide Callback;
    RecvFrameStates(c, k, f);
    if IsData(f.opcode) {
      DownDeliver(k, k.partialOpcode, k.partial);
      DownDeliver(Flush(k).(partialOpcode := f.opcode), f.opcode, Take(c.maxMessageSize, f.payload));
    } else if f.opcode == CONTINUATION {
      var data := Take(c.maxMessageSize, k.partial + f.payload);
      DownDeliver(k.(partial := data), k.partialOpcode, data);
    }
  }

  lemma {:induction false} DownDeliver(k: Core, opcode: byte, data: seq<byte>)
    requires k.state == Disconnected
    ensures Deliver(k, opcode, data).events == k.events + [Delivered(opcode == TEXT_FRAME, data)]
    ensures Deliver(k, opcode, data).state == Disconnected
  {
    CallbackWhenDown(Emit(k, Delivered(opcode == TEXT_FRAME, data)));
  }

  lemma {:induction false} MuteExactly(c: Config, k: Core, fs: seq<Wire>)
    requires k.state == Disconnected && k.lower == [] && |k.partial| <= c.maxMessageSize
    ensures HandleAll(c, k, fs).w.events == k.events <==> Mute(c, k.partial, fs)
    decreases |fs|
  {
    hide RecvFrame, Truncate;
    if fs != [] {
      var f := Truncate(fs[0].frame, c.maxMessageSize);
      var k1 := RecvFrame(c, k, f).w;
      OneMuteFrame(c, k, f);
      RecvFrameStays(c, k, f);
      HeldAfterOne(c, k, fs[0].frame);
      TruncateKeeps(fs[0].frame, c.maxMessageSize);
      RecvFrameGrows(c, k, f);
      HandleGrows(c, k1, fs[1..]);
      if k1.events == k.events {
        MuteExactly(c, k1, fs[1..]);
      }
    }
  }

  lemma {:induction false} TruncateKeeps(f: Frame, limit: nat)
    ensures Truncate(f, limit).fin == f.fin && Truncate(f, limit).opcode == f.opcode
  {
  }

  // -------------------------------------------- exactly when cutting matters

  predicate IsCutOf(chunks: seq<seq<byte>>, s: seq<byte>) {
    NonEmpty(chunks) && Concat(chunks) == s
  }

  /** Every way of cutting the stream comes to the same. */
  ghost predicate CutsAgree(c: Config, w: Ws, s: seq<byte>) {
    forall chunks :: IsCutOf(chunks, s) ==> FeedAll(c, w, chunks).core.events == Feed(c, w, s).core.events
  }

  lemma {:induction false} CloseFrame(c: Config, k: Core, f: Frame)
    requires f.opcode == CLOSE && k.lower == []
    ensures var o := RecvFrame(c, k, f);
            o.Ok? && o.w.state == Disconnected && o.w.lower == [] && o.w.partial == k.partial
            && Deliveries(o.w.events) == Deliveries(k.events)
  {
    hide Close, Change, Deliveries;
    CloseUndisturbed(k);
    ChangeUndisturbed(Close(k), Disconnected);
  }

  lemma {:induction false} NoCloseAfter(fs: seq<Wire>, i: nat)
    requires i < |fs| && fs[0].frame.opcode != CLOSE && NoClose(fs[1..][..i])
    ensures NoClose(fs[..i + 1])
  {
    var v, u := fs[..i + 1], fs[1..][..i];
    forall j | 0 <= j < |v| ensures v[j].frame.opcode != CLOSE {
      if j > 0 { assert v[j] == u[j - 1]; }
    }
  }

  /** The place of the first CLOSE, or the end. */
  function FirstClose(fs: seq<Wire>): (i: nat)
    ensures i <= |fs| && NoClose(fs[..i]) && (i < |fs| ==> fs[i].frame.opcode == CLOSE)
  {
    if fs == [] || fs[0].frame.opcode == CLOSE then 0
    else
      var i := FirstClose(fs[1..]);
      NoCloseAfter(fs, i);
      i + 1
  }

  /** What follows the first CLOSE is mute. */
  predicate MuteAfterClose(c: Config, held: seq<byte>, fs: seq<Wire>) {
    var i := FirstClose(fs);
    i < |fs| ==> Mute(c, Held(c, held, fs[..i]), fs[i + 1..])
  }

  /** The transport at the CLOSE, and whether anything is told after it. */
  lemma {:induction false} AtClose(c: Config, k: Core, fs: seq<Wire>)
    requires k.state == Connected && k.lower == [] && |k.partial| <= c.maxMessageSize && FirstClose(fs) < |fs|
    ensures var i := FirstClose(fs);
            HandleAll(c, k, fs).w.events == HandleAll(c, k, fs[..i + 1]).w.events
            <==> Mute(c, Held(c, k.partial, fs[..i]), fs[i + 1..])
  {
    hide RecvFrame, Truncate, Held, Mute, HandleAll;
    var i := FirstClose(fs);
    var pre, x, post := fs[..i], fs[i..i + 1], fs[i + 1..];
    assert fs[..i + 1] == pre + x && fs == (pre + x) + post;
    HandleNeverThrowsAfter(c, k, pre, x);
    HandleNeverThrowsAfter(c, k, pre + x, post);
    HeldAfterAll(c, k, pre);
    var k0, k1 := HandleAll(c, k, pre).w, HandleAll(c, k, pre + x).w;
    TruncateKeeps(x[0].frame, c.maxMessageSize);
    CloseFrame(c, k0, Truncate(x[0].frame, c.maxMessageSize));
    HandleOne(c, k0, x);
    MuteExactly(c, k1, post);
  }

  /** Where a cut makes the transport stop at the CLOSE. */
  lemma {:induction false} CutAtClose(c: Config, w: Ws, s: seq<byte>) returns (chunks: seq<seq<byte>>)
    requires Midway(c, w) && w.core.lower == [] && s != []
    requires FirstClose(Read(c, ReaderOf(w), s)) < |Read(c, ReaderOf(w), s)|
    ensures var fs := Read(c, ReaderOf(w), s);
            IsCutOf(chunks, s) && FeedAll(c, w, chunks).core == HandleAll(c, w.core, fs[..FirstClose(fs) + 1]).w
  {
    hide Feed, HandleAll, FramesIn, Left, Parse;
    var r := ReaderOf(w);
    var fs := Read(c, r, s);
    var i := FirstClose(fs);
    var n := ReadEnd(c, r, s, i);
    var a, b := s[..n], s[n..];
    assert a + b == s;
    FeedCore(c, w, a);
    assert fs[..i + 1][i] == fs[i];
    assert !NoClose(fs[..i + 1]);
    ConcatLast([], a);
    assert [] + [a] == [a] && [] + a == a;
    FeedAllLast(c, w, [], a);
    if b == [] {
      chunks := [a];
    } else {
      chunks := [a] + [b];
      ConcatLast([a], b);
      FeedAllLast(c, w, [a], b);
      FeedDead(c, Feed(c, w, a), b);
    }
  }

  /**
   * Exactly when cutting a stream of any bytes matters: every way of cutting it comes to the same if and
   * only if the frames after the first CLOSE, if there is one, are mute.
   */
  lemma {:induction false} CutsAgreeIffMute(c: Config, w: Ws, s: seq<byte>)
    requires Midway(c, w) && w.core.lower == [] && |w.core.partial| <= c.maxMessageSize && s != []
    ensures CutsAgree(c, w, s) <==> MuteAfterClose(c, w.core.partial, Read(c, ReaderOf(w), s))
  {
    hide Feed, FeedAll, HandleAll, Mute, Held, Read, FirstClose;
    var fs := Read(c, ReaderOf(w), s);
    var i := FirstClose(fs);
    FeedCore(c, w, s);
    if i < |fs| {
      AtClose(c, w.core, fs);
    }
    if MuteAfterClose(c, w.core.partial, fs) {
      forall chunks | IsCutOf(chunks, s) ensures FeedAll(c, w, chunks).core.events == Feed(c, w, s).core.events {
        CutTellsAll(c, w, chunks);
      }
    } else if CutsAgree(c, w, s) {
      var chunks := CutAtClose(c, w, s);
    }
  }

  lemma {:induction false} CutTellsAll(c: Config, w: Ws, chunks: seq<seq<byte>>)
    requires Midway(c, w) && w.core.lower == [] && |w.core.partial| <= c.maxMessageSize && NonEmpty(chunks)
    requires MuteAfterClose(c, w.core.partial, Read(c, ReaderOf(w), Concat(chunks)))
    ensures FeedAll(c, w, chunks).core.events == HandleAll(c, w.core, Read(c, ReaderOf(w), Concat(chunks))).w.events
  {
    hide Feed, FeedAll, HandleAll, Mute, Held, Read, FirstClose;
    var fs := Read(c, ReaderOf(w), Concat(chunks));
    var n := CutHandles(c, w, chunks);
    assert fs[..|fs|] == fs;
    if n < |fs| {
      var i := FirstClose(fs);
      assert i < n by {
        if n <= i {
          NoCloseBefore(fs, n, i);
        }
      }
      AtClose(c, w.core, fs);
      HandledGrow(c, w.core, fs, i + 1, n);
      HandledGrow(c, w.core, fs, n, |fs|);
    }
  }

  lemma {:induction false} HandledGrow(c: Config, k: Core, fs: seq<Wire>, n: nat, m: nat)
    requires k.lower == [] && n <= m <= |fs|
    ensures HandleAll(c, k, fs[..n]).w.events <= HandleAll(c, k, fs[..m]).w.events
  {
    hide HandleAll;
    assert fs[..m] == fs[..n] + fs[n..m];
    HandleNeverThrowsAfter(c, k, fs[..n], fs[n..m]);
    HandleGrows(c, HandleAll(c, k, fs[..n]).w, fs[n..m]);
  }

  // ------------------------------------------------------- encoded frames

  lemma {:induction false} ReadEncoded(c: Config, w: Ws, fs: seq<Wire>)
    requires Ready(w) && AllEncodable(fs)
    ensures Read(c, ReaderOf(w), EncodeAll(fs)) == Cut(c, fs)
  {
    hide EncodeAll, Cut;
    EncodedFrames(c, fs, []);
    NothingIn(c);
    assert [] + EncodeAll(fs) == EncodeAll(fs) && EncodeAll(fs)[0..] == EncodeAll(fs) && EncodeAll(fs) + [] == EncodeAll(fs);
    assert Cut(c, fs) + [] == Cut(c, fs);
  }

  /** Cutting the payload of the frames changes nothing of what is held of them, and nothing of what is mute. */
  lemma {:induction false} HeldOfCut(c: Config, held: seq<byte>, fs: seq<Wire>)
    ensures Held(c, held, Cut(c, fs)) == Held(c, held, fs) && (Mute(c, held, Cut(c, fs)) <==> Mute(c, held, fs))
    decreases |fs|
  {
    hide Truncate;
    if fs != [] {
      var f := fs[0].frame;
      TruncateTakes(c, held, f);
      TruncateTakes(c, [], f);
      TruncateKeeps(f, c.maxMessageSize);
      assert Cut(c, fs)[1..] == Cut(c, fs[1..]);
      HeldOfCut(c, held, fs[1..]);
      HeldOfCut(c, [], fs[1..]);
      HeldOfCut(c, Take(c.maxMessageSize, f.payload), fs[1..]);
      HeldOfCut(c, Take(c.maxMessageSize, held + f.payload), fs[1..]);
    }
  }

  lemma {:induction false} TruncateTakes(c: Config, held: seq<byte>, f: Frame)
    ensures Take(c.maxMessageSize, held + Truncate(f, c.maxMessageSize).payload) == Take(c.maxMessageSize, held + f.payload)
    ensures Take(c.maxMessageSize, Truncate(f, c.maxMessageSize).payload) == Take(c.maxMessageSize, f.payload)
  {
  }

  lemma {:induction false} CloseIsAt(fs: seq<Wire>, n: nat)
    requires n < |fs| && NoClose(fs[..n]) && fs[n].frame.opcode == CLOSE
    ensures FirstClose(fs) == n
    decreases n
  {
    if n > 0 {
      assert fs[..n][0] == fs[0];
      assert fs[1..][..n - 1] == fs[..n][1..];
      CloseIsAt(fs[1..], n - 1);
    }
  }

  /** The same of frames that were encoded, in any number and of any size, around a CLOSE. */
  lemma {:induction false} FramesAgreeIffMute(c: Config, w: Ws, pre: seq<Wire>, x: Wire, post: seq<Wire>)
    requires Ready(w) && w.core.lower == [] && |w.core.partial| <= c.maxMessageSize
    requires NoClose(pre) && x.frame.opcode == CLOSE && AllEncodable(pre + [x] + post)
    ensures CutsAgree(c, w, EncodeAll(pre + [x] + post)) <==> Mute(c, Held(c, w.core.partial, pre), post)
  {
    hide CutsAgree, Feed, EncodeAll, Truncate, FirstClose, Mute, Held, Read;
    var fs := pre + [x] + post;
    ReadyIsMidway(c, w);
    SomethingEncoded(fs);
    ReadEncoded(c, w, fs);
    CutsAgreeIffMute(c, w, EncodeAll(fs));
    var a, y, b := Cut(c, pre), Cut(c, [x])[0], Cut(c, post);
    assert Cut(c, fs) == a + [y] + b;
    TruncateKeeps(x.frame, c.maxMessageSize);
    CutHasNoClose(c, pre);
    assert (a + [y] + b)[..|a|] == a && (a + [y] + b)[|a| + 1..] == b;
    CloseIsAt(a + [y] + b, |a|);
    HeldOfCut(c, w.core.partial, pre);
    HeldOfCut(c, Held(c, w.core.partial, pre), post);
  }

  lemma {:induction false} CutHasNoClose(c: Config, fs: seq<Wire>)
    requires NoClose(fs)
    ensures NoClose(Cut(c, fs))
  {
    hide Truncate;
    forall i | 0 <= i < |fs| ensures Cut(c, fs)[i].frame.opcode != CLOSE {
      TruncateKeeps(fs[i].frame, c.maxMessageSize);
    }
  }

  const CLOSING: Wire := Wire(Frame(true, CLOSE, []), None)
  const TEXTING: Wire := Wire(Frame(true, TEXT_FRAME, [65]), None)

  /** The shortest stream for which it does matter: a CLOSE, and a message after it. */
  lemma {:induction false} ChunkingMattersAfterClose(c: Config, w: Ws)
    requires Ready(w) && w.core.lower == [] && |w.core.partial| <= c.maxMessageSize
    ensures !CutsAgree(c, w, EncodeAll([CLOSING, TEXTING]))
  {
    hide CutsAgree, Feed, EncodeAll;
    Pow256Is32();
    assert [] + [CLOSING] + [TEXTING] == [CLOSING, TEXTING];
    FramesAgreeIffMute(c, w, [], CLOSING, [TEXTING]);
  }
}
