/** How the bytes a transport is given fall into frames, apart from what it does with them. */
module WsReader {
  import opened Bytes
  import opened Frames
  import opened WsSpec
  import opened WsTheorems
  import opened WsMessages

  /** The bytes received and not yet used, and how many more are to be skipped. */
  datatype Reader = Reader(buffer: seq<byte>, skip: nat)

  function ReaderOf(w: Ws): Reader {
    Reader(w.buffer, w.ignoreLength)
  }

  /** What follows the first frame, when that is not cut short by its own length. */
  function Following(s: seq<byte>, total: nat): seq<byte> {
    if total > |s| then [] else s[total..]
  }

  /** The frames at the front of the bytes that are there in full, as far as their payload is kept. */
  function FramesIn(c: Config, s: seq<byte>): seq<Wire>
    decreases |s|
  {
    match Parse(s, c.maxMessageSize)
    case More => []
    case Got(f, _, total) => [Wire(f, None)] + FramesIn(c, Following(s, total))
  }

  /** What they leave. */
  function Left(c: Config, s: seq<byte>): Reader
    decreases |s|
  {
    match Parse(s, c.maxMessageSize)
    case More => Reader(s, 0)
    case Got(_, _, total) => if total > |s| then Reader([], total - |s|) else Left(c, s[total..])
  }

  function Ahead(r: Reader, s: seq<byte>): seq<byte> {
    (r.buffer + s)[Min(r.skip, |r.buffer| + |s|)..]
  }

  /** The frames that come to be complete with `s`, and the reader after it. */
  function Read(c: Config, r: Reader, s: seq<byte>): seq<Wire> {
    FramesIn(c, Ahead(r, s))
  }

  function Then(c: Config, r: Reader, s: seq<byte>): Reader {
    if r.skip > |r.buffer| + |s| then Reader([], r.skip - |r.buffer| - |s|) else Left(c, Ahead(r, s))
  }

  /** Between chunks: what is skipped is not buffered, and no frame is complete. */
  predicate Between(c: Config, r: Reader) {
    (r.skip > 0 ==> r.buffer == []) && Parse(r.buffer, c.maxMessageSize) == More
  }

  lemma {:induction false} NothingIn(c: Config)
    ensures FramesIn(c, []) == [] && Left(c, []) == Reader([], 0) && Between(c, Reader([], 0))
  {
  }

  lemma {:induction false} LeftIsBetween(c: Config, s: seq<byte>)
    ensures Between(c, Left(c, s))
    decreases |s|
  {
    NothingIn(c);
    var p := Parse(s, c.maxMessageSize);
    if p.Got? && p.total <= |s| {
      LeftIsBetween(c, s[p.total..]);
    }
  }

  lemma {:induction false} ThenIsBetween(c: Config, r: Reader, s: seq<byte>)
    ensures Between(c, Then(c, r, s))
  {
    NothingIn(c);
    LeftIsBetween(c, Ahead(r, s));
  }

  /** An empty chunk completes nothing. */
  lemma {:induction false} ReadNothing(c: Config, r: Reader)
    requires Between(c, r)
    ensures Read(c, r, []) == [] && Then(c, r, []) == r
  {
    assert r.buffer + [] == r.buffer;
    NothingIn(c);
  }

  // ------------------------------------------------- bytes and more bytes

  lemma {:induction false} FramesSplit(c: Config, a: seq<byte>, b: seq<byte>)
    ensures FramesIn(c, a + b) == FramesIn(c, a) + Read(c, Left(c, a), b)
    ensures Left(c, a + b) == Then(c, Left(c, a), b)
    decreases |a|
  {
    hide Parse;
    var p := Parse(a, c.maxMessageSize);
    if p.More? {
      assert (a + b)[0..] == a + b;
    } else {
      PrefixStable(a, b, c.maxMessageSize);
      if p.total > |a| {
        SkippedSplit(c, a, b, p.total);
      } else {
        assert (a + b)[p.total..] == a[p.total..] + b;
        FramesSplit(c, a[p.total..], b);
      }
    }
  }

  lemma {:induction false} SkippedSplit(c: Config, a: seq<byte>, b: seq<byte>, total: nat)
    requires total > |a|
    ensures Following(a + b, total) == Ahead(Reader([], total - |a|), b)
    ensures FramesIn(c, Following(a, total)) == []
  {
    NothingIn(c);
    assert [] + b == b;
    if total <= |a| + |b| {
      assert (a + b)[total..] == b[total - |a|..];
    } else {
      assert b[|b|..] == [];
    }
  }

  lemma {:induction false} ReadSplit(c: Config, r: Reader, a: seq<byte>, b: seq<byte>)
    requires r.skip > 0 ==> r.buffer == []
    ensures Read(c, r, a + b) == Read(c, r, a) + Read(c, Then(c, r, a), b)
    ensures Then(c, r, a + b) == Then(c, Then(c, r, a), b)
  {
    hide FramesIn, Left;
    assert r.buffer + (a + b) == (r.buffer + a) + b;
    if r.skip > |r.buffer| + |a| {
      NothingIn(c);
      assert r.buffer + a == a && [] + b == b && r.buffer + (a + b) == a + b;
      assert Ahead(r, a) == [];
      assert Ahead(r, a + b) == Ahead(Then(c, r, a), b) by {
        if r.skip <= |a| + |b| {
          assert (a + b)[r.skip..] == b[r.skip - |a|..];
        }
      }
    } else {
      assert (r.buffer + a + b)[r.skip..] == (r.buffer + a)[r.skip..] + b;
      FramesSplit(c, Ahead(r, a), b);
    }
  }

  // ------------------------------------------------------ the shortest prefix

  /** A frame is recognised as soon as its header and what is kept of its payload are there. */
  lemma {:induction false} ParseShort(s: seq<byte>, limit: nat)
    requires Parse(s, limit).Got?
    ensures var p := Parse(s, limit); Parse(s[..p.at + |p.frame.payload|], limit) == p
  {
    hide MaskWith, Kept;
    var h := ParseHead(s);
    var n := h.size + Kept(h.length, limit);
    HeadParsed(s, limit);
    hide ParseHead, Parse;
    HeadShort(s, n);
    assert s[..n][h.size..n] == s[h.size..n];
    ParseFrom(s[..n], limit, h);
    ParseFrom(s, limit, h);
  }

  lemma {:induction false} HeadParsed(s: seq<byte>, limit: nat)
    requires Parse(s, limit).Got?
    ensures var h, p := ParseHead(s), Parse(s, limit);
            && h.Head? && h.size + Kept(h.length, limit) <= |s|
            && p.at == h.size && |p.frame.payload| == Kept(h.length, limit)
  {
    hide ParseHead;
  }

  lemma {:induction false} HeadShort(s: seq<byte>, n: nat)
    requires ParseHead(s).Head? && ParseHead(s).size <= n <= |s|
    ensures ParseHead(s[..n]) == ParseHead(s)
  {
    var u := s[..n];
    assert u[0] == s[0] && u[1] == s[1];
    assert n >= 4 ==> u[2..4] == s[2..4];
    assert n >= 10 ==> u[2..10] == s[2..10];
    assert n >= 6 ==> u[2..6] == s[2..6];
    assert n >= 8 ==> u[4..8] == s[4..8];
    assert n >= 14 ==> u[10..14] == s[10..14];
  }

  /** Where the first so many frames are complete, and no other. */
  lemma {:induction false} FramesEnd(c: Config, s: seq<byte>, i: nat) returns (n: nat)
    requires i < |FramesIn(c, s)|
    ensures n <= |s| && FramesIn(c, s[..n]) == FramesIn(c, s)[..i + 1]
    decreases i
  {
    hide Parse;
    var p := Parse(s, c.maxMessageSize);
    NothingIn(c);
    if i == 0 {
      GotFits(s, c.maxMessageSize);
      ParseShort(s, c.maxMessageSize);
      n := p.at + |p.frame.payload|;
      ParsedSize(s, c.maxMessageSize);
      assert Following(s[..n], p.total) == [];
      assert FramesIn(c, s[..n]) == [Wire(p.frame, None)] + [];
    } else {
      var rest := Following(s, p.total);
      var m := FramesEnd(c, rest, i - 1);
      n := p.total + m;
      FramesAfter(c, s, n, p);
      assert s[..n][p.total..] == rest[..m];
    }
  }

  /** The same for a reader between chunks: some of the new bytes are needed. */
  lemma {:induction false} ReadEnd(c: Config, r: Reader, s: seq<byte>, i: nat) returns (n: nat)
    requires Between(c, r) && i < |Read(c, r, s)|
    ensures 0 < n <= |s| && Read(c, r, s[..n]) == Read(c, r, s)[..i + 1]
  {
    hide FramesIn, Parse;
    var x, b := Ahead(r, s), r.buffer;
    NothingIn(c);
    var m := FramesEnd(c, x, i);
    if r.skip > 0 {
      SkippedPrefix(r, s, m);
      n := m + r.skip;
      assert 0 < n <= |s|;
    } else {
      assert x == b + s;
      if m <= |b| {
        assert b[..m] + b[m..] == b && x[..m] == b[..m];
        FramesSplit(c, b[..m], b[m..]);
        NothingYet(c, r);
      }
      n := m - |b|;
      assert b + s[..n] == x[..m];
    }
  }

  lemma {:induction false} SkippedPrefix(r: Reader, s: seq<byte>, m: nat)
    requires r.skip > 0 && r.buffer == [] && m <= |Ahead(r, s)| && Ahead(r, s) != []
    ensures m + r.skip <= |s| && Ahead(r, s[..m + r.skip]) == Ahead(r, s)[..m]
  {
    assert r.buffer + s == s;
  }

  lemma {:induction false} NothingYet(c: Config, r: Reader)
    requires Between(c, r)
    ensures FramesIn(c, r.buffer) == []
  {
  }

  lemma {:induction false} ParsedSize(s: seq<byte>, limit: nat)
    requires Parse(s, limit).Got?
    ensures Parse(s, limit).at + |Parse(s, limit).frame.payload| <= Parse(s, limit).total
  {
  }

  lemma {:induction false} FramesAfter(c: Config, s: seq<byte>, n: nat, p: Parsed)
    requires p.Got? && Parse(s, c.maxMessageSize) == p && p.total <= n <= |s|
    ensures FramesIn(c, s[..n]) == [Wire(p.frame, None)] + FramesIn(c, s[..n][p.total..])
  {
    hide Parse;
    var k := p.at + |p.frame.payload|;
    ParsedSize(s, c.maxMessageSize);
    ParseShort(s, c.maxMessageSize);
    assert s[..n] == s[..k] + s[k..n];
    PrefixStable(s[..k], s[k..n], c.maxMessageSize);
  }

  // ------------------------------------------------ frames that were encoded

  /** Frames as the reader makes them out: unmasked, and cut. */
  function Cut(c: Config, fs: seq<Wire>): (r: seq<Wire>)
    ensures |r| == |fs|
  {
    seq(|fs|, i requires 0 <= i < |fs| => Wire(Truncate(fs[i].frame, c.maxMessageSize), None))
  }

  lemma {:induction false} EncodedFrames(c: Config, fs: seq<Wire>, tail: seq<byte>)
    requires AllEncodable(fs)
    ensures FramesIn(c, EncodeAll(fs) + tail) == Cut(c, fs) + FramesIn(c, tail)
    decreases |fs|
  {
    hide Truncate, Encode, Parse, FramesIn;
    if fs == [] {
      assert EncodeAll(fs) + tail == tail;
    } else {
      var rest := EncodeAll(fs[1..]) + tail;
      assert EncodeAll(fs) + tail == Encode(fs[0].frame, fs[0].key) + rest;
      EncodedFrame(c, fs[0], rest);
      assert AllEncodable(fs[1..]);
      EncodedFrames(c, fs[1..], tail);
      assert Cut(c, fs) == [Wire(Truncate(fs[0].frame, c.maxMessageSize), None)] + Cut(c, fs[1..]);
    }
  }

  lemma {:induction false} EncodedFrame(c: Config, x: Wire, rest: seq<byte>)
    requires Encodable(x.frame)
    ensures FramesIn(c, Encode(x.frame, x.key) + rest)
         == [Wire(Truncate(x.frame, c.maxMessageSize), None)] + FramesIn(c, rest)
  {
    hide Truncate, Encode, Parse;
    var e := Encode(x.frame, x.key);
    DecodeEncode(x.frame, x.key, rest, c.maxMessageSize);
    assert (e + rest)[|e|..] == rest;
  }

  // --------------------------------------------- what the transport does

  lemma {:induction false} ParsedIsCut(s: seq<byte>, limit: nat)
    requires Parse(s, limit).Got?
    ensures Truncate(Parse(s, limit).frame, limit) == Parse(s, limit).frame
  {
    var p := Parse(s, limit).frame.payload;
    assert p[..|p|] == p;
  }

  /** Reading bytes is handling the frames in them. */
  lemma {:induction false} DrainIsHandle(c: Config, k: Core, s: seq<byte>)
    ensures match HandleAll(c, k, FramesIn(c, s))
            case Ok(k1) => Drain(c, k, s) == Ok(Ws(k1, Left(c, s).buffer, Left(c, s).skip))
            case Threw(k1) => Drain(c, k, s).Threw? && Drain(c, k, s).w.core == k1
    decreases |s|
  {
    hide Parse, RecvFrame, Truncate;
    var p := Parse(s, c.maxMessageSize);
    if p.Got? {
      ParsedIsCut(s, c.maxMessageSize);
      var o := RecvFrame(c, k, p.frame);
      DrainStep(c, k, s, p, o);
      var fs := FramesIn(c, s);
      assert fs[1..] == FramesIn(c, Following(s, p.total));
      if p.total > |s| {
        NothingIn(c);
        assert o.Ok? ==> HandleAll(c, o.w, fs[1..]) == Ok(o.w);
      } else if o.Ok? {
        DrainIsHandle(c, o.w, s[p.total..]);
      }
    }
  }

  lemma {:induction false} AbsorbIsHandle(c: Config, w: Ws)
    ensures var r := Reader([], w.ignoreLength);
            match HandleAll(c, w.core, Read(c, r, w.buffer))
            case Ok(k1) => Absorb(c, w) == Ok(Ws(k1, Then(c, r, w.buffer).buffer, Then(c, r, w.buffer).skip))
            case Threw(k1) => Absorb(c, w).Threw? && Absorb(c, w).w.core == k1
  {
    hide Drain;
    assert [] + w.buffer == w.buffer && w.buffer[|w.buffer|..] == [];
    NothingIn(c);
    DrainIsHandle(c, w.core, w.buffer[Min(w.ignoreLength, |w.buffer|)..]);
  }

  lemma {:induction false} SameAhead(c: Config, r: Reader, s: seq<byte>)
    ensures Read(c, Reader([], r.skip), r.buffer + s) == Read(c, r, s)
    ensures Then(c, Reader([], r.skip), r.buffer + s) == Then(c, r, s)
  {
    assert [] + (r.buffer + s) == r.buffer + s;
  }

  /** What a connected transport does with a chunk. */
  lemma {:induction false} FeedIsHandle(c: Config, w: Ws, s: seq<byte>)
    requires w.core.state == Connected && s != []
    ensures var r := ReaderOf(w);
            match HandleAll(c, w.core, Read(c, r, s))
            case Ok(k1) => Feed(c, w, s) == Quiet(Ws(k1, Then(c, r, s).buffer, Then(c, r, s).skip))
            case Threw(k1) => Feed(c, w, s) == Ws(Fail(k1), [], 0)
  {
    hide Absorb, HandleAll, FramesIn, Left, Fail, Ahead, Read, Then;
    FrameBuffer(c, w, s);
    AbsorbIsHandle(c, Extend(w, s));
    SameAhead(c, ReaderOf(w), s);
    FailDown(Absorb(c, Extend(w, s)).w.core);
  }
}
