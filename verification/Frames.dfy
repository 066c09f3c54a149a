/** The WebSocket frame format (RFC 6455 section 5.2): an encoder and a decoder on values. */
module Frames {
  import opened Bytes

  const CONTINUATION: byte := 0
  const TEXT_FRAME: byte := 1
  const BINARY_FRAME: byte := 2
  const CLOSE: byte := 8
  const PING: byte := 9
  const PONG: byte := 10

  /** A frame as the application sees it: unmasked. */
  datatype Frame = Frame(fin: bool, opcode: byte, payload: seq<byte>)

  // ---------------------------------------------------------------- encoder

  function FirstByte(fin: bool, opcode: byte): byte {
    (opcode & 0x0F) | (if fin then 0x80 else 0)
  }

  function SecondByte(masked: bool, n: nat): byte
    requires n < 128
  {
    FromNat(n) | (if masked then 0x80 else 0)
  }

  /** The second byte and the extended length: 7, 7+16 or 7+64 bits. */
  function LengthBytes(masked: bool, n: nat): seq<byte> {
    if n < 0x7E then [SecondByte(masked, n)]
    else if n <= 0xFFFF then [SecondByte(masked, 0x7E)] + BigEndian(n, 2)
    else [SecondByte(masked, 0x7F)] + BigEndian(n, 8)
  }

  function Header(fin: bool, opcode: byte, key: Option<Key>, n: nat): (h: seq<byte>)
    ensures 2 <= |h| <= 14
  {
    [FirstByte(fin, opcode)] + LengthBytes(key.Some?, n) + (if key.Some? then key.value else [])
  }

  function MaskWith(p: seq<byte>, key: Option<Key>): (r: seq<byte>)
    ensures |r| == |p|
  {
    if key.Some? then Mask(p, key.value) else p
  }

  function Encode(f: Frame, key: Option<Key>): seq<byte> {
    Header(f.fin, f.opcode, key, |f.payload|) + MaskWith(f.payload, key)
  }

  /** A frame the encoder can be asked for: opcodes have 4 bits and lengths 64. */
  predicate Encodable(f: Frame) {
    f.opcode < 16 && |f.payload| < Pow256(8)
  }

  // ---------------------------------------------------------------- decoder

  datatype Head =
    | Partial
    | Head(fin: bool, opcode: byte, key: Option<Key>, length: nat, size: nat)

  /** The length announced by the second byte and what follows it, and where that ends. */
  function ParseLength(s: seq<byte>): (r: Option<(nat, nat)>)
    requires |s| >= 2
    ensures r.Some? ==> r.value.1 in {2, 4, 10} && r.value.1 <= |s|
  {
    var short := ToNat(s[1] & 0x7F);
    if short == 0x7E then
      if |s| < 4 then None else Some((ValueBE(s[2..4]), 4))
    else if short == 0x7F then
      if |s| < 10 then None else Some((ValueBE(s[2..10]), 10))
    else
      Some((short, 2))
  }

  function ParseHead(s: seq<byte>): (h: Head)
    ensures h.Head? ==> 2 <= h.size <= 14 && h.size <= |s|
  {
    if |s| < 2 then Partial
    else
      match ParseLength(s)
      case None => Partial
      case Some((n, at)) =>
        var fin, opcode := s[0] & 0x80 != 0, s[0] & 0x0F;
        if s[1] & 0x80 == 0 then Head(fin, opcode, None, n, at)
        else if |s| < at + 4 then Partial
        else Head(fin, opcode, Some(s[at..at + 4]), n, at + 4)
  }

  const MAX_CONTROL_FRAME_LENGTH: nat := 125

  /** How much of a payload of `n` bytes the decoder keeps under a message limit. */
  function Kept(n: nat, limit: nat): nat {
    Min(n, Max(MAX_CONTROL_FRAME_LENGTH, limit))
  }

  /** `total` is the length on the wire; it can be more than the buffer holds. */
  datatype Parsed = More | Got(frame: Frame, at: nat, total: nat)

  function Parse(s: seq<byte>, limit: nat): (r: Parsed)
    ensures r.Got? ==> 2 <= r.at && r.at + |r.frame.payload| <= |s| && r.at + |r.frame.payload| <= r.total
  {
    match ParseHead(s)
    case Partial => More
    case Head(fin, opcode, key, n, at) =>
      var kept := Kept(n, limit);
      if |s| - at < kept then More
      else Got(Frame(fin, opcode, MaskWith(s[at..at + kept], key)), at, at + n)
  }

  /** What the decoder makes of a frame whose payload is over the limit. */
  function Truncate(f: Frame, limit: nat): (r: Frame)
    ensures |r.payload| == Kept(|f.payload|, limit)
  {
    f.(payload := f.payload[..Kept(|f.payload|, limit)])
  }

  // ------------------------------------------------------------- bit fields

  lemma {:induction false} FirstByteFields(fin: bool, opcode: byte)
    requires opcode < 16
    ensures FirstByte(fin, opcode) & 0x0F == opcode
    ensures (FirstByte(fin, opcode) & 0x80 != 0) == fin
  {
  }

  lemma {:induction false} SecondByteFields(masked: bool, n: nat)
    requires n < 128
    ensures ToNat(SecondByte(masked, n) & 0x7F) == n
    ensures (SecondByte(masked, n) & 0x80 != 0) == masked
  {
    var b := FromNat(n);
    assert b < 0x80;
    Bits(b, if masked then 0x80 else 0);
  }

  lemma {:induction false} Bits(b: byte, m: byte)
    requires b < 0x80 && (m == 0 || m == 0x80)
    ensures (b | m) & 0x7F == b && (b | m) & 0x80 == m
  {
  }

  // ------------------------------------------------------------- properties

  lemma {:induction false} LengthRoundTrip(masked: bool, n: nat, s: seq<byte>)
    requires n < Pow256(8) && |s| > |LengthBytes(masked, n)|
    requires s[1..1 + |LengthBytes(masked, n)|] == LengthBytes(masked, n)
    ensures ParseLength(s) == Some((n, 1 + |LengthBytes(masked, n)|))
    ensures (s[1] & 0x80 != 0) == masked
  {
    assert s[1] == LengthBytes(masked, n)[0];
    if n < 0x7E {
      SecondByteFields(masked, n);
    } else if n <= 0xFFFF {
      SecondByteFields(masked, 0x7E);
      SliceTail(s, LengthBytes(masked, n), s[1], BigEndian(n, 2));
      Length2(n, s);
    } else {
      SecondByteFields(masked, 0x7F);
      SliceTail(s, LengthBytes(masked, n), s[1], BigEndian(n, 8));
      Length8(n, s);
    }
  }

  lemma {:induction false} Length2(n: nat, s: seq<byte>)
    requires n <= 0xFFFF && |s| >= 4 && ToNat(s[1] & 0x7F) == 0x7E && s[2..4] == BigEndian(n, 2)
    ensures ParseLength(s) == Some((n, 4))
  {
    Pow256Is32();
    ValueOfBigEndian(n, 2);
  }

  lemma {:induction false} Length8(n: nat, s: seq<byte>)
    requires n < Pow256(8) && |s| >= 10 && ToNat(s[1] & 0x7F) == 0x7F && s[2..10] == BigEndian(n, 8)
    ensures ParseLength(s) == Some((n, 10))
  {
    ValueOfBigEndian(n, 8);
  }

  lemma {:induction false} SliceTail(s: seq<byte>, l: seq<byte>, b: byte, t: seq<byte>)
    requires l == [b] + t && |s| > |l| && s[1..1 + |l|] == l
    ensures s[2..2 + |t|] == t
  {
    assert s[2..2 + |t|] == s[1..1 + |l|][1..];
  }

  lemma {:induction false} HeadRoundTrip(fin: bool, opcode: byte, key: Option<Key>, n: nat, rest: seq<byte>)
    requires opcode < 16 && n < Pow256(8)
    ensures var h := Header(fin, opcode, key, n);
            ParseHead(h + rest) == Head(fin, opcode, key, n, |h|)
  {
    var first, l := [FirstByte(fin, opcode)], LengthBytes(key.Some?, n);
    var k: seq<byte> := if key.Some? then key.value else [];
    var s := Header(fin, opcode, key, n) + rest;
    assert s == first + l + (k + rest) == first + l + k + rest;
    SliceOfMiddle(first, l, k + rest, |l|);
    SliceOfMiddle(first + l, k, rest, |k|);
    LengthRoundTrip(key.Some?, n, s);
    FirstByteFields(fin, opcode);
    assert s[0] == FirstByte(fin, opcode);
  }

  /** Decoding undoes encoding, whatever follows; an oversize payload is cut to the limit. */
  lemma {:induction false} DecodeEncode(f: Frame, key: Option<Key>, rest: seq<byte>, limit: nat)
    requires Encodable(f)
    ensures Parse(Encode(f, key) + rest, limit)
         == Got(Truncate(f, limit), |Header(f.fin, f.opcode, key, |f.payload|)|, |Encode(f, key)|)
  {
    var h, p := Header(f.fin, f.opcode, key, |f.payload|), MaskWith(f.payload, key);
    HeadRoundTrip(f.fin, f.opcode, key, |f.payload|, p + rest);
    DecodeAfter(h, f, key, rest, limit);
  }

  lemma {:induction false} DecodeAfter(h: seq<byte>, f: Frame, key: Option<Key>, rest: seq<byte>, limit: nat)
    requires ParseHead(h + (MaskWith(f.payload, key) + rest)) == Head(f.fin, f.opcode, key, |f.payload|, |h|)
    ensures Parse(h + MaskWith(f.payload, key) + rest, limit) == Got(Truncate(f, limit), |h|, |h| + |f.payload|)
  {
    var p, kept := MaskWith(f.payload, key), Kept(|f.payload|, limit);
    assert h + p + rest == h + (p + rest);
    SliceOfMiddle(h, p, rest, kept);
    UnmaskPrefix(f.payload, key, kept);
    ParseFrom(h + p + rest, limit, Head(f.fin, f.opcode, key, |f.payload|, |h|));
  }

  lemma {:induction false} ParseFrom(s: seq<byte>, limit: nat, h: Head)
    requires h.Head? && ParseHead(s) == h && h.size + Kept(h.length, limit) <= |s|
    ensures var payload := MaskWith(s[h.size..h.size + Kept(h.length, limit)], h.key);
            Parse(s, limit) == Got(Frame(h.fin, h.opcode, payload), h.size, h.size + h.length)
  {
  }

  lemma {:induction false} GotFits(s: seq<byte>, limit: nat)
    requires Parse(s, limit).Got?
    ensures Parse(s, limit).at + |Parse(s, limit).frame.payload| <= |s|
  {
  }

  lemma {:induction false} SliceOfMiddle<T>(a: seq<T>, b: seq<T>, c: seq<T>, k: nat)
    requires k <= |b|
    ensures (a + b + c)[|a|..|a| + k] == b[..k]
  {
  }

  lemma {:induction false} UnmaskPrefix(p: seq<byte>, key: Option<Key>, k: nat)
    requires k <= |p|
    ensures MaskWith(MaskWith(p, key)[..k], key) == p[..k]
  {
    if key.Some? {
      MaskTwice(p, key.value);
      assert Mask(Mask(p, key.value)[..k], key.value) == Mask(Mask(p, key.value), key.value)[..k];
    }
  }

  /** The round trip proper: nothing is lost up to max(125, limit) bytes of payload. */
  lemma {:induction false} RoundTrip(f: Frame, key: Option<Key>, rest: seq<byte>, limit: nat)
    requires Encodable(f) && |f.payload| <= Max(MAX_CONTROL_FRAME_LENGTH, limit)
    ensures var r := Parse(Encode(f, key) + rest, limit);
            r.Got? && r.frame == f && r.total == |Encode(f, key)|
  {
    DecodeEncode(f, key, rest, limit);
    assert f.payload[..|f.payload|] == f.payload;
  }

  /** Any header that announces `n` bytes is at least as long as the one the encoder writes. */
  lemma {:induction false} HeaderIsShortest(s: seq<byte>, opcode: byte)
    requires ParseHead(s).Head?
    ensures var h := ParseHead(s); |Header(h.fin, opcode, h.key, h.length)| <= h.size
  {
    ValueBEBound(s[2..if |s| >= 4 then 4 else 2]);
    Pow256Is32();
  }

  /** Once a frame has been recognised, more input changes nothing about it. */
  lemma {:induction false} PrefixStable(s: seq<byte>, t: seq<byte>, limit: nat)
    requires Parse(s, limit).Got?
    ensures Parse(s + t, limit) == Parse(s, limit)
  {
    HeadPrefixStable(s, t);
    var h, kept := ParseHead(s), Kept(ParseHead(s).length, limit);
    assert (s + t)[h.size..h.size + kept] == s[h.size..h.size + kept];
  }

  lemma {:induction false} HeadPrefixStable(s: seq<byte>, t: seq<byte>)
    requires ParseHead(s).Head?
    ensures ParseHead(s + t) == ParseHead(s)
  {
    var u := s + t;
    assert u[0] == s[0] && u[1] == s[1];
    assert |s| >= 4 ==> u[2..4] == s[2..4];
    assert |s| >= 10 ==> u[2..10] == s[2..10];
    var at := ParseLength(s).value.1;
    assert ParseLength(u) == ParseLength(s);
    assert |s| >= at + 4 ==> u[at..at + 4] == s[at..at + 4];
  }

  /** Frames are self-delimiting: a proper prefix of an encoded frame within the limit is never one. */
  lemma {:induction false} ProperPrefixIsMore(f: Frame, key: Option<Key>, n: nat, limit: nat)
    requires Encodable(f) && |f.payload| <= Max(MAX_CONTROL_FRAME_LENGTH, limit)
    requires n < |Encode(f, key)|
    ensures Parse(Encode(f, key)[..n], limit) == More
  {
    var s := Encode(f, key);
    DecodeEncode(f, key, [], limit);
    assert s + [] == s;
    CutFrameIsMore(s, n, limit);
  }

  lemma {:induction false} CutFrameIsMore(s: seq<byte>, n: nat, limit: nat)
    requires Parse(s, limit).Got? && Parse(s, limit).at + |Parse(s, limit).frame.payload| == |s| && n < |s|
    ensures Parse(s[..n], limit) == More
  {
    assert s[..n] + s[n..] == s;
    if Parse(s[..n], limit).Got? {
      GotFits(s[..n], limit);
      PrefixStable(s[..n], s[n..], limit);
    }
  }

  /** No two different (frame, key) pairs share an encoding. */
  lemma {:induction false} EncodeIsInjective(f: Frame, key: Option<Key>, f': Frame, key': Option<Key>)
    requires Encodable(f) && Encodable(f') && Encode(f, key) == Encode(f', key')
    ensures f == f' && key == key'
  {
    var limit := Max(|f.payload|, |f'.payload|);
    RoundTrip(f, key, [], limit);
    RoundTrip(f', key', [], limit);
    HeadRoundTrip(f.fin, f.opcode, key, |f.payload|, MaskWith(f.payload, key));
    HeadRoundTrip(f'.fin, f'.opcode, key', |f'.payload|, MaskWith(f'.payload, key'));
  }
}
