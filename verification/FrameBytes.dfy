/**
 * The frame format as the bytes on the wire (RFC 6455 sections 5.2 and 5.3), in numbers: what the encoder
 * writes, what the decoder makes of any bytes, and the examples of section 5.7.
 */
module FrameBytes {
  import opened Bytes
  import opened Frames

  // ------------------------------------------------------------- bit fields

  lemma {:induction false} HighBit(b: byte)
    ensures b & 0x80 != 0 <==> ToNat(b) >= 128
  {
  }

  lemma {:induction false} LowSeven(b: byte)
    ensures ToNat(b & 0x7F) == ToNat(b) % 128
  {
  }

  lemma {:induction false} LowFour(b: byte)
    ensures ToNat(b & 0x0F) == ToNat(b) % 16
  {
  }

  lemma {:induction false} SetHighBit(b: byte)
    requires ToNat(b) < 128
    ensures ToNat(b | 0x80) == ToNat(b) + 128
  {
  }

  // ------------------------------------------------- the fields of a header

  function Fin(s: seq<byte>): bool
    requires |s| >= 2
  {
    ToNat(s[0]) >= 128
  }

  function Opcode(s: seq<byte>): nat
    requires |s| >= 2
  {
    ToNat(s[0]) % 16
  }

  function Masked(s: seq<byte>): bool
    requires |s| >= 2
  {
    ToNat(s[1]) >= 128
  }

  function Short(s: seq<byte>): nat
    requires |s| >= 2
  {
    ToNat(s[1]) % 128
  }

  /** Where the length ends: a short length of 126 or 127 announces one of two or eight bytes. */
  function LengthEnd(s: seq<byte>): nat
    requires |s| >= 2
  {
    if Short(s) == 126 then 4 else if Short(s) == 127 then 10 else 2
  }

  /** The length, in network order when it is longer. */
  function Length(s: seq<byte>): nat
    requires |s| >= 2 && |s| >= LengthEnd(s)
  {
    if Short(s) == 126 then ToNat(s[2]) * 256 + ToNat(s[3])
    else if Short(s) == 127 then
      Four(s, 2) * 0x1_0000_0000 + Four(s, 6)
    else Short(s)
  }

  function Four(s: seq<byte>, i: nat): nat
    requires i + 4 <= |s|
  {
    ToNat(s[i]) * 0x100_0000 + ToNat(s[i + 1]) * 0x1_0000 + ToNat(s[i + 2]) * 0x100 + ToNat(s[i + 3])
  }

  /** Where the payload begins: the masking key comes last. */
  function HeaderEnd(s: seq<byte>): nat
    requires |s| >= 2
  {
    LengthEnd(s) + if Masked(s) then 4 else 0
  }

  lemma {:induction false} NextByte(s: seq<byte>, i: nat)
    requires i < |s|
    ensures ValueBE(s[..i + 1]) == ValueBE(s[..i]) * 256 + ToNat(s[i])
  {
    assert s[..i + 1][..i] == s[..i];
  }

  lemma {:induction false} ValueOfTwo(s: seq<byte>)
    requires |s| == 2
    ensures ValueBE(s) == ToNat(s[0]) * 256 + ToNat(s[1])
  {
    NextByte(s, 0);
    NextByte(s, 1);
    assert s[..2] == s && ValueBE(s[..0]) == 0;
  }

  lemma {:induction false} ValueOfFour(s: seq<byte>)
    requires |s| == 4
    ensures ValueBE(s) == Four(s, 0)
  {
    hide ToNat;
    ValueOfTwo(s[..2]);
    assert s[..2][0] == s[0] && s[..2][1] == s[1];
    NextByte(s, 2);
    NextByte(s, 3);
    hide ValueBE;
    assert s[..4] == s;
  }

  lemma {:induction false} ValueOfEight(s: seq<byte>)
    requires |s| == 8
    ensures ValueBE(s) == Four(s, 0) * 0x1_0000_0000 + Four(s, 4)
  {
    hide ToNat;
    Pow256Is32();
    assert s == s[..4] + s[4..];
    ValueBEAppend(s[..4], s[4..]);
    ValueOfFour(s[..4]);
    ValueOfFour(s[4..]);
    assert Four(s[..4], 0) == Four(s, 0) && Four(s[4..], 0) == Four(s, 4);
  }

  // ------------------------------------------------------------ the decoder

  lemma {:induction false} LengthOnWire(s: seq<byte>)
    requires |s| >= 2
    ensures ParseLength(s) == if |s| < LengthEnd(s) then None else Some((Length(s), LengthEnd(s)))
  {
    LowSeven(s[1]);
    hide ToNat, ValueBE;
    if Short(s) == 126 && |s| >= 4 {
      ValueOfTwo(s[2..4]);
    } else if Short(s) == 127 && |s| >= 10 {
      ValueOfEight(s[2..10]);
      assert Four(s[2..10], 0) == Four(s, 2) && Four(s[2..10], 4) == Four(s, 6);
    }
  }

  /** Field by field, what the decoder makes of a header, and when it waits for more of it. */
  lemma {:induction false} HeadOnWire(s: seq<byte>)
    ensures var h := ParseHead(s);
            && (h.Head? <==> |s| >= 2 && |s| >= HeaderEnd(s))
            && (h.Head? ==> && h.fin == Fin(s) && ToNat(h.opcode) == Opcode(s) && h.length == Length(s)
                            && h.size == HeaderEnd(s)
                            && h.key == if Masked(s) then Some(s[h.size - 4..h.size]) else None)
  {
    if |s| >= 2 {
      HighBit(s[0]);
      HighBit(s[1]);
      LowFour(s[0]);
      LengthOnWire(s);
      hide ToNat, ParseLength, Length, LengthEnd;
    }
  }

  /**
   * What the decoder makes of any bytes: it waits until the header and what is kept of the payload are
   * there; then the fields are those of the header, and octet i of the payload is unmasked with octet
   * i mod 4 of the key, the last four bytes of the header.
   */
  lemma {:induction false} ParseOnWire(s: seq<byte>, limit: nat)
    ensures var p := Parse(s, limit);
            && (p.Got? <==> |s| >= 2 && |s| >= HeaderEnd(s) && |s| - HeaderEnd(s) >= Min(Length(s), Max(125, limit)))
            && (p.Got? ==> && p.frame.fin == Fin(s) && ToNat(p.frame.opcode) == Opcode(s)
                           && p.at == HeaderEnd(s) && p.total == HeaderEnd(s) + Length(s)
                           && |p.frame.payload| == Min(Length(s), Max(125, limit))
                           && forall i :: 0 <= i < |p.frame.payload| ==>
                                p.frame.payload[i] == if Masked(s) then s[p.at + i] ^ s[p.at - 4 + i % 4] else s[p.at + i])
  {
    HeadOnWire(s);
    hide ParseHead, Length, LengthEnd, Short, Fin, Opcode, ToNat, MaskWith;
    var h := ParseHead(s);
    if h.Head? && |s| - h.size >= Kept(h.length, limit) {
      ParseFrom(s, limit, h);
      Unmasked(s, h.size, Kept(h.length, limit), Masked(s));
      hide Masked;
    }
  }

  lemma {:induction false} Unmasked(s: seq<byte>, at: nat, n: nat, masked: bool)
    requires 4 <= at || !masked
    requires at + n <= |s|
    ensures var p := MaskWith(s[at..at + n], if masked then Some(s[at - 4..at]) else None);
            forall i :: 0 <= i < n ==> p[i] == if masked then s[at + i] ^ s[at - 4 + i % 4] else s[at + i]
  {
    var x := s[at..at + n];
    if masked {
      var key := s[at - 4..at];
      forall i | 0 <= i < n ensures Mask(x, key)[i] == s[at + i] ^ s[at - 4 + i % 4] {
        MaskAt(x, key, i);
        assert key[i % 4] == s[at - 4 + i % 4];
      }
    }
  }

  lemma {:induction false} MaskAt(p: seq<byte>, key: Key, i: nat)
    requires i < |p|
    ensures Mask(p, key)[i] == p[i] ^ key[i % 4]
  {
  }

  // ------------------------------------------------------------ the encoder

  /** What the encoder writes, byte for byte: the fields in the shortest form, the key, the masked payload. */
  lemma {:induction false} EncodeOnWire(f: Frame, key: Option<Key>)
    requires Encodable(f)
    ensures var s, n := Encode(f, key), |f.payload|;
            && |s| >= 2 && |s| >= HeaderEnd(s) && |s| == HeaderEnd(s) + n
            && Fin(s) == f.fin && Opcode(s) == ToNat(f.opcode) && Length(s) == n && Masked(s) == key.Some?
            && Short(s) == (if n < 126 then n else if n < 0x1_0000 then 126 else 127)
            && forall i :: 0 <= i < n ==>
                 f.payload[i] == if key.Some? then s[HeaderEnd(s) + i] ^ s[HeaderEnd(s) - 4 + i % 4] else s[HeaderEnd(s) + i]
  {
    hide Encode, Parse, Header, Length, LengthEnd, Short, Fin, Opcode, Masked, ToNat, Truncate;
    var s := Encode(f, key);
    DecodeEncode(f, key, [], |f.payload|);
    assert s + [] == s;
    WholeWithin(f);
    EncodedLength(f, key);
    ParseOnWire(s, |f.payload|);
    ShortOnWire(f, key);
  }

  lemma {:induction false} EncodedLength(f: Frame, key: Option<Key>)
    ensures |Encode(f, key)| == |Header(f.fin, f.opcode, key, |f.payload|)| + |f.payload|
  {
  }

  lemma {:induction false} WholeWithin(f: Frame)
    ensures Truncate(f, |f.payload|) == f
  {
    assert f.payload[..|f.payload|] == f.payload;
  }

  lemma {:induction false} ShortOnWire(f: Frame, key: Option<Key>)
    requires Encodable(f)
    ensures var s, n := Encode(f, key), |f.payload|;
            |s| >= 2 && Short(s) == (if n < 126 then n else if n < 0x1_0000 then 126 else 127)
            && Masked(s) == key.Some?
  {
    var n := |f.payload|;
    var short := if n < 126 then n else if n < 0x1_0000 then 126 else 127;
    SecondWritten(f, key, short);
    hide Encode, SecondByte;
    SecondByteFields(key.Some?, short);
    LowSeven(SecondByte(key.Some?, short));
    HighBit(SecondByte(key.Some?, short));
  }

  lemma {:induction false} SecondWritten(f: Frame, key: Option<Key>, short: nat)
    requires short == if |f.payload| < 126 then |f.payload| else if |f.payload| < 0x1_0000 then 126 else 127
    ensures |Encode(f, key)| >= 2 && Encode(f, key)[1] == SecondByte(key.Some?, short)
  {
    hide BigEndian, FirstByte, SecondByte, MaskWith;
    assert LengthBytes(key.Some?, |f.payload|)[0] == SecondByte(key.Some?, short);
  }

  /** The upper bits of the first byte that the encoder does not use are clear. */
  lemma {:induction false} ReservedBitsAreClear(f: Frame, key: Option<Key>)
    requires Encodable(f)
    ensures ToNat(Encode(f, key)[0]) == (if f.fin then 128 else 0) + ToNat(f.opcode)
  {
    assert Encode(f, key)[0] == FirstByte(f.fin, f.opcode);
    FirstByteIs(f.fin, f.opcode);
  }

  lemma {:induction false} FirstByteIs(fin: bool, opcode: byte)
    requires opcode < 16
    ensures ToNat(FirstByte(fin, opcode)) == (if fin then 128 else 0) + ToNat(opcode)
  {
    assert ToNat(opcode) < 128;
    SetHighBit(opcode);
    assert opcode & 0x0F == opcode;
    assert opcode | 0 == opcode;
  }

  // ----------------------------------------- the examples of RFC 6455 section 5.7

  const HELLO: seq<byte> := [0x48, 0x65, 0x6c, 0x6c, 0x6f]
  const KEY: Key := [0x37, 0xfa, 0x21, 0x3d]

  lemma {:induction false} SmallHeader(fin: bool, opcode: byte, key: Option<Key>, n: nat, second: byte)
    requires n < 126 && opcode < 16 && ToNat(second) == (if key.Some? then 128 else 0) + n
    ensures Header(fin, opcode, key, n)
         == [if fin then opcode | 0x80 else opcode, second] + (if key.Some? then key.value else [])
  {
    assert opcode & 0x0F == opcode && opcode | 0 == opcode;
    SecondByteIs(key.Some?, n, second);
  }

  lemma {:induction false} SecondByteIs(masked: bool, n: nat, second: byte)
    requires n < 128 && ToNat(second) == (if masked then 128 else 0) + n
    ensures SecondByte(masked, n) == second
  {
    var b := FromNat(n);
    SetHighBit(b);
    assert b | 0 == b;
    SameNumber(SecondByte(masked, n), second);
  }

  /** A single-frame unmasked text message, and the same in two fragments. */
  lemma {:induction false} UnmaskedHello()
    ensures Encode(Frame(true, TEXT_FRAME, HELLO), None) == [0x81, 0x05, 0x48, 0x65, 0x6c, 0x6c, 0x6f]
    ensures Encode(Frame(false, TEXT_FRAME, HELLO[..3]), None) == [0x01, 0x03, 0x48, 0x65, 0x6c]
    ensures Encode(Frame(true, CONTINUATION, HELLO[3..]), None) == [0x80, 0x02, 0x6c, 0x6f]
  {
    SmallHeader(true, TEXT_FRAME, None, 5, 5);
    SmallHeader(false, TEXT_FRAME, None, 3, 3);
    SmallHeader(true, CONTINUATION, None, 2, 2);
  }

  lemma {:induction false} HelloMasked()
    ensures Mask(HELLO, KEY) == [0x7f, 0x9f, 0x4d, 0x51, 0x58]
  {
  }

  /** A single-frame masked text message; an unmasked ping, and the masked pong that answers it; a CLOSE. */
  lemma {:induction false} MaskedHello()
    ensures Encode(Frame(true, TEXT_FRAME, HELLO), Some(KEY))
         == [0x81, 0x85, 0x37, 0xfa, 0x21, 0x3d, 0x7f, 0x9f, 0x4d, 0x51, 0x58]
    ensures Encode(Frame(true, PING, HELLO), None) == [0x89, 0x05, 0x48, 0x65, 0x6c, 0x6c, 0x6f]
    ensures Encode(Frame(true, PONG, HELLO), Some(KEY))
         == [0x8a, 0x85, 0x37, 0xfa, 0x21, 0x3d, 0x7f, 0x9f, 0x4d, 0x51, 0x58]
    ensures Encode(Frame(true, CLOSE, []), None) == [0x88, 0x00]
  {
    HelloMasked();
    SmallHeader(true, TEXT_FRAME, Some(KEY), 5, 0x85);
    SmallHeader(true, PONG, Some(KEY), 5, 0x85);
    SmallHeader(true, PING, None, 5, 5);
    SmallHeader(true, CLOSE, None, 0, 0);
  }

  lemma {:induction false} LongHeader(n: nat, short: nat)
    requires 126 <= n && short == if n < 0x1_0000 then 126 else 127
    ensures Header(true, BINARY_FRAME, None, n) == [0x82, FromNat(short)] + BigEndian(n, if short == 126 then 2 else 8)
  {
    hide BigEndian;
    SecondByteIs(false, short, FromNat(short));
    assert FirstByte(true, BINARY_FRAME) == 0x82;
  }

  lemma {:induction false} ShortCodes()
    ensures FromNat(126) == 0x7e && FromNat(127) == 0x7f
  {
    hide FromNat;
    SameNumber(FromNat(126), 0x7e);
    SameNumber(FromNat(127), 0x7f);
  }

  /** 256 bytes and 64 kilobytes of binary data, unmasked. */
  lemma {:induction false} LongBinary(data: seq<byte>)
    ensures |data| == 256 ==> Encode(Frame(true, BINARY_FRAME, data), None) == [0x82, 0x7e, 0x01, 0x00] + data
    ensures |data| == 0x1_0000 ==>
      Encode(Frame(true, BINARY_FRAME, data), None) == [0x82, 0x7f, 0, 0, 0, 0, 0, 1, 0, 0] + data
  {
    hide BigEndian, Header, FromNat;
    ShortCodes();
    if |data| == 256 {
      LongHeader(256, 126);
      LongBytes(1, 2);
    } else if |data| == 0x1_0000 {
      LongHeader(0x1_0000, 127);
      LongBytes(0x100, 8);
    }
  }

  lemma {:induction false} LongBytes(n: nat, k: nat)
    requires (n == 1 && k == 2) || (n == 0x100 && k == 8)
    ensures n == 1 ==> BigEndian(256, 2) == [1, 0]
    ensures n == 0x100 ==> BigEndian(0x1_0000, 8) == [0, 0, 0, 0, 0, 1, 0, 0]
  {
    Zeros(6);
    Zeros(5);
    Zeros(1);
    Zeros(0);
    assert FromNat(0) == 0 && FromNat(1) == 1 by { SameNumber(FromNat(1), 1); }
    assert BigEndian(1, 1) == BigEndian(0, 0) + [1];
    assert BigEndian(256, 2) == BigEndian(1, 1) + [0];
    assert BigEndian(1, 6) == BigEndian(0, 5) + [1];
    assert BigEndian(256, 7) == BigEndian(1, 6) + [0];
    assert BigEndian(0x1_0000, 8) == BigEndian(256, 7) + [0];
  }

  lemma {:induction false} Zeros(k: nat)
    ensures BigEndian(0, k) == seq(k, _ => 0)
  {
    if k > 0 {
      Zeros(k - 1);
      assert FromNat(0) == 0;
    }
  }
}
