/** Base64 encoding, and the decoder of RFC 4648 section 4 it is measured against. */
module Base64 {
  import opened Bytes
  import opened Collections

  /** The 64-character table "A..Za..z0..9+/". */
  function Tab(b: byte): char
    requires b < 64
  {
    var n := ToNat(b);
    if n < 26 then 'A' + n as char
    else if n < 52 then 'a' + (n - 26) as char
    else if n < 62 then '0' + (n - 52) as char
    else if n == 62 then '+' else '/'
  }

  // ------------------------------------------------------------ the encoder

  // the four 6-bit groups of three bytes
  function Sextet0(d0: byte): (r: byte) ensures r < 64 { d0 >> 2 }
  function Sextet1(d0: byte, d1: byte): (r: byte) ensures r < 64 { ((d0 & 3) << 4) | (d1 >> 4) }
  function Sextet2(d1: byte, d2: byte): (r: byte) ensures r < 64 { ((d1 & 0x0F) << 2) | (d2 >> 6) }
  function Sextet3(d2: byte): (r: byte) ensures r < 64 { d2 & 0x3F }

  function Encode3(d0: byte, d1: byte, d2: byte): (r: string)
    ensures |r| == 4
  {
    [Tab(Sextet0(d0)), Tab(Sextet1(d0, d1)), Tab(Sextet2(d1, d2)), Tab(Sextet3(d2))]
  }

  /** One or two bytes are left: missing bits are zero, missing characters are '='. */
  function EncodeTail(d: seq<byte>): (r: string)
    requires 0 < |d| < 3
    ensures |r| == 4
  {
    if |d| == 1 then [Tab(Sextet0(d[0])), Tab(Sextet1(d[0], 0)), '=', '=']
    else [Tab(Sextet0(d[0])), Tab(Sextet1(d[0], d[1])), Tab(Sextet2(d[1], 0)), '=']
  }

  function Encode(d: seq<byte>): string {
    if d == [] then ""
    else if |d| < 3 then EncodeTail(d)
    else Encode3(d[0], d[1], d[2]) + Encode(d[3..])
  }

  lemma {:induction false} EncodeFrom(d: seq<byte>, i: nat)
    requires i + 3 <= |d|
    ensures Encode(d[i..]) == Encode3(d[i], d[i + 1], d[i + 2]) + Encode(d[i + 3..])
  {
    assert d[i..][3..] == d[i + 3..];
  }

  method Base64Encode(data: seq<byte>) returns (out: string)
    ensures out == Encode(data)
  {
    hide Tab, Sextet0, Sextet1, Sextet2, Sextet3;
    out := "";
    var i := 0;
    while |data| - i >= 3
      invariant 0 <= i <= |data|
      invariant Encode(data) == out + Encode(data[i..])
    {
      var d0, d1, d2 := data[i], data[i + 1], data[i + 2];
      EncodeFrom(data, i);
      Associative(out, Encode3(d0, d1, d2), Encode(data[i + 3..]));
      out := out + [Tab(Sextet0(d0)), Tab(Sextet1(d0, d1)), Tab(Sextet2(d1, d2)), Tab(Sextet3(d2))];
      i := i + 3;
    }
    if i < |data| {
      var tail := EncodeLeft(data[i..]);
      out := out + tail;
    }
  }

  method EncodeLeft(left: seq<byte>) returns (out: string)
    requires 0 < |left| < 3
    ensures out == EncodeTail(left)
  {
    var d0 := left[0];
    out := [Tab(Sextet0(d0))];
    if |left| == 1 {
      out := out + [Tab(Sextet1(d0, 0)), '='];
    } else {
      var d1 := left[1];
      out := out + [Tab(Sextet1(d0, d1)), Tab(Sextet2(d1, 0))];
    }
    out := out + ['='];
  }

  // ------------------------------------------------- the RFC 4648 decoder

  predicate InAlphabet(c: char) {
    'A' <= c <= 'Z' || 'a' <= c <= 'z' || '0' <= c <= '9' || c == '+' || c == '/'
  }

  /** Table 1 of RFC 4648, read backwards. */
  function Value(c: char): (b: byte)
    requires InAlphabet(c)
  {
    FromNat(
      if 'A' <= c <= 'Z' then c as int - 'A' as int
      else if 'a' <= c <= 'z' then c as int - 'a' as int + 26
      else if '0' <= c <= '9' then c as int - '0' as int + 52
      else if c == '+' then 62 else 63)
  }

  // the three bytes of four 6-bit groups
  function Octet0(a: byte, b: byte): byte { (a << 2) | (b >> 4) }
  function Octet1(b: byte, c: byte): byte { ((b & 0x0F) << 4) | (c >> 2) }
  function Octet2(c: byte, d: byte): byte { ((c & 0x03) << 6) | d }

  function Decode4(c0: char, c1: char, c2: char, c3: char): Option<seq<byte>> {
    if !InAlphabet(c0) || !InAlphabet(c1) then None
    else
      var b0 := Octet0(Value(c0), Value(c1));
      if c2 == '=' && c3 == '=' then Some([b0])
      else if !InAlphabet(c2) then None
      else
        var b1 := Octet1(Value(c1), Value(c2));
        if c3 == '=' then Some([b0, b1])
        else if !InAlphabet(c3) then None
        else Some([b0, b1, Octet2(Value(c2), Value(c3))])
  }

  /** Groups of four; only the last may be padded. */
  function Decode(s: string): Option<seq<byte>> {
    if s == "" then Some([])
    else if |s| < 4 then None
    else
      match Decode4(s[0], s[1], s[2], s[3])
      case None => None
      case Some(d) =>
        if |s| == 4 then Some(d)
        else if |d| < 3 then None
        else
          match Decode(s[4..])
          case None => None
          case Some(e) => Some(d + e)
  }

  // ------------------------------------------------------------- properties

  lemma {:induction false} ValueOfTab(b: byte)
    requires b < 64
    ensures InAlphabet(Tab(b)) && Tab(b) != '=' && Value(Tab(b)) == b
  {
    FromNatToNat(b);
  }

  lemma {:induction false} OctetsOfSextets(d0: byte, d1: byte, d2: byte)
    ensures Octet0(Sextet0(d0), Sextet1(d0, d1)) == d0
    ensures Octet1(Sextet1(d0, d1), Sextet2(d1, d2)) == d1
    ensures Octet2(Sextet2(d1, d2), Sextet3(d2)) == d2
  {
  }

  lemma {:induction false} DecodeTabs(a: byte, b: byte, c: byte, d: byte)
    requires a < 64 && b < 64 && c < 64 && d < 64
    ensures Decode4(Tab(a), Tab(b), '=', '=') == Some([Octet0(a, b)])
    ensures Decode4(Tab(a), Tab(b), Tab(c), '=') == Some([Octet0(a, b), Octet1(b, c)])
    ensures Decode4(Tab(a), Tab(b), Tab(c), Tab(d)) == Some([Octet0(a, b), Octet1(b, c), Octet2(c, d)])
  {
    ValueOfTab(a);
    ValueOfTab(b);
    ValueOfTab(c);
    ValueOfTab(d);
  }

  lemma {:induction false} DecodeEncode3(d0: byte, d1: byte, d2: byte)
    ensures var e := Encode3(d0, d1, d2); Decode4(e[0], e[1], e[2], e[3]) == Some([d0, d1, d2])
  {
    DecodeTabs(Sextet0(d0), Sextet1(d0, d1), Sextet2(d1, d2), Sextet3(d2));
    OctetsOfSextets(d0, d1, d2);
  }

  lemma {:induction false} DecodeEncodeTail(d: seq<byte>)
    requires 0 < |d| < 3
    ensures var e := EncodeTail(d); Decode4(e[0], e[1], e[2], e[3]) == Some(d)
  {
    if |d| == 1 {
      DecodeTabs(Sextet0(d[0]), Sextet1(d[0], 0), 0, 0);
      OctetsOfSextets(d[0], 0, 0);
      assert d == [d[0]];
    } else {
      DecodeTabs(Sextet0(d[0]), Sextet1(d[0], d[1]), Sextet2(d[1], 0), 0);
      OctetsOfSextets(d[0], d[1], 0);
      assert d == [d[0], d[1]];
    }
  }

  lemma {:induction false} DecodeGroup(g: string, rest: string, d: seq<byte>, e: seq<byte>)
    requires |g| == 4 && |d| == 3 && Decode4(g[0], g[1], g[2], g[3]) == Some(d)
    requires (rest == "" || |rest| >= 4) && Decode(rest) == Some(e)
    ensures Decode(g + rest) == Some(d + e)
  {
    var s := g + rest;
    assert s[4..] == rest && d + [] == d;
    assert s[0] == g[0] && s[1] == g[1] && s[2] == g[2] && s[3] == g[3];
  }

  /** RFC 4648 decoding undoes the encoder. */
  lemma {:induction false} DecodeEncode(d: seq<byte>)
    ensures Decode(Encode(d)) == Some(d)
  {
    hide Tab, Decode4, Encode3, EncodeTail;
    if d == [] {
    } else if |d| < 3 {
      DecodeEncodeTail(d);
    } else {
      DecodeEncode(d[3..]);
      EncodedSize(d[3..]);
      DecodeEncode3(d[0], d[1], d[2]);
      DecodeGroup(Encode3(d[0], d[1], d[2]), Encode(d[3..]), [d[0], d[1], d[2]], d[3..]);
      assert [d[0], d[1], d[2]] + d[3..] == d;
    }
  }

  lemma {:induction false} EncodedSize(d: seq<byte>)
    ensures |Encode(d)| == 4 * ((|d| + 2) / 3)
  {
    if |d| >= 3 {
      EncodedSize(d[3..]);
    }
  }

  lemma {:induction false} TabsInAlphabet(a: byte, b: byte, c: byte, d: byte)
    requires a < 64 && b < 64 && c < 64 && d < 64
    ensures forall x | x in [Tab(a), Tab(b), Tab(c), Tab(d)] :: InAlphabet(x)
  {
  }

  lemma {:induction false} TailAlphabet(d: seq<byte>, i: nat)
    requires 0 < |d| < 3 && i < 4
    ensures if i <= |d| then InAlphabet(EncodeTail(d)[i]) else EncodeTail(d)[i] == '='
  {
    var d1 := if |d| == 2 then d[1] else 0;
    TabsInAlphabet(Sextet0(d[0]), Sextet1(d[0], d1), Sextet2(d1, 0), 0);
  }

  /** Every character is in the alphabet, apart from the padding the length asks for. */
  lemma {:induction false} EncodedAlphabet(d: seq<byte>, i: nat)
    requires i < |Encode(d)|
    ensures if i < |Encode(d)| - (3 - |d| % 3) % 3 then InAlphabet(Encode(d)[i]) else Encode(d)[i] == '='
  {
    hide Tab, InAlphabet, EncodeTail, Encode3;
    EncodedSize(d);
    if |d| < 3 {
      TailAlphabet(d, i);
    } else if i < 4 {
      GroupAlphabet(d[0], d[1], d[2], i);
    } else {
      EncodedSize(d[3..]);
      EncodedAlphabet(d[3..], i - 4);
    }
  }

  lemma {:induction false} GroupAlphabet(d0: byte, d1: byte, d2: byte, i: nat)
    requires i < 4
    ensures InAlphabet(Encode3(d0, d1, d2)[i])
  {
    TabsInAlphabet(Sextet0(d0), Sextet1(d0, d1), Sextet2(d1, d2), Sextet3(d2));
  }

  lemma {:induction false} EncodeIsInjective(d: seq<byte>, e: seq<byte>)
    requires Encode(d) == Encode(e)
    ensures d == e
  {
    DecodeEncode(d);
    DecodeEncode(e);
  }
}
