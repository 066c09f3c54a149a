/** Bytes, byte order and the XOR mask of RFC 6455 section 5.3. */
module Bytes {

  type byte = bv8

  datatype Option<+T> = None | Some(value: T)

  function ToNat(b: byte): (n: nat)
    ensures n < 256
  {
    b as nat
  }

  lemma {:induction false} Doubled(b: byte)
    requires ToNat(b) < 128
    ensures ToNat(b << 1) == 2 * ToNat(b) && ToNat((b << 1) | 1) == 2 * ToNat(b) + 1
  {
  }

  /** The byte with the bits of `n`. */
  function FromNat(n: nat): (b: byte)
    requires n < 256
    ensures ToNat(b) == n
  {
    if n == 0 then 0
    else
      var half := FromNat(n / 2);
      Doubled(half);
      if n % 2 == 0 then half << 1 else (half << 1) | 1
  }

  lemma {:induction false} SameNumber(a: byte, b: byte)
    requires ToNat(a) == ToNat(b)
    ensures a == b
  {
    assert ToNat(a) as byte == a && ToNat(b) as byte == b;
  }

  lemma {:induction false} FromNatToNat(b: byte)
    ensures FromNat(ToNat(b)) == b
  {
    hide FromNat;
    SameNumber(FromNat(ToNat(b)), b);
  }

  function Min(a: nat, b: nat): nat {
    if a < b then a else b
  }

  function Max(a: nat, b: nat): nat {
    if a < b then b else a
  }

  /** The first `n` bytes of `s`, or all of it when it is shorter. */
  function Take<T>(n: nat, s: seq<T>): seq<T> {
    s[..Min(n, |s|)]
  }

  function Concat<T>(parts: seq<seq<T>>): seq<T> {
    if parts == [] then [] else parts[0] + Concat(parts[1..])
  }

  lemma {:induction false} ConcatAppend<T>(a: seq<seq<T>>, b: seq<seq<T>>)
    ensures Concat(a + b) == Concat(a) + Concat(b)
  {
    if a == [] {
      assert a + b == b;
    } else {
      assert (a + b)[1..] == a[1..] + b;
      ConcatAppend(a[1..], b);
    }
  }

  lemma {:induction false} ConcatLast<T>(a: seq<seq<T>>, x: seq<T>)
    ensures Concat(a + [x]) == Concat(a) + x
  {
    ConcatAppend(a, [x]);
    assert Concat([x]) == x + Concat([]);
  }

  // ---------------------------------------------------------------- numbers

  function Pow256(k: nat): (p: nat)
    ensures p > 0
  {
    if k == 0 then 1 else 256 * Pow256(k - 1)
  }

  /** The `k` low-order bytes of `n`, most significant first (network order). */
  function BigEndian(n: nat, k: nat): (s: seq<byte>)
    ensures |s| == k
  {
    if k == 0 then [] else BigEndian(n / 256, k - 1) + [FromNat(n % 256)]
  }

  function ValueBE(s: seq<byte>): nat {
    if s == [] then 0 else ValueBE(s[..|s| - 1]) * 256 + ToNat(s[|s| - 1])
  }

  /** How a little-endian host lays the `k` low-order bytes of `n` out in memory. */
  function LittleEndian(n: nat, k: nat): (s: seq<byte>)
    ensures |s| == k
  {
    if k == 0 then [] else [FromNat(n % 256)] + LittleEndian(n / 256, k - 1)
  }

  function ValueLE(s: seq<byte>): nat {
    if s == [] then 0 else ToNat(s[0]) + 256 * ValueLE(s[1..])
  }

  function Reverse<T>(s: seq<T>): (r: seq<T>)
    ensures |r| == |s|
  {
    if s == [] then [] else Reverse(s[1..]) + [s[0]]
  }

  lemma {:induction false} ValueOfBigEndian(n: nat, k: nat)
    requires n < Pow256(k)
    ensures ValueBE(BigEndian(n, k)) == n
  {
    if k > 0 {
      ValueOfBigEndian(n / 256, k - 1);
      assert BigEndian(n, k)[..k - 1] == BigEndian(n / 256, k - 1);
    }
  }

  lemma {:induction false} ValueBEBound(s: seq<byte>)
    ensures ValueBE(s) < Pow256(|s|)
  {
    if s != [] {
      ValueBEBound(s[..|s| - 1]);
    }
  }

  lemma {:induction false} LittleEndianOfValueLE(s: seq<byte>)
    ensures LittleEndian(ValueLE(s), |s|) == s
  {
    hide FromNat, ToNat;
    if s != [] {
      LittleEndianOfValueLE(s[1..]);
      FromNatToNat(s[0]);
      assert ValueLE(s) % 256 == ToNat(s[0]) && ValueLE(s) / 256 == ValueLE(s[1..]);
    }
  }

  lemma {:induction false} ReverseAppend<T>(s: seq<T>, x: T)
    ensures Reverse(s + [x]) == [x] + Reverse(s)
  {
    if s == [] {
      assert Reverse([x]) == Reverse<T>([]) + [x];
    } else {
      assert (s + [x])[1..] == s[1..] + [x];
      ReverseAppend(s[1..], x);
    }
  }

  lemma {:induction false} StoreSwapped(s: seq<byte>)
    ensures LittleEndian(ValueBE(s), |s|) == Reverse(s)
  {
    hide FromNat, ToNat;
    if s != [] {
      var init, last := s[..|s| - 1], s[|s| - 1];
      FromNatToNat(last);
      StoreSwapped(init);
      ReverseAppend(init, last);
      assert s == init + [last];
      assert ValueBE(s) % 256 == ToNat(last) && ValueBE(s) / 256 == ValueBE(init);
    }
  }

  lemma {:induction false} ReverseLittleEndian(n: nat, k: nat)
    ensures Reverse(LittleEndian(n, k)) == BigEndian(n, k)
  {
    if k > 0 {
      ReverseLittleEndian(n / 256, k - 1);
      assert LittleEndian(n, k)[1..] == LittleEndian(n / 256, k - 1);
    }
  }

  // ------------------------------------------- htons and the htonll macro

  const TWO32: nat := 0x1_0000_0000

  /** A byte swap of a `k`-byte word, as htons and htonl do on a little-endian host. */
  function Swap(n: nat, k: nat): (r: nat)
    ensures r < Pow256(k)
  {
    ValueBEBound(LittleEndian(n, k));
    ValueBE(LittleEndian(n, k))
  }

  /** The macro: swap each half and exchange the halves. */
  function Htonll(n: nat): nat {
    SwapHalves(n, 4)
  }

  function SwapHalves(n: nat, k: nat): nat {
    Swap(n % TWO32, k) * TWO32 + Swap(n / TWO32 % TWO32, k)
  }

  /** Storing a swapped word on a little-endian host leaves its network-order bytes. */
  lemma {:induction false} StoreNetworkOrder(n: nat, k: nat)
    ensures LittleEndian(Swap(n, k), k) == BigEndian(n, k)
  {
    StoreSwapped(LittleEndian(n, k));
    ReverseLittleEndian(n, k);
  }

  lemma {:induction false} Pow256Is32()
    ensures Pow256(4) == TWO32 && Pow256(2) == 0x1_0000 && Pow256(8) == TWO32 * TWO32
  {
    assert Pow256(2) == 256 * Pow256(1);
    assert Pow256(4) == 256 * Pow256(3) == 256 * 256 * Pow256(2);
    assert Pow256(6) == 256 * Pow256(5) == 256 * 256 * Pow256(4);
    assert Pow256(8) == 256 * Pow256(7) == 256 * 256 * Pow256(6);
  }

  lemma {:induction false} DivAdd(a: nat, m: nat)
    ensures (a + 256 * m) % 256 == a % 256 && (a + 256 * m) / 256 == a / 256 + m
  {
  }

  lemma {:induction false} PowStep(k: nat, hi: nat)
    requires k > 0
    ensures Pow256(k) * hi == 256 * (Pow256(k - 1) * hi)
  {
    MulStep(Pow256(k - 1), hi);
  }

  lemma {:induction false} MulStep(p: nat, hi: nat)
    ensures 256 * p * hi == 256 * (p * hi)
  {
  }

  lemma {:induction false} FirstByteApart(n: nat, lo: nat, rest: nat, k: nat, m: nat)
    requires k > 0 && n % 256 == lo % 256 && n / 256 == rest
    ensures LittleEndian(n, k + m) == [FromNat(lo % 256)] + LittleEndian(rest, k - 1 + m)
  {
  }

  lemma {:induction false} LittleEndianSplit(lo: nat, hi: nat, k: nat, m: nat)
    requires lo < Pow256(k)
    ensures LittleEndian(lo + Pow256(k) * hi, k + m) == LittleEndian(lo, k) + LittleEndian(hi, m)
  {
    if k > 0 {
      PowStep(k, hi);
      DivAdd(lo, Pow256(k - 1) * hi);
      LittleEndianSplit(lo / 256, hi, k - 1, m);
      FirstByteApart(lo + Pow256(k) * hi, lo, lo / 256 + Pow256(k - 1) * hi, k, m);
    }
  }

  lemma {:induction false} BigEndianSplit(lo: nat, hi: nat, k: nat, m: nat)
    requires lo < Pow256(m)
    ensures BigEndian(lo + Pow256(m) * hi, k + m) == BigEndian(hi, k) + BigEndian(lo, m)
  {
    if m > 0 {
      PowStep(m, hi);
      DivAdd(lo, Pow256(m - 1) * hi);
      BigEndianSplit(lo / 256, hi, k, m - 1);
    }
  }

  lemma {:induction false} StoreSwappedHalves(lo: nat, hi: nat, k: nat, p: nat)
    requires p == Pow256(k) && lo < p
    ensures LittleEndian(Swap(lo, k) * p + Swap(hi, k), k + k) == BigEndian(lo + p * hi, k + k)
  {
    BigEndianSplit(lo, hi, k, k);
    StoreNetworkOrder(hi, k);
    StoreNetworkOrder(lo, k);
    LittleEndianSplit(Swap(hi, k), Swap(lo, k), k, k);
    Commute(Swap(lo, k), p);
  }

  lemma {:induction false} Commute(a: nat, b: nat)
    ensures a * b == b * a
  {
  }

  lemma {:induction false} Halves(n: nat)
    requires n < TWO32 * TWO32
    ensures n % TWO32 < TWO32 && n / TWO32 % TWO32 == n / TWO32 && n == n % TWO32 + TWO32 * (n / TWO32)
  {
    assert n / TWO32 < TWO32;
  }

  /** The htonll macro writes a 64-bit length in network byte order. */
  lemma {:induction false} HtonllIsNetworkOrder(n: nat)
    requires n < Pow256(8)
    ensures LittleEndian(Htonll(n), 8) == BigEndian(n, 8)
  {
    Pow256Is32();
    StoreHtonll(n, 4);
  }

  lemma {:induction false} StoreHtonll(n: nat, k: nat)
    requires n < TWO32 * TWO32 && Pow256(k) == TWO32
    ensures LittleEndian(SwapHalves(n, k), k + k) == BigEndian(n, k + k)
  {
    Halves(n);
    StoreSwappedHalves(n % TWO32, n / TWO32, k, TWO32);
  }

  /** Reading 8 bytes and applying ntohll (the same macro) gives the network-order value. */
  lemma {:induction false} NtohllReadsNetworkOrder(s: seq<byte>)
    requires |s| == 8
    ensures Htonll(ValueLE(s)) == ValueBE(s)
  {
    hide FromNat, ToNat;
    Pow256Is32();
    var v := ValueLE(s);
    ValueLEBound(s);
    LittleEndianOfValueLE(s);
    var hi, lo := v / TWO32, v % TWO32;
    assert hi < TWO32 && hi % TWO32 == hi;
    LittleEndianSplit(lo, hi, 4, 4);
    assert LittleEndian(lo, 4) == s[..4] && LittleEndian(hi, 4) == s[4..];
    assert s == s[..4] + s[4..];
    ValueBEAppend(s[..4], s[4..]);
  }

  lemma {:induction false} NtohsReadsNetworkOrder(s: seq<byte>)
    ensures Swap(ValueLE(s), |s|) == ValueBE(s)
  {
    LittleEndianOfValueLE(s);
  }

  lemma {:induction false} ValueLEBound(s: seq<byte>)
    ensures ValueLE(s) < Pow256(|s|)
  {
    if s != [] {
      ValueLEBound(s[1..]);
    }
  }

  lemma {:induction false} ValueBEAppend(a: seq<byte>, b: seq<byte>)
    ensures ValueBE(a + b) == ValueBE(a) * Pow256(|b|) + ValueBE(b)
  {
    if b == [] {
      assert a + b == a;
    } else {
      var i, p := b[..|b| - 1], Pow256(|b| - 1);
      assert (a + b)[..|a + b| - 1] == a + i;
      ValueBEAppend(a, i);
      Regroup(ValueBE(a), p, ValueBE(i));
    }
  }

  lemma {:induction false} Regroup(a: nat, p: nat, i: nat)
    ensures (a * p + i) * 256 == a * (256 * p) + i * 256
  {
    assert a * (256 * p) == 256 * (a * p);
  }

  // ------------------------------------------------------------- XOR mask

  type Key = k: seq<byte> | |k| == 4 witness [0, 0, 0, 0]

  /** RFC 6455 section 5.3: octet i of the result is octet i of `p` XOR octet i mod 4 of the key. */
  function Mask(p: seq<byte>, key: Key): (r: seq<byte>)
    ensures |r| == |p|
  {
    seq(|p|, i requires 0 <= i < |p| => p[i] ^ key[i % 4])
  }

  lemma {:induction false} MaskTwice(p: seq<byte>, key: Key)
    ensures Mask(Mask(p, key), key) == p
  {
    var q := Mask(Mask(p, key), key);
    forall i | 0 <= i < |p| ensures q[i] == p[i] {
      XorTwice(p[i], key[i % 4]);
    }
  }

  lemma {:induction false} XorTwice(a: byte, k: byte)
    ensures (a ^ k) ^ k == a
  {
  }
}
