/** Bytes, fixed-width integers, exclusive or, and UTF-8. */
module Bytes {

  type Byte = x: int | 0 <= x < 256

  const U32: nat := 0x1_0000_0000
  const U64: nat := 0x1_0000_0000_0000_0000
  const U128: nat := 0x1_0000_0000_0000_0000_0000_0000_0000_0000

  function Pow256(k: nat): (p: nat)
    ensures p >= 1
  {
    if k == 0 then 1 else 256 * Pow256(k - 1)
  }

  /** Binary digit `b` of `word`. */
  predicate Bit(word: nat, b: nat) {
    if b == 0 then word % 2 == 1 else Bit(word / 2, b - 1)
  }

  // ---------------------------------------------------------------- big endian

  /** The low `width` bytes of `v`, most significant first. */
  function BigEndian(v: nat, width: nat): (b: seq<Byte>)
    ensures |b| == width
    decreases width
  {
    if width == 0 then [] else BigEndian(v / 256, width - 1) + [v % 256]
  }

  function FromBigEndian(b: seq<Byte>): nat {
    if b == [] then 0 else 256 * FromBigEndian(b[..|b| - 1]) + b[|b| - 1]
  }

  lemma {:induction false} BigEndianRoundTrip(v: nat, width: nat)
    requires v < Pow256(width)
    ensures FromBigEndian(BigEndian(v, width)) == v
    decreases width
  {
    if width > 0 {
      var b := BigEndian(v, width);
      assert b[..|b| - 1] == BigEndian(v / 256, width - 1);
      BigEndianRoundTrip(v / 256, width - 1);
    }
  }

  lemma {:induction false} BigEndianFits(b: seq<Byte>)
    ensures FromBigEndian(b) < Pow256(|b|)
    ensures BigEndian(FromBigEndian(b), |b|) == b
  {
    if b != [] {
      BigEndianFits(b[..|b| - 1]);
      assert b == b[..|b| - 1] + [b[|b| - 1]];
    }
  }

  /** High and low part next to each other. */
  lemma {:induction false} BigEndianSplit(high: nat, low: nat, v: nat, w: nat)
    requires low < Pow256(w)
    ensures BigEndian(high * Pow256(w) + low, v + w) == BigEndian(high, v) + BigEndian(low, w)
    decreases w
  {
    if w > 0 {
      BigEndianSplit(high, low / 256, v, w - 1);
      LowByte(high, low, Pow256(w - 1));
    }
  }

  lemma LowByte(high: nat, low: nat, p: nat)
    ensures var x := high * (256 * p) + low; x / 256 == high * p + low / 256 && x % 256 == low % 256
  {
    var q := high * p;
    assert high * (256 * p) == 256 * q;
  }

  // ---------------------------------------------------------------- little endian

  function FromLittleEndian(b: seq<Byte>): nat {
    if b == [] then 0 else b[0] + 256 * FromLittleEndian(b[1..])
  }

  lemma {:induction false} LittleEndianFits(b: seq<Byte>)
    ensures FromLittleEndian(b) < Pow256(|b|)
  {
    if b != [] {
      LittleEndianFits(b[1..]);
    }
  }

  lemma {:induction false} LittleEndianInjective(a: seq<Byte>, b: seq<Byte>)
    requires |a| == |b| && FromLittleEndian(a) == FromLittleEndian(b)
    ensures a == b
  {
    if a != [] {
      LittleEndianInjective(a[1..], b[1..]);
      assert a == [a[0]] + a[1..] && b == [b[0]] + b[1..];
    }
  }

  lemma {:induction false} Pow256Adds(a: nat, b: nat)
    ensures Pow256(a + b) == Pow256(a) * Pow256(b)
  {
    if a > 0 {
      Pow256Adds(a - 1, b);
      assert Pow256(a + b) == 256 * Pow256(a - 1 + b);
      assert 256 * (Pow256(a - 1) * Pow256(b)) == (256 * Pow256(a - 1)) * Pow256(b);
    }
  }

  lemma {:induction false} LittleEndianSplit(a: seq<Byte>, b: seq<Byte>)
    ensures FromLittleEndian(a + b) == FromLittleEndian(a) + Pow256(|a|) * FromLittleEndian(b)
  {
    if a == [] {
      assert a + b == b;
    } else {
      LittleEndianSplit(a[1..], b);
      assert (a + b)[1..] == a[1..] + b;
      assert 256 * (Pow256(|a| - 1) * FromLittleEndian(b)) == (256 * Pow256(|a| - 1)) * FromLittleEndian(b);
    }
  }

  lemma ScaleMono(m: nat, a: nat, b: nat)
    requires a <= b
    ensures m * a <= m * b
  {
  }

  /** The top byte bounds the value. */
  lemma TopByteBounds(low: seq<Byte>, top: Byte)
    ensures FromLittleEndian(low + [top]) < Pow256(|low|) * (top + 1)
  {
    LittleEndianSplit(low, [top]);
    LittleEndianFits(low);
    assert FromLittleEndian([top]) == top;
    assert Pow256(|low|) * (top + 1) == Pow256(|low|) * top + Pow256(|low|);
  }

  // ---------------------------------------------------------------- exclusive or

  /** Exclusive or of the low `bits` binary digits. */
  function XorBits(a: nat, b: nat, bits: nat): nat
    decreases bits
  {
    if bits == 0 then 0
    else (if a % 2 == b % 2 then 0 else 1) + 2 * XorBits(a / 2, b / 2, bits - 1)
  }

  function Pow2(k: nat): (p: nat)
    ensures p >= 1
  {
    if k == 0 then 1 else 2 * Pow2(k - 1)
  }

  lemma {:induction false} XorBitsCancels(a: nat, b: nat, bits: nat)
    requires a < Pow2(bits)
    ensures XorBits(a, b, bits) < Pow2(bits)
    ensures XorBits(XorBits(a, b, bits), b, bits) == a
    decreases bits
  {
    if bits > 0 {
      XorBitsCancels(a / 2, b / 2, bits - 1);
      var c, high := XorBits(a, b, bits), XorBits(a / 2, b / 2, bits - 1);
      assert c == (if a % 2 == b % 2 then 0 else 1) + 2 * high;
      assert c / 2 == high && c % 2 == (if a % 2 == b % 2 then 0 else 1);
      assert XorBits(c, b, bits) == (if c % 2 == b % 2 then 0 else 1) + 2 * XorBits(high, b / 2, bits - 1);
      hide XorBits, Pow2;
    }
  }

  lemma {:induction false} XorBitsCommutes(a: nat, b: nat, bits: nat)
    ensures XorBits(a, b, bits) == XorBits(b, a, bits)
    decreases bits
  {
    if bits > 0 {
      XorBitsCommutes(a / 2, b / 2, bits - 1);
    }
  }

  /** `a ^ b` on `u8` */
  function Xor(a: Byte, b: Byte): (c: Byte)
    ensures XorBits(c, b, 8) == a
  {
    assert Pow2(8) == 256;
    XorBitsCancels(a, b, 8);
    XorBits(a, b, 8)
  }

  lemma XorInvolution(a: Byte, b: Byte)
    ensures Xor(Xor(a, b), b) == a
  {
  }

  lemma XorInjective(a: Byte, b: Byte, c: Byte)
    ensures Xor(a, b) == Xor(a, c) <==> b == c
  {
    XorBitsCommutes(a, b, 8);
    XorBitsCommutes(a, c, 8);
    XorInvolution(b, a);
    XorInvolution(c, a);
  }

  /** Bytewise exclusive or. */
  function XorAll(a: seq<Byte>, b: seq<Byte>): (c: seq<Byte>)
    requires |a| == |b|
    ensures |c| == |a| && forall i :: 0 <= i < |a| ==> c[i] == Xor(a[i], b[i])
  {
    if a == [] then [] else [Xor(a[0], b[0])] + XorAll(a[1..], b[1..])
  }

  lemma XorAllInvolution(a: seq<Byte>, b: seq<Byte>)
    requires |a| == |b|
    ensures XorAll(XorAll(a, b), b) == a
  {
    forall i | 0 <= i < |a| ensures Xor(Xor(a[i], b[i]), b[i]) == a[i] {
      XorInvolution(a[i], b[i]);
    }
  }

  lemma {:induction false} XorAllInjective(a: seq<Byte>, b: seq<Byte>, c: seq<Byte>)
    requires |a| == |b| == |c|
    ensures XorAll(a, b) == XorAll(a, c) <==> b == c
  {
    hide Xor;
    if XorAll(a, b) == XorAll(a, c) {
      forall i | 0 <= i < |a| ensures b[i] == c[i] {
        assert XorAll(a, b)[i] == XorAll(a, c)[i];
        XorInjective(a[i], b[i], c[i]);
      }
    }
  }

  // ---------------------------------------------------------------- UTF-8

  type Text = seq<Byte>

  /** Well-formed UTF-8, as Rust's `String::from_utf8` accepts it. */
  predicate Utf8(b: Text) {
    if b == [] then true
    else if b[0] < 0x80 then Utf8(b[1..])
    else if 0xC2 <= b[0] <= 0xDF then |b| >= 2 && Tail(b[1]) && Utf8(b[2..])
    else if 0xE0 <= b[0] <= 0xEF then
      (|b| >= 3 && Tail(b[1]) && Tail(b[2]) && Utf8(b[3..])
       && (b[0] == 0xE0 ==> b[1] >= 0xA0) && (b[0] == 0xED ==> b[1] < 0xA0))
    else
      (0xF0 <= b[0] <= 0xF4
       && |b| >= 4 && Tail(b[1]) && Tail(b[2]) && Tail(b[3]) && Utf8(b[4..])
       && (b[0] == 0xF0 ==> b[1] >= 0x90) && (b[0] == 0xF4 ==> b[1] < 0x90))
  }

  predicate Tail(b: Byte) {
    0x80 <= b < 0xC0
  }
}
