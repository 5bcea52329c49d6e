/** The serialization of the hellos and of the onion: fixed bytes, varints and length-prefixed byte strings.
    A decoder reads from the front and leaves the rest. */
module Postcard {
  import opened Bytes
  import opened Options

  /** An integer width: the most bytes a varint may take, and the most its last byte may hold. */
  datatype Width = Width(bytes: nat, last: nat)

  const WIDTH16 := Width(3, 3)
  const WIDTH64 := Width(10, 1)

  /** Seven bits a byte, least significant first; the high bit says that more follow. */
  function Varint(v: nat): (b: seq<Byte>)
    ensures |b| >= 1
  {
    if v < 128 then [v] else [v % 128 + 128] + Varint(v / 128)
  }

  /** Reads an integer; `k` bytes of it were read before. Longer spellings than `Varint`'s are read too. */
  function ReadVarint(b: seq<Byte>, w: Width, k: nat): (r: Option<(nat, seq<Byte>)>)
    ensures r.Some? ==> |r.value.1| < |b|
  {
    if k >= w.bytes || b == [] then None
    else if b[0] < 128 then
      if k + 1 == w.bytes && b[0] > w.last then None else Some((b[0], b[1..]))
    else
      match ReadVarint(b[1..], w, k + 1)
      case None => None
      case Some((high, rest)) => Some((b[0] - 128 + 128 * high, rest))
  }

  /** What still fits after `k` bytes. */
  function Limit(w: Width, k: nat): (l: nat)
    ensures l >= 1
    decreases w.bytes - k
  {
    if k + 1 >= w.bytes then w.last + 1 else 128 * Limit(w, k + 1)
  }

  lemma {:induction false} VarintRoundTrip(v: nat, w: Width, k: nat, rest: seq<Byte>)
    requires k < w.bytes && v < Limit(w, k) && w.last < 128
    ensures ReadVarint(Varint(v) + rest, w, k) == Some((v, rest))
    decreases w.bytes - k
  {
    var b := Varint(v) + rest;
    if v < 128 {
      assert b[1..] == rest;
    } else {
      VarintRoundTrip(v / 128, w, k + 1, rest);
      assert b[1..] == Varint(v / 128) + rest;
    }
  }

  /** What is read fits its width, however it was spelled. */
  lemma {:induction false} VarintInRange(b: seq<Byte>, w: Width, k: nat)
    requires ReadVarint(b, w, k).Some?
    ensures ReadVarint(b, w, k).value.0 < Limit(w, k)
  {
    if b[0] >= 128 {
      VarintInRange(b[1..], w, k + 1);
    }
  }

  /** The two widths are `u16` and `u64`. */
  lemma Widths()
    ensures Limit(WIDTH16, 0) == 0x1_0000 && Limit(WIDTH64, 0) == U64
  {
    assert Limit(WIDTH64, 8) == 256 && Limit(WIDTH64, 6) == 128 * (128 * Limit(WIDTH64, 8));
    assert Limit(WIDTH64, 4) == 128 * (128 * Limit(WIDTH64, 6)) && Limit(WIDTH64, 2) == 128 * (128 * Limit(WIDTH64, 4));
  }

  /** What is read from some bytes is read from them with more behind. */
  lemma {:induction false} VarintExtends(b: seq<Byte>, w: Width, k: nat, more: seq<Byte>)
    requires ReadVarint(b, w, k).Some?
    ensures ReadVarint(b + more, w, k)
            == Some((ReadVarint(b, w, k).value.0, ReadVarint(b, w, k).value.1 + more))
  {
    assert (b + more)[1..] == b[1..] + more;
    if b[0] >= 128 {
      VarintExtends(b[1..], w, k + 1, more);
    }
  }

  predicate Short(b: seq<Byte>) {
    |b| < Limit(WIDTH64, 0)
  }

  // ---------------------------------------------------------------- byte strings

  function Prefixed(b: seq<Byte>): (r: seq<Byte>)
    ensures |r| > |b|
  {
    Varint(|b|) + b
  }

  function Take(b: seq<Byte>, n: nat): (r: Option<(seq<Byte>, seq<Byte>)>)
    ensures r.Some? ==> r.value.0 + r.value.1 == b && |r.value.0| == n
  {
    if n <= |b| then Some((b[..n], b[n..])) else None
  }

  function ReadPrefixed(b: seq<Byte>): (r: Option<(seq<Byte>, seq<Byte>)>)
    ensures r.Some? ==> |r.value.0| + |r.value.1| < |b|
  {
    match ReadVarint(b, WIDTH64, 0)
    case None => None
    case Some((n, rest)) => Take(rest, n)
  }

  lemma TakeRoundTrip(b: seq<Byte>, rest: seq<Byte>)
    ensures Take(b + rest, |b|) == Some((b, rest))
  {
  }

  lemma TakeExtends(b: seq<Byte>, n: nat, more: seq<Byte>)
    requires n <= |b|
    ensures Take(b + more, n) == Some((b[..n], b[n..] + more))
  {
    assert (b + more)[..n] == b[..n] && (b + more)[n..] == b[n..] + more;
  }

  lemma PrefixedRoundTrip(b: seq<Byte>, rest: seq<Byte>)
    requires Short(b)
    ensures ReadPrefixed(Prefixed(b) + rest) == Some((b, rest))
  {
    VarintRoundTrip(|b|, WIDTH64, 0, b + rest);
    assert Prefixed(b) + rest == Varint(|b|) + (b + rest);
    TakeRoundTrip(b, rest);
    hide Varint, ReadVarint, Limit;
  }

  lemma PrefixedExtends(b: seq<Byte>, more: seq<Byte>)
    requires ReadPrefixed(b).Some?
    ensures ReadPrefixed(b + more) == Some((ReadPrefixed(b).value.0, ReadPrefixed(b).value.1 + more))
  {
    VarintExtends(b, WIDTH64, 0, more);
    var (n, rest) := ReadVarint(b, WIDTH64, 0).value;
    TakeExtends(rest, n, more);
    hide ReadVarint;
  }
}
