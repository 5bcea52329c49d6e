/** One onion layer on the wire. The AEAD is a pair of functions on bytes,
    of which only the facts in `Sound` are used. A relay's X25519 secret is named by its public point. */
module Onion {
  import opened Bytes
  import opened Keys
  import opened Options
  import opened Postcard

  datatype PeelError = BadEncoding | BadSeal

  datatype Result<T> = Ok(value: T) | Err(error: PeelError)

  // ---------------------------------------------------------------- the two records

  datatype Inner = Inner(nextHop: Option<Text>, inner: seq<Byte>)

  datatype Layer = Layer(ephemeral: Point, ciphertext: seq<Byte>)

  function EncodeInner(x: Inner): seq<Byte> {
    (match x.nextHop case None => [0] case Some(hop) => [1] + Prefixed(hop)) + Prefixed(x.inner)
  }

  function DecodeInner(b: seq<Byte>): (r: Option<Inner>)
    ensures r.Some? ==> |r.value.inner| + 2 <= |b|
  {
    if b == [] then None
    else if b[0] == 0 then
      match ReadPrefixed(b[1..])
      case None => None
      case Some((inner, _)) => Some(Inner(None, inner))
    else if b[0] == 1 then
      match ReadPrefixed(b[1..])
      case None => None
      case Some((hop, rest)) =>
        if !Utf8(hop) then None
        else
          match ReadPrefixed(rest)
          case None => None
          case Some((inner, _)) => Some(Inner(Some(hop), inner))
    else None
  }

  predicate Encodable(x: Inner) {
    Short(x.inner) && (x.nextHop.Some? ==> Short(x.nextHop.value) && Utf8(x.nextHop.value))
  }

  lemma InnerRoundTrip(x: Inner)
    requires Encodable(x)
    ensures DecodeInner(EncodeInner(x)) == Some(x)
  {
    hide Prefixed, ReadPrefixed, Short, Utf8;
    var b := EncodeInner(x);
    var tail := Prefixed(x.inner);
    assert tail + [] == tail;
    PrefixedRoundTrip(x.inner, []);
    match x.nextHop
    case None =>
      assert b[1..] == tail;
    case Some(hop) =>
      PrefixedRoundTrip(hop, tail);
      assert b[1..] == Prefixed(hop) + tail;
  }

  function EncodeLayer(l: Layer): seq<Byte> {
    l.ephemeral + Prefixed(l.ciphertext)
  }

  function DecodeLayer(b: seq<Byte>): (r: Option<Layer>)
    ensures r.Some? ==> |r.value.ephemeral| == POINT_LEN && |r.value.ciphertext| + POINT_LEN + 1 <= |b|
  {
    if |b| < POINT_LEN then None
    else
      match ReadPrefixed(b[POINT_LEN..])
      case None => None
      case Some((ciphertext, _)) => Some(Layer(b[..POINT_LEN], ciphertext))
  }

  lemma LayerRoundTrip(l: Layer)
    requires |l.ephemeral| == POINT_LEN && Short(l.ciphertext)
    ensures DecodeLayer(EncodeLayer(l)) == Some(l)
  {
    hide Prefixed, ReadPrefixed, Short;
    var b := EncodeLayer(l);
    PrefixedRoundTrip(l.ciphertext, []);
    assert Prefixed(l.ciphertext) + [] == Prefixed(l.ciphertext);
    assert b[POINT_LEN..] == Prefixed(l.ciphertext) && b[..POINT_LEN] == l.ephemeral;
  }

  // ---------------------------------------------------------------- sealing

  /** The AEAD key: fixed by the shared secret, an unordered pair of points, and the ephemeral point. */
  datatype Key = Key(shared: multiset<Point>, ephemeral: Point)

  datatype Aead = Aead(seal: (Key, seq<Byte>, seq<Byte>) -> seq<Byte>, open: (Key, seq<Byte>, seq<Byte>) -> Option<seq<Byte>>)

  /** What the AEAD gives on all inputs: opening undoes sealing, and the tag adds 16 bytes. */
  ghost predicate Sound(aead: Aead) {
    && (forall k, aad, m :: aead.open(k, aad, aead.seal(k, aad, m)) == Some(m))
    && (forall k, aad, m :: |aead.seal(k, aad, m)| == |m| + TAG_LEN)
    && (forall k, aad, c :: aead.open(k, aad, c).Some? ==> |aead.open(k, aad, c).value| + TAG_LEN == |c|)
  }

  /** Authenticity of one sealed message: no other key opens it. (It cannot hold of all messages under all keys.) */
  ghost predicate Authentic(aead: Aead, k: Key, aad: seq<Byte>, m: seq<Byte>, l: Key) {
    k != l ==> aead.open(l, aad, aead.seal(k, aad, m)) == None
  }

  /** The facts of `Sound` are consistent. */
  lemma SoundIsPossible()
    ensures exists aead :: Sound(aead)
  {
    var toy := Aead(ToySeal, ToyOpen);
    forall k, aad, m ensures ToyOpen(k, aad, ToySeal(k, aad, m)) == Some(m) {
      assert ToySeal(k, aad, m)[..|m|] == m;
    }
    assert Sound(toy);
  }

  function ToySeal(k: Key, aad: seq<Byte>, m: seq<Byte>): seq<Byte> {
    m + seq(TAG_LEN, _ => 0)
  }

  function ToyOpen(k: Key, aad: seq<Byte>, c: seq<Byte>): Option<seq<Byte>> {
    if |c| >= TAG_LEN then Some(c[..|c| - TAG_LEN]) else None
  }

  function KeyFor(relay: Point, ephemeral: Point): Key {
    Key(multiset{relay, ephemeral}, ephemeral)
  }

  /** One layer for a relay. */
  function Seal(aead: Aead, relay: Point, ephemeral: Point, x: Inner): seq<Byte> {
    EncodeLayer(Layer(ephemeral, aead.seal(KeyFor(relay, ephemeral), ephemeral, EncodeInner(x))))
  }

  function Peel(aead: Aead, relay: Point, b: seq<Byte>): Result<Inner> {
    match DecodeLayer(b)
    case None => Err(BadEncoding)
    case Some(layer) =>
      match aead.open(KeyFor(relay, layer.ephemeral), layer.ephemeral, layer.ciphertext)
      case None => Err(BadSeal)
      case Some(plaintext) =>
        match DecodeInner(plaintext)
        case None => Err(BadEncoding)
        case Some(x) => Ok(x)
  }

  /** Whatever bytes arrive, a peel takes at least 51 of them away. */
  lemma PeelShrinks(aead: Aead, relay: Point, b: seq<Byte>)
    requires Sound(aead) && Peel(aead, relay, b).Ok?
    ensures |Peel(aead, relay, b).value.inner| + POINT_LEN + TAG_LEN + 3 <= |b|
  {
    hide DecodeLayer, DecodeInner;
  }

  /** The relay a layer is for peels it; any other is refused. */
  lemma PeelIff(aead: Aead, relay: Point, ephemeral: Point, x: Inner, peeler: Point)
    requires Sound(aead) && Authentic(aead, KeyFor(relay, ephemeral), ephemeral, EncodeInner(x), KeyFor(peeler, ephemeral))
    requires |ephemeral| == POINT_LEN && Encodable(x) && Short(Seal(aead, relay, ephemeral, x))
    ensures Peel(aead, peeler, Seal(aead, relay, ephemeral, x)) == if peeler == relay then Ok(x) else Err(BadSeal)
  {
    var k := KeyFor(relay, ephemeral);
    var layer := Layer(ephemeral, aead.seal(k, ephemeral, EncodeInner(x)));
    assert Short(layer.ciphertext);
    LayerRoundTrip(layer);
    InnerRoundTrip(x);
    KeysDiffer(relay, peeler, ephemeral);
    hide DecodeLayer, DecodeInner, EncodeLayer, EncodeInner;
  }

  lemma KeysDiffer(a: Point, b: Point, ephemeral: Point)
    ensures KeyFor(a, ephemeral) == KeyFor(b, ephemeral) <==> a == b
  {
    if KeyFor(a, ephemeral) == KeyFor(b, ephemeral) {
      assert multiset{a, ephemeral} - multiset{ephemeral} == multiset{a};
      assert multiset{b, ephemeral} - multiset{ephemeral} == multiset{b};
      assert a in multiset{b};
    }
  }
}
