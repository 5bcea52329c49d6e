/** The two hellos on the wire. A decoder takes a hello from the front of the bytes and ignores what follows. */
module Hello {
  import opened Bytes
  import opened Keys
  import opened Options
  import opened Postcard

  const SIGNATURE_LEN: nat := 64

  datatype CipherSuite = CipherSuite(kem: nat, aead: Byte, hash: Byte)

  datatype ClientHello = ClientHello(
    version: Byte, clientRandom: seq<Byte>, attestationNonce: seq<Byte>,
    clientPk: Point, kemCt: seq<Byte>, ratchetPk: Point, suite: CipherSuite)

  datatype ServerHello = ServerHello(
    version: Byte, serverRandom: seq<Byte>, serverPk: Point, evidence: seq<Byte>, signature: seq<Byte>)

  /** The sizes that the fields have as Rust arrays and integers. */
  predicate ClientSized(h: ClientHello) {
    && |h.clientRandom| == |h.attestationNonce| == |h.clientPk| == |h.ratchetPk| == POINT_LEN
    && Short(h.kemCt) && h.suite.kem < Limit(WIDTH16, 0)
  }

  predicate ServerSized(h: ServerHello) {
    |h.serverRandom| == |h.serverPk| == POINT_LEN && Short(h.evidence) && |h.signature| == SIGNATURE_LEN
  }

  // ---------------------------------------------------------------- the client's hello

  function ClientFront(h: ClientHello): seq<Byte> {
    [h.version] + h.clientRandom + h.attestationNonce + h.clientPk
  }

  function SuiteBytes(s: CipherSuite): seq<Byte> {
    Varint(s.kem) + [s.aead, s.hash]
  }

  function EncodeClient(h: ClientHello): seq<Byte> {
    ClientFront(h) + (Prefixed(h.kemCt) + (h.ratchetPk + SuiteBytes(h.suite)))
  }

  function DecodeSuite(b: seq<Byte>): Option<(CipherSuite, seq<Byte>)> {
    match ReadVarint(b, WIDTH16, 0)
    case None => None
    case Some((kem, rest)) =>
      match Take(rest, 2)
      case None => None
      case Some((pair, rest')) => Some((CipherSuite(kem, pair[0], pair[1]), rest'))
  }

  const CLIENT_FRONT_LEN: nat := 97

  function DecodeClient(b: seq<Byte>): Option<(ClientHello, seq<Byte>)> {
    match Take(b, CLIENT_FRONT_LEN)
    case None => None
    case Some((f, b1)) =>
      match ReadPrefixed(b1)
      case None => None
      case Some((ct, b2)) =>
        match Take(b2, POINT_LEN)
        case None => None
        case Some((ratchetPk, b3)) =>
          match DecodeSuite(b3)
          case None => None
          case Some((suite, rest)) =>
            Some((ClientHello(f[0], f[1..33], f[33..65], f[65..97], ct, ratchetPk, suite), rest))
  }

  lemma SuiteRoundTrip(s: CipherSuite, rest: seq<Byte>)
    requires s.kem < Limit(WIDTH16, 0)
    ensures DecodeSuite(SuiteBytes(s) + rest) == Some((s, rest))
  {
    var pair := [s.aead, s.hash];
    VarintRoundTrip(s.kem, WIDTH16, 0, pair + rest);
    assert SuiteBytes(s) + rest == Varint(s.kem) + (pair + rest);
    TakeRoundTrip(pair, rest);
    hide Varint, ReadVarint, Take, Limit;
  }

  lemma SuiteExtends(b: seq<Byte>, more: seq<Byte>)
    requires DecodeSuite(b).Some?
    ensures DecodeSuite(b + more) == Some((DecodeSuite(b).value.0, DecodeSuite(b).value.1 + more))
  {
    VarintExtends(b, WIDTH16, 0, more);
    TakeExtends(ReadVarint(b, WIDTH16, 0).value.1, 2, more);
    hide ReadVarint;
  }

  lemma FrontSlices(h: ClientHello)
    requires ClientSized(h)
    ensures var f := ClientFront(h);
            && |f| == CLIENT_FRONT_LEN && f[0] == h.version && f[1..33] == h.clientRandom
            && f[33..65] == h.attestationNonce && f[65..97] == h.clientPk
  {
  }

  /** A hello with anything behind it decodes to itself. */
  lemma ClientRoundTrip(h: ClientHello, rest: seq<Byte>)
    requires ClientSized(h)
    ensures DecodeClient(EncodeClient(h) + rest) == Some((h, rest))
  {
    hide ClientFront, SuiteBytes, Prefixed, ReadPrefixed, Take, DecodeSuite, Short, Limit;
    FrontSlices(h);
    var f, c, r, s := ClientFront(h), Prefixed(h.kemCt), h.ratchetPk, SuiteBytes(h.suite);
    assert EncodeClient(h) + rest == f + (c + (r + (s + rest)));
    TakeRoundTrip(f, c + (r + (s + rest)));
    PrefixedRoundTrip(h.kemCt, r + (s + rest));
    TakeRoundTrip(r, s + rest);
    SuiteRoundTrip(h.suite, rest);
  }

  /** What decodes from some bytes decodes from them with more behind. */
  lemma ClientExtends(b: seq<Byte>, more: seq<Byte>)
    requires DecodeClient(b).Some?
    ensures DecodeClient(b + more) == Some((DecodeClient(b).value.0, DecodeClient(b).value.1 + more))
  {
    hide ReadPrefixed, DecodeSuite;
    TakeExtends(b, CLIENT_FRONT_LEN, more);
    var b1 := b[CLIENT_FRONT_LEN..];
    PrefixedExtends(b1, more);
    var b2 := ReadPrefixed(b1).value.1;
    TakeExtends(b2, POINT_LEN, more);
    SuiteExtends(b2[POINT_LEN..], more);
    hide Take;
  }

  /** The bytes are exactly the encoding of the hello they decode to: nothing behind it, no longer spelling. */
  predicate ClientClean(b: seq<Byte>) {
    DecodeClient(b).Some? && EncodeClient(DecodeClient(b).value.0) == b
  }

  // ---------------------------------------------------------------- the server's hello

  const SERVER_FRONT_LEN: nat := 65

  function ServerFront(h: ServerHello): seq<Byte> {
    [h.version] + h.serverRandom + h.serverPk
  }

  function EncodeServer(h: ServerHello): seq<Byte> {
    ServerFront(h) + (Prefixed(h.evidence) + h.signature)
  }

  function DecodeServer(b: seq<Byte>): Option<(ServerHello, seq<Byte>)> {
    match Take(b, SERVER_FRONT_LEN)
    case None => None
    case Some((f, b1)) =>
      match ReadPrefixed(b1)
      case None => None
      case Some((evidence, b2)) =>
        match Take(b2, SIGNATURE_LEN)
        case None => None
        case Some((signature, rest)) => Some((ServerHello(f[0], f[1..33], f[33..65], evidence, signature), rest))
  }

  lemma ServerFrontSlices(h: ServerHello)
    requires ServerSized(h)
    ensures var f := ServerFront(h);
            |f| == SERVER_FRONT_LEN && f[0] == h.version && f[1..33] == h.serverRandom && f[33..65] == h.serverPk
  {
  }

  lemma ServerRoundTrip(h: ServerHello, rest: seq<Byte>)
    requires ServerSized(h)
    ensures DecodeServer(EncodeServer(h) + rest) == Some((h, rest))
  {
    hide ServerFront, Prefixed, ReadPrefixed, Take, Short;
    ServerFrontSlices(h);
    var f, e, s := ServerFront(h), Prefixed(h.evidence), h.signature;
    assert EncodeServer(h) + rest == f + (e + (s + rest));
    TakeRoundTrip(f, e + (s + rest));
    PrefixedRoundTrip(h.evidence, s + rest);
    TakeRoundTrip(s, rest);
  }

  predicate ServerClean(b: seq<Byte>) {
    DecodeServer(b).Some? && EncodeServer(DecodeServer(b).value.0) == b
  }

  // ---------------------------------------------------------------- both, joined without framing

  /** The client's hello `h` and the bytes it received, against the bytes the TEE received and its answer: the two
      transcripts are the same string exactly when the TEE received the hello with some bytes behind it and the client
      received those bytes with the answer behind them. */
  lemma TranscriptsAgreeIff(h: ClientHello, received: seq<Byte>, at: seq<Byte>, answer: seq<Byte>)
    requires ClientSized(h) && DecodeClient(at).Some?
    ensures var extra := DecodeClient(at).value.1;
            EncodeClient(h) + received == at + answer
            <==> at == EncodeClient(h) + extra && received == extra + answer
    ensures EncodeClient(h) + received == at + answer ==> DecodeClient(at).value.0 == h
  {
    hide DecodeClient, EncodeClient;
    var sent, extra := EncodeClient(h), DecodeClient(at).value.1;
    if sent + received == at + answer {
      ClientRoundTrip(h, received);
      ClientExtends(at, answer);
      assert received == extra + answer;
      assert (sent + extra) + answer == at + answer;
      SameFront(sent + extra, at, answer);
    }
    if at == sent + extra && received == extra + answer {
      assert sent + (extra + answer) == (sent + extra) + answer;
    }
  }

  lemma SameFront(a: seq<Byte>, b: seq<Byte>, c: seq<Byte>)
    requires a + c == b + c
    ensures a == b
  {
    assert |a + c| == |b + c|;
    assert (a + c)[..|a|] == a && (b + c)[..|b|] == b;
  }
}
