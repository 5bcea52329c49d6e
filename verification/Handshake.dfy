/** The hybrid handshake: ML-KEM-768 and X25519 mixed into one root, bound to the bytes of both hellos.
    The random draws, the evidence-and-signature callback of the server and the signature check of the
    client are parameters. */
module Handshake {
  import opened Bytes
  import opened Keys
  import opened Postcard
  import opened Hello

  datatype HandshakeError =
    | BadEncoding | BadVersion | BadCipherSuite | BadKemKey | BadKemCiphertext | BadSignature | CallbackFailed

  datatype Outcome<T> = Done(value: T) | Refused(error: HandshakeError)

  const ML_KEM_768_EK_LEN: nat := 1184
  const ML_KEM_768_CT_LEN: nat := 1088
  const DEFAULT_SUITE := CipherSuite(0x11EC, 1, 1)

  /** Only the suite the record layer implements passes. */
  predicate SuiteValid(s: CipherSuite) {
    s.kem == 0x11EC && s.hash in {1, 2} && s.aead == 1 && s.hash == 1
  }

  datatype Bundle = Bundle(spkPk: Point, pqPk: KemKey)

  /** The ciphertext of the KEM part stands for its coins. */
  datatype ClientDraws = ClientDraws(kemCt: seq<Byte>, ephemeral: Point, clientRandom: seq<Byte>, nonce: seq<Byte>, ratchet: Point)

  predicate Proper(draws: ClientDraws) {
    && |draws.kemCt| == ML_KEM_768_CT_LEN
    && |draws.ephemeral| == |draws.clientRandom| == |draws.nonce| == |draws.ratchet| == POINT_LEN
  }

  datatype ReportData = ReportData(nonce: seq<Byte>, serverPk: Point, hybrid: Term)

  datatype Pending = Pending(hello: ClientHello, sent: seq<Byte>, hybrid: Term, ratchetSk: Point)

  datatype Established = Established(
    root: Term, keys: InitialKeys, transcript: Term, report: ReportData,
    serverRatchetPk: Point, clientRatchetPk: Point, evidence: seq<Byte>)

  /** The KEM secret followed by the ECDH secret; `hybrid_encap` and `hybrid_decap` both compute it. */
  function Hybrid(kem: KemKey, ct: seq<Byte>, ours: Point, theirs: Point): Term {
    Concat(KemSecret(kem, ct), DiffieHellman(ours, theirs))
  }

  function Initiate(draws: ClientDraws, bundle: Bundle): Outcome<Pending> {
    if |bundle.pqPk| != ML_KEM_768_EK_LEN then Refused(BadKemKey)
    else
      var hello := ClientHello(PROTOCOL_VERSION, draws.clientRandom, draws.nonce, draws.ephemeral, draws.kemCt,
                               draws.ratchet, DEFAULT_SUITE);
      Done(Pending(hello, EncodeClient(hello), Hybrid(bundle.pqPk, draws.kemCt, draws.ephemeral, bundle.spkPk),
                   draws.ratchet))
  }

  /** What the TEE answers to the bytes it received, and the keys it establishes. The signature callback sees the hash
      of those bytes. */
  function Respond(bundle: Bundle, received: seq<Byte>, ratchetSk: Point, serverRandom: seq<Byte>,
                   makeEvidenceAndSig: (ReportData, Term) -> Outcome<(seq<Byte>, seq<Byte>)>)
    : Outcome<(ServerHello, Established)>
  {
    var decoded := DecodeClient(received);
    if decoded.None? then Refused(BadEncoding)
    else
      var hello := decoded.value.0;
      if hello.version != PROTOCOL_VERSION then Refused(BadVersion)
      else if !SuiteValid(hello.suite) then Refused(BadCipherSuite)
      else if |hello.kemCt| != ML_KEM_768_CT_LEN then Refused(BadKemCiphertext)
      else
        var hybrid := Hybrid(bundle.pqPk, hello.kemCt, bundle.spkPk, hello.clientPk);
        var report := ReportData(hello.attestationNonce, ratchetSk, hybrid);
        var made := makeEvidenceAndSig(report, TranscriptHash(received));
        if made.Refused? then Refused(made.error)
        else
          var answer := ServerHello(PROTOCOL_VERSION, serverRandom, ratchetSk, made.value.0, made.value.1);
          Done((answer, Keyed(received + EncodeServer(answer), hybrid, report, ratchetSk, hello.ratchetPk, made.value.0)))
  }

  function Keyed(transcript: seq<Byte>, hybrid: Term, report: ReportData, serverPk: Point, clientPk: Point,
                 evidence: seq<Byte>): Established {
    var root := Extract(TranscriptHash(transcript), hybrid);
    Established(root, DeriveInitialKeys(root), TranscriptHash(transcript), report, serverPk, clientPk, evidence)
  }

  function Complete(p: Pending, received: seq<Byte>, verifySignature: (Term, seq<Byte>) -> bool): Outcome<Established> {
    var decoded := DecodeServer(received);
    if decoded.None? then Refused(BadEncoding)
    else
      var hello := decoded.value.0;
      if hello.version != PROTOCOL_VERSION then Refused(BadVersion)
      else if !verifySignature(TranscriptHash(p.sent), hello.signature) then Refused(BadSignature)
      else
        Done(Keyed(p.sent + received, p.hybrid, ReportData(p.hello.attestationNonce, hello.serverPk, p.hybrid),
                   hello.serverPk, p.ratchetSk, hello.evidence))
  }

  lemma InitiatedSized(draws: ClientDraws, bundle: Bundle)
    requires Proper(draws) && |bundle.pqPk| == ML_KEM_768_EK_LEN
    ensures var p := Initiate(draws, bundle).value;
            ClientSized(p.hello) && p.sent == EncodeClient(p.hello)
  {
    assert Limit(WIDTH16, 0) == 128 * Limit(WIDTH16, 1) && Limit(WIDTH16, 1) == 128 * Limit(WIDTH16, 2);
    assert Limit(WIDTH64, 0) == 128 * Limit(WIDTH64, 1) && Limit(WIDTH64, 1) == 128 * Limit(WIDTH64, 2);
  }

  /** For all randomness: an undisturbed handshake gives both sides the same root, chains, salt, transcript,
      report data and ratchet points, unless the client's own signature check refuses. */
  lemma HandshakeAgrees(draws: ClientDraws, bundle: Bundle, ratchetSk: Point, serverRandom: seq<Byte>,
                        make: (ReportData, Term) -> Outcome<(seq<Byte>, seq<Byte>)>,
                        verify: (Term, seq<Byte>) -> bool)
    requires Proper(draws) && |bundle.pqPk| == ML_KEM_768_EK_LEN
    ensures var p := Initiate(draws, bundle).value;
            var s := Respond(bundle, p.sent, ratchetSk, serverRandom, make);
            s.Done? && ServerSized(s.value.0) ==>
              Complete(p, EncodeServer(s.value.0), verify)
              == if verify(TranscriptHash(p.sent), s.value.0.signature) then Done(s.value.1) else Refused(BadSignature)
  {
    hide EncodeClient, DecodeClient, EncodeServer, DecodeServer, ClientSized, ServerSized;
    var p := Initiate(draws, bundle).value;
    InitiatedSized(draws, bundle);
    ClientRoundTrip(p.hello, []);
    assert p.sent + [] == p.sent;
    assert multiset{draws.ephemeral, bundle.spkPk} == multiset{bundle.spkPk, draws.ephemeral};
    var s := Respond(bundle, p.sent, ratchetSk, serverRandom, make);
    if s.Done? && ServerSized(s.value.0) {
      ServerRoundTrip(s.value.0, []);
      assert EncodeServer(s.value.0) + [] == EncodeServer(s.value.0);
    }
  }

  // ---------------------------------------------------------------- who signs what

  /** A signature scheme: what `sign` makes of a hash has the right length, and `check` takes it for that hash. */
  ghost predicate Signs(sign: Term -> seq<Byte>, check: (Term, seq<Byte>) -> bool) {
    forall m :: |sign(m)| == SIGNATURE_LEN && check(m, sign(m))
  }

  /** The TEE's callback: evidence for the report data, and a signature on the hash it is given. */
  function Attesting(evidence: ReportData -> seq<Byte>, sign: Term -> seq<Byte>)
    : (ReportData, Term) -> Outcome<(seq<Byte>, seq<Byte>)>
  {
    (report, hash) => Done((evidence(report), sign(hash)))
  }

  /** An honest handshake succeeds: the TEE answers the client's bytes, the client takes the answer, and both hold the
      same: evidence for the client's nonce and the TEE's point, both ratchet points, and keys bound to both hellos. */
  lemma HonestHandshake(draws: ClientDraws, bundle: Bundle, ratchetSk: Point, serverRandom: seq<Byte>,
                        evidence: ReportData -> seq<Byte>, sign: Term -> seq<Byte>, check: (Term, seq<Byte>) -> bool)
    requires Proper(draws) && |bundle.pqPk| == ML_KEM_768_EK_LEN && |ratchetSk| == |serverRandom| == POINT_LEN
    requires Signs(sign, check) && forall r :: Short(evidence(r))
    ensures var p := Initiate(draws, bundle).value;
            var s := Respond(bundle, p.sent, ratchetSk, serverRandom, Attesting(evidence, sign));
            && s.Done? && ServerSized(s.value.0)
            && Complete(p, EncodeServer(s.value.0), check) == Done(s.value.1)
            && var e := s.value.1;
            && e.report.nonce == draws.nonce && e.report.serverPk == ratchetSk && e.evidence == evidence(e.report)
            && e.serverRatchetPk == ratchetSk && e.clientRatchetPk == draws.ratchet && e.keys == DeriveInitialKeys(e.root)
            && e.transcript == TranscriptHash(p.sent + EncodeServer(s.value.0)) && e.root.salt == e.transcript
  {
    hide EncodeClient, DecodeClient, EncodeServer, DecodeServer, ClientSized, Short;
    var p := Initiate(draws, bundle).value;
    InitiatedSized(draws, bundle);
    ClientRoundTrip(p.hello, []);
    assert p.sent + [] == p.sent;
    HandshakeAgrees(draws, bundle, ratchetSk, serverRandom, Attesting(evidence, sign), check);
  }

  /** The hello that a client completed with is one that the TEE received, byte for byte, if nobody else can make a
      signature that passes the check: `signed` holds the bytes the TEE answered. */
  lemma CompletedWasAnswered(draws: ClientDraws, bundle: Bundle, received: seq<Byte>, check: (Term, seq<Byte>) -> bool,
                             signed: set<seq<Byte>>)
    requires |bundle.pqPk| == ML_KEM_768_EK_LEN && Complete(Initiate(draws, bundle).value, received, check).Done?
    requires forall m, sig :: check(m, sig) ==> exists at :: at in signed && m == TranscriptHash(at)
    ensures Initiate(draws, bundle).value.sent in signed
  {
    hide EncodeClient, DecodeServer;
    assert check(TranscriptHash(Initiate(draws, bundle).value.sent), DecodeServer(received).value.0.signature);
  }

  /** Which hellos the TEE answers: those of its protocol version and suite with a ciphertext of the right length, as long
      as its callback succeeds. */
  lemma AnsweredIff(bundle: Bundle, h: ClientHello, rest: seq<Byte>, ratchetSk: Point, serverRandom: seq<Byte>,
                    evidence: ReportData -> seq<Byte>, sign: Term -> seq<Byte>)
    requires ClientSized(h)
    ensures Respond(bundle, EncodeClient(h) + rest, ratchetSk, serverRandom, Attesting(evidence, sign)).Done?
            <==> h.version == PROTOCOL_VERSION && h.suite == DEFAULT_SUITE && |h.kemCt| == ML_KEM_768_CT_LEN
  {
    hide EncodeClient, DecodeClient, EncodeServer, ClientSized;
    ClientRoundTrip(h, rest);
  }

  /** Which hellos the client takes: those of its version whose signature passes for the hash of its own bytes. */
  lemma TakenIff(p: Pending, h: ServerHello, rest: seq<Byte>, check: (Term, seq<Byte>) -> bool)
    requires ServerSized(h)
    ensures Complete(p, EncodeServer(h) + rest, check).Done?
            <==> h.version == PROTOCOL_VERSION && check(TranscriptHash(p.sent), h.signature)
  {
    hide EncodeServer, DecodeServer, ServerSized;
    ServerRoundTrip(h, rest);
  }

  // ---------------------------------------------------------------- against a network that replaces bytes

  /** The network in between: the TEE received `at` and answered, the client received `received` and completed. */
  ghost predicate BothFinish(draws: ClientDraws, bundle: Bundle, at: seq<Byte>, answer: ServerHello, tee: Established,
                             received: seq<Byte>, client: Established) {
    && Proper(draws) && |bundle.pqPk| == ML_KEM_768_EK_LEN && ServerSized(answer)
    && DecodeClient(at).Some? && DecodeServer(received).Some?
    && (exists ratchetSk, serverRandom, make ::
          Respond(bundle, at, ratchetSk, serverRandom, make) == Done((answer, tee)))
    && (exists verify :: Complete(Initiate(draws, bundle).value, received, verify) == Done(client))
  }

  lemma FinishedRoots(draws: ClientDraws, bundle: Bundle, at: seq<Byte>, answer: ServerHello, tee: Established,
                      received: seq<Byte>, client: Established)
    requires BothFinish(draws, bundle, at, answer, tee, received, client)
    ensures var p := Initiate(draws, bundle).value; var hello := DecodeClient(at).value.0;
            && tee.root == Extract(TranscriptHash(at + EncodeServer(answer)),
                                   Hybrid(bundle.pqPk, hello.kemCt, bundle.spkPk, hello.clientPk))
            && tee.clientRatchetPk == hello.ratchetPk
            && client.root == Extract(TranscriptHash(p.sent + received), p.hybrid)
            && client.serverRatchetPk == DecodeServer(received).value.0.serverPk
  {
    hide EncodeClient, DecodeClient, EncodeServer, DecodeServer, ServerSized;
    var ratchetSk, serverRandom, make :| Respond(bundle, at, ratchetSk, serverRandom, make) == Done((answer, tee));
    var verify :| Complete(Initiate(draws, bundle).value, received, verify) == Done(client);
  }

  /** The two roots are equal exactly when the two transcripts are the same bytes: the TEE received the client's hello
      with some bytes behind it, and the client received those bytes with the TEE's answer behind them. */
  lemma RootsAgreeIff(draws: ClientDraws, bundle: Bundle, at: seq<Byte>, answer: ServerHello, tee: Established,
                      received: seq<Byte>, client: Established)
    requires BothFinish(draws, bundle, at, answer, tee, received, client)
    ensures var p := Initiate(draws, bundle).value; var extra := DecodeClient(at).value.1;
            && (client.root == tee.root <==> p.sent + received == at + EncodeServer(answer))
            && (client.root == tee.root <==> at == p.sent + extra && received == extra + EncodeServer(answer))
            && (client.root == tee.root ==> DecodeClient(at).value.0 == p.hello)
  {
    hide EncodeClient, DecodeClient, EncodeServer, DecodeServer, ServerSized, ClientSized, BothFinish;
    FinishedSides(draws, bundle, at, answer, tee, received, client);
    FinishedRoots(draws, bundle, at, answer, tee, received, client);
    InitiatedSized(draws, bundle);
    var p := Initiate(draws, bundle).value;
    TranscriptsAgreeIff(p.hello, received, at, EncodeServer(answer));
    assert multiset{draws.ephemeral, bundle.spkPk} == multiset{bundle.spkPk, draws.ephemeral};
  }

  lemma FinishedSides(draws: ClientDraws, bundle: Bundle, at: seq<Byte>, answer: ServerHello, tee: Established,
                      received: seq<Byte>, client: Established)
    requires BothFinish(draws, bundle, at, answer, tee, received, client)
    ensures Proper(draws) && |bundle.pqPk| == ML_KEM_768_EK_LEN && ServerSized(answer)
    ensures DecodeClient(at).Some? && DecodeServer(received).Some?
  {
  }

  /** The report data of the two sides, which the TEE's evidence is for and the client's verifier compares, are the same
      exactly when the TEE got the client's nonce, ciphertext and point, and the client got the TEE's own point. So
      evidence of another session does not pass, even where the roots agree. */
  lemma ReportsAgreeIff(draws: ClientDraws, bundle: Bundle, at: seq<Byte>, answer: ServerHello, tee: Established,
                        received: seq<Byte>, client: Established)
    requires BothFinish(draws, bundle, at, answer, tee, received, client)
    ensures var hello := DecodeClient(at).value.0;
            client.report == tee.report
            <==> && hello.attestationNonce == draws.nonce && hello.kemCt == draws.kemCt && hello.clientPk == draws.ephemeral
                 && DecodeServer(received).value.0.serverPk == answer.serverPk
  {
    hide EncodeClient, DecodeClient, EncodeServer, DecodeServer, ServerSized;
    var ratchetSk, serverRandom, make :| Respond(bundle, at, ratchetSk, serverRandom, make) == Done((answer, tee));
    var verify :| Complete(Initiate(draws, bundle).value, received, verify) == Done(client);
    SharedAlike(bundle.spkPk, DecodeClient(at).value.0.clientPk, draws.ephemeral);
  }

  lemma SharedAlike(a: Point, b: Point, c: Point)
    ensures DiffieHellman(a, b) == DiffieHellman(c, a) <==> b == c
  {
    assert multiset{a, b} - multiset{a} == multiset{b};
    assert multiset{c, a} - multiset{a} == multiset{c};
    if b != c {
      assert b in multiset{b} && b !in multiset{c};
    } else {
      assert multiset{a, b} == multiset{c, a};
    }
  }

  /** Each side decoded the hello the other side sent. */
  predicate SameHellos(p: Pending, at: seq<Byte>, answer: ServerHello, received: seq<Byte>)
    requires DecodeClient(at).Some? && DecodeServer(received).Some?
  {
    DecodeClient(at).value.0 == p.hello && DecodeServer(received).value.0 == answer
  }

  /** When both sides received exact encodings, equal roots mean the same two hellos and the other way round. */
  lemma CleanRootsBindHellos(draws: ClientDraws, bundle: Bundle, at: seq<Byte>, answer: ServerHello, tee: Established,
                             received: seq<Byte>, client: Established)
    requires BothFinish(draws, bundle, at, answer, tee, received, client) && ClientClean(at) && ServerClean(received)
    ensures client.root == tee.root <==> SameHellos(Initiate(draws, bundle).value, at, answer, received)
  {
    hide EncodeClient, DecodeClient, EncodeServer, DecodeServer, BothFinish, ClientSized, ServerSized;
    FinishedSides(draws, bundle, at, answer, tee, received, client);
    RootsAgreeIff(draws, bundle, at, answer, tee, received, client);
    InitiatedSized(draws, bundle);
    CleanBinds(Initiate(draws, bundle).value.hello, at);
    ServerRoundTrip(answer, []);
    assert EncodeServer(answer) + [] == EncodeServer(answer) == [] + EncodeServer(answer);
    var p := Initiate(draws, bundle).value;
    assert p.sent + [] == p.sent;
  }

  /** A clean hello has nothing behind it. */
  lemma CleanBinds(h: ClientHello, at: seq<Byte>)
    requires ClientSized(h) && ClientClean(at)
    ensures DecodeClient(at).value.0 == h ==> at == EncodeClient(h) && DecodeClient(at).value.1 == []
  {
    ClientRoundTrip(h, []);
    assert EncodeClient(h) + [] == EncodeClient(h);
    hide EncodeClient, DecodeClient;
  }

  // ---------------------------------------------------------------- exactly when a root binds the hellos

  /** Whatever the TEE answers and the client gets as an exact encoding, equal transcripts mean equal hellos. */
  ghost predicate BindsHellos(h: ClientHello, at: seq<Byte>)
    requires DecodeClient(at).Some?
  {
    forall answer: ServerHello, received: seq<Byte> ::
      ServerSized(answer) && ServerClean(received) ==>
        (EncodeClient(h) + received == at + EncodeServer(answer)
         <==> DecodeClient(at).value.0 == h && DecodeServer(received).value.0 == answer)
  }

  /** The bytes at the TEE bind the hellos exactly when, if they decode to the client's hello, they re-encode to
      themselves: a check the TEE could make on what it received. */
  lemma BindsHellosIff(h: ClientHello, at: seq<Byte>)
    requires ClientSized(h) && DecodeClient(at).Some?
    ensures BindsHellos(h, at) <==> (DecodeClient(at).value.0 == h ==> ClientClean(at))
  {
    hide EncodeClient, DecodeClient, EncodeServer, DecodeServer, ClientSized, ServerSized, ClientClean;
    if DecodeClient(at).value.0 == h ==> ClientClean(at) {
      forall answer: ServerHello, received: seq<Byte> | ServerSized(answer) && ServerClean(received)
        ensures EncodeClient(h) + received == at + EncodeServer(answer)
                <==> DecodeClient(at).value.0 == h && DecodeServer(received).value.0 == answer
      {
        CleanTranscript(h, at, answer, received);
      }
    }
    if BindsHellos(h, at) && DecodeClient(at).value.0 == h {
      SampleAnswerBinds(h, at);
    }
  }

  lemma CleanTranscript(h: ClientHello, at: seq<Byte>, answer: ServerHello, received: seq<Byte>)
    requires ClientSized(h) && DecodeClient(at).Some? && ServerSized(answer) && ServerClean(received)
    requires DecodeClient(at).value.0 == h ==> ClientClean(at)
    ensures EncodeClient(h) + received == at + EncodeServer(answer)
            <==> DecodeClient(at).value.0 == h && DecodeServer(received).value.0 == answer
  {
    hide EncodeClient, DecodeClient, EncodeServer, DecodeServer, ClientSized, ServerSized;
    TranscriptsAgreeIff(h, received, at, EncodeServer(answer));
    if DecodeClient(at).value.0 == h {
      CleanBinds(h, at);
      ServerRoundTrip(answer, []);
      assert EncodeServer(answer) + [] == EncodeServer(answer) == [] + EncodeServer(answer);
      assert EncodeClient(h) + [] == EncodeClient(h);
    }
  }

  const SAMPLE := ServerHello(PROTOCOL_VERSION, seq(POINT_LEN, _ => 0), seq(POINT_LEN, _ => 0), [], seq(SIGNATURE_LEN, _ => 0))

  lemma SampleAnswerBinds(h: ClientHello, at: seq<Byte>)
    requires ClientSized(h) && DecodeClient(at).Some? && DecodeClient(at).value.0 == h && BindsHellos(h, at)
    ensures ClientClean(at)
  {
    assert ServerSized(SAMPLE);
    hide EncodeClient, DecodeClient, EncodeServer, DecodeServer, ClientSized, ServerSized;
    var s := EncodeServer(SAMPLE);
    ServerRoundTrip(SAMPLE, []);
    assert s + [] == s;
    assert ServerClean(s);
    assert EncodeClient(h) + s == at + s;
    SameFront(EncodeClient(h), at, s);
  }

  /** On the client's side, with its own hello undisturbed: the transcript binds the server's hello exactly when the
      bytes received, if they decode to it, re-encode to themselves. */
  lemma BindsServerHelloIff(p: Pending, answer: ServerHello, received: seq<Byte>)
    requires ServerSized(answer) && DecodeServer(received).Some?
    ensures (p.sent + received == p.sent + EncodeServer(answer) <==> DecodeServer(received).value.0 == answer)
            <==> (DecodeServer(received).value.0 == answer ==> ServerClean(received))
  {
    hide EncodeServer, DecodeServer, ServerSized;
    ServerRoundTrip(answer, []);
    assert EncodeServer(answer) + [] == EncodeServer(answer);
    if p.sent + received == p.sent + EncodeServer(answer) {
      assert (p.sent + received)[|p.sent|..] == received;
      assert (p.sent + EncodeServer(answer))[|p.sent|..] == EncodeServer(answer);
    }
  }

  /** One byte behind the client's hello: both sides decode the same hellos, and their roots differ. */
  lemma TrailingByteParts(draws: ClientDraws, bundle: Bundle, x: Byte, answer: ServerHello, tee: Established, client: Established)
    requires |bundle.pqPk| == ML_KEM_768_EK_LEN
    requires BothFinish(draws, bundle, Initiate(draws, bundle).value.sent + [x], answer, tee, EncodeServer(answer), client)
    ensures var p := Initiate(draws, bundle).value;
            SameHellos(p, p.sent + [x], answer, EncodeServer(answer)) && client.root != tee.root
  {
    hide EncodeClient, DecodeClient, EncodeServer, DecodeServer, BothFinish, ClientSized, ServerSized;
    var p := Initiate(draws, bundle).value;
    FinishedSides(draws, bundle, p.sent + [x], answer, tee, EncodeServer(answer), client);
    RootsAgreeIff(draws, bundle, p.sent + [x], answer, tee, EncodeServer(answer), client);
    InitiatedSized(draws, bundle);
    ClientRoundTrip(p.hello, [x]);
    ServerRoundTrip(answer, []);
    assert EncodeServer(answer) + [] == EncodeServer(answer);
    assert |[x] + EncodeServer(answer)| == 1 + |EncodeServer(answer)|;
  }

  /** Two answers joined: a second TEE session that receives the client's hello with the first session's answer behind
      it, and a client that receives the first answer with the second behind it. Their roots are equal, and the client
      holds the first session's point while the second session holds its own. */
  lemma JoinedAnswersAgree(draws: ClientDraws, bundle: Bundle, first: Point, firstRandom: seq<Byte>, second: Point,
                           secondRandom: seq<Byte>, make: (ReportData, Term) -> Outcome<(seq<Byte>, seq<Byte>)>,
                           verify: (Term, seq<Byte>) -> bool)
    requires Proper(draws) && |bundle.pqPk| == ML_KEM_768_EK_LEN
    requires var p := Initiate(draws, bundle).value;
             var s1 := Respond(bundle, p.sent, first, firstRandom, make);
             && s1.Done? && ServerSized(s1.value.0) && verify(TranscriptHash(p.sent), s1.value.0.signature)
             && Respond(bundle, p.sent + EncodeServer(s1.value.0), second, secondRandom, make).Done?
    ensures var p := Initiate(draws, bundle).value;
            var s1 := Respond(bundle, p.sent, first, firstRandom, make).value.0;
            var (s2, tee) := Respond(bundle, p.sent + EncodeServer(s1), second, secondRandom, make).value;
            var client := Complete(p, EncodeServer(s1) + EncodeServer(s2), verify);
            && client.Done? && client.value.root == tee.root
            && client.value.serverRatchetPk == first && tee.serverRatchetPk == second
  {
    hide EncodeClient, DecodeClient, EncodeServer, DecodeServer, ClientSized, ServerSized;
    var p := Initiate(draws, bundle).value;
    InitiatedSized(draws, bundle);
    var s1 := Respond(bundle, p.sent, first, firstRandom, make).value.0;
    var (s2, tee) := Respond(bundle, p.sent + EncodeServer(s1), second, secondRandom, make).value;
    ClientRoundTrip(p.hello, EncodeServer(s1));
    ServerRoundTrip(s1, EncodeServer(s2));
    assert p.sent + (EncodeServer(s1) + EncodeServer(s2)) == (p.sent + EncodeServer(s1)) + EncodeServer(s2);
    assert multiset{draws.ephemeral, bundle.spkPk} == multiset{bundle.spkPk, draws.ephemeral};
  }

  // ---------------------------------------------------------------- secrecy

  ghost predicate KemUnbroken(draws: ClientDraws, bundle: Bundle, adv: Adversary) {
    bundle.pqPk !in adv.kemKeys && (bundle.pqPk, draws.kemCt) !in adv.encapsulated
  }

  /** The hybrid promise: the network computes the client's root exactly when it has broken the KEM part
      and the ECDH part both. */
  lemma RootHiddenUnlessBothBroken(draws: ClientDraws, bundle: Bundle, received: seq<Byte>,
                                   verify: (Term, seq<Byte>) -> bool, adv: Adversary)
    requires |bundle.pqPk| == ML_KEM_768_EK_LEN
    requires Complete(Initiate(draws, bundle).value, received, verify).Done?
    ensures var root := Complete(Initiate(draws, bundle).value, received, verify).value.root;
            && HandshakeRoot(root)
            && (Derivable(root, adv)
                <==> !KemUnbroken(draws, bundle, adv) && (bundle.spkPk in adv.points || draws.ephemeral in adv.points))
  {
    var p := Initiate(draws, bundle).value;
    var kem := KemSecret(bundle.pqPk, draws.kemCt);
    KnowsShared(draws.ephemeral, bundle.spkPk, adv, {});
    KnowsConcat(kem, DiffieHellman(draws.ephemeral, bundle.spkPk), adv, {});
    KnowsExtract(TranscriptHash(p.sent + received), p.hybrid, adv, {});
    assert Knows(kem, adv, {}) <==> !KemUnbroken(draws, bundle, adv);
    assert Knows(TranscriptHash(p.sent + received), adv, {});
    hide Knows, EncodeClient, DecodeServer;
  }
}
