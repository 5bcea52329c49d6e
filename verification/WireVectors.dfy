/** The formats on sample values, byte for byte. */
module WireVectors {
  import opened Bytes
  import opened Keys
  import opened Postcard
  import opened Wire
  import opened Hello
  import opened Handshake
  import opened Options
  import opened Onion

  function Zeros(n: nat): seq<Byte> {
    seq(n, _ => 0)
  }

  lemma {:induction false} SmallBigEndian(v: Byte, width: nat)
    requires width > 0
    ensures BigEndian(v, width) == Zeros(width - 1) + [v]
    decreases width
  {
    if width > 1 {
      SmallBigEndian(0, width - 1);
      assert v / 256 == 0;
    }
  }

  lemma SampleFields()
    ensures BigEndian(1, W16) == [0, 1] && BigEndian(1, W32) == [0, 0, 0, 1] && BigEndian(2, W64) == [0, 0, 0, 0, 0, 0, 0, 2]
  {
    SmallBigEndian(1, W16);
    SmallBigEndian(2, W64);
    SmallBigEndian(1, W32);
    hide BigEndian;
  }

  /** An end-of-turn DATA frame with number 2 in epoch 1. */
  lemma HeaderVector()
    ensures WriteHeader(NewHeader(Data, END_OF_TURN, 1, 2))
            == [3, 2, 0, 1, 0, 0, 0, 0, 0, 0, 0, 2, 0, 0, 0, 1, 0, 0, 0, 1, 0, 0, 0, 0, 0, 0, 0, 2]
  {
    hide BigEndian;
    SampleFields();
    assert ExpectedNonceField(1, 2) == [0, 0, 0, 1, 0, 0, 0, 0, 0, 0, 0, 2];
  }

  lemma FrameTypeVectors()
    ensures FrameTypeByte(FrameType.Handshake) == 1 && FrameTypeByte(Data) == 2 && FrameTypeByte(Control) == 3
    ensures FrameTypeByte(ToolStream) == 4 && FrameTypeByte(Proof) == 5 && FrameTypeByte(AttestRefresh) == 6
  {
  }

  lemma ControlVectors(pk: Point)
    ensures EncodeControl(Ping(7)) == [1, 0, 0, 0, 0, 0, 0, 0, 7] && EncodeControl(Pong(7)) == [2, 0, 0, 0, 0, 0, 0, 0, 7]
    ensures EncodeControl(Cancel(7)) == [3, 0, 7] && EncodeControl(KeyUpdate(pk)) == [4] + pk
    ensures EncodeControl(Failure(7)) == [5, 0, 7] && EncodeControl(FlowCredit(7)) == [6, 0, 0, 0, 7]
  {
    SmallBigEndian(7, W64);
    SmallBigEndian(7, W16);
    SmallBigEndian(7, W32);
    hide BigEndian;
  }

  /** Where the fields of a client hello with a 1088-byte ciphertext and the default suite stand. */
  lemma ClientHelloLayout(draws: ClientDraws, bundle: Bundle)
    requires Proper(draws) && |bundle.pqPk| == ML_KEM_768_EK_LEN
    ensures var b := Initiate(draws, bundle).value.sent;
            && |b| == 1223 && b[0] == 3 && b[1..33] == draws.clientRandom && b[33..65] == draws.nonce
            && b[65..97] == draws.ephemeral && b[97..99] == [0xC0, 0x08] && b[99..1187] == draws.kemCt
            && b[1187..1219] == draws.ratchet && b[1219..] == [0xEC, 0x23, 1, 1]
  {
    SampleVarints();
    hide Varint;
  }

  lemma SampleVarints()
    ensures Varint(1088) == [0xC0, 0x08] && Varint(0x11EC) == [0xEC, 0x23]
  {
    assert Varint(8) == [8] && Varint(0x23) == [0x23];
  }

  /** Where the fields of a server hello stand. */
  lemma ServerHelloLayout(h: ServerHello)
    requires ServerSized(h) && |h.evidence| < 128
    ensures var b, n := EncodeServer(h), |h.evidence|;
            && |b| == 130 + n && b[0] == h.version && b[1..33] == h.serverRandom && b[33..65] == h.serverPk
            && b[65] == n && b[66..66 + n] == h.evidence && b[66 + n..] == h.signature
  {
  }

  lemma SuiteVector()
    ensures SuiteBytes(CipherSuite(0x11EC, 2, 7)) == [0xEC, 0x23, 2, 7]
  {
    SampleVarints();
  }

  /** An onion layer's content, with and without a next hop. */
  lemma InnerVectors()
    ensures EncodeInner(Inner(None, [7])) == [0, 1, 7]
    ensures EncodeInner(Inner(Some([65]), [7])) == [1, 1, 65, 1, 7]
  {
    assert Varint(1) == [1];
  }
}
