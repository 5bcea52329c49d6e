/** The record codec: frame headers and control bodies byte by byte, AEAD boxes as free terms.
    A box opens only under the key, nonce and associated data that sealed it. */
module Wire {
  import opened Bytes
  import opened Keys

  datatype Error =
    | ShortFrame(len: nat) | LongFrame(len: nat) | BadVersion(got: nat) | BadFrameType(got: nat)
    | Decrypt | BadControl | UnexpectedControl | UnexpectedFrameType | UnexpectedEpoch
    | ReplayRejected | NotUtf8 | Transport | SessionNotOpen | OutOfOrder | SeqOverflow

  datatype Result<T> = Ok(value: T) | Err(error: Error)

  const HEADER_LEN: nat := 28
  const MAX_PLAINTEXT_PER_RECORD: nat := 16384
  /** Field widths in bytes. */
  const W16: nat := 2
  const W32: nat := 4
  const W64: nat := 8
  const W128: nat := 16

  // ---------------------------------------------------------------- headers

  datatype FrameType = Handshake | Data | Control | ToolStream | Proof | AttestRefresh

  function FrameTypeByte(t: FrameType): Byte {
    match t
    case Handshake => 1
    case Data => 2
    case Control => 3
    case ToolStream => 4
    case Proof => 5
    case AttestRefresh => 6
  }

  function FrameTypeOf(b: Byte): (r: Result<FrameType>)
    ensures r.Ok? ==> FrameTypeByte(r.value) == b
  {
    match b
    case 1 => Ok(Handshake)
    case 2 => Ok(Data)
    case 3 => Ok(Control)
    case 4 => Ok(ToolStream)
    case 5 => Ok(Proof)
    case 6 => Ok(AttestRefresh)
    case _ => Err(BadFrameType(b))
  }

  /** All defined flag bits: four flags and the stream id. */
  const DEFINED_FLAGS: nat := 0x1000
  const END_OF_TURN: nat := 1

  datatype Header = Header(version: Byte, frameType: FrameType, flags: nat, seqNo: nat, epoch: nat, nonceField: seq<Byte>)

  /** The fields fit their wire widths and no undefined flag is set. */
  predicate WellFormed(h: Header) {
    h.version == PROTOCOL_VERSION && h.flags < DEFINED_FLAGS && h.seqNo < U64 && h.epoch < U32 && |h.nonceField| == 12
  }

  function ExpectedNonceField(epoch: nat, seqNo: nat): (f: seq<Byte>) {
    BigEndian(epoch, W32) + BigEndian(seqNo, W64)
  }

  function NewHeader(t: FrameType, flags: nat, epoch: nat, seqNo: nat): Header {
    Header(PROTOCOL_VERSION, t, flags, seqNo, epoch, ExpectedNonceField(epoch, seqNo))
  }

  function WriteHeader(h: Header): seq<Byte> {
    [h.version, FrameTypeByte(h.frameType)] + BigEndian(h.flags, W16) + BigEndian(h.seqNo, W64)
    + BigEndian(h.epoch, W32) + h.nonceField
  }

  function ReadHeader(b: seq<Byte>): Result<Header> {
    if |b| != HEADER_LEN then Err(ShortFrame(|b|))
    else if b[0] != PROTOCOL_VERSION then Err(BadVersion(b[0]))
    else
      var t := FrameTypeOf(b[1]);
      if t.Err? then Err(t.error)
      else Ok(Header(b[0], t.value, FromBigEndian(b[2..4]) % DEFINED_FLAGS,
                     FromBigEndian(b[4..12]), FromBigEndian(b[12..16]), b[16..28]))
  }

  lemma WidthsFit()
    ensures Pow256(W16) == 0x1_0000 && Pow256(W32) == U32 && Pow256(W64) == U64
  {
    assert Pow256(4) == 256 * (256 * Pow256(2));
    assert Pow256(6) == 256 * (256 * Pow256(4));
    assert Pow256(8) == 256 * (256 * Pow256(6));
  }

  lemma FieldRoundTrips(a: nat, b: nat, c: nat)
    requires a < 0x1_0000 && b < U32 && c < U64
    ensures FromBigEndian(BigEndian(a, W16)) == a
    ensures FromBigEndian(BigEndian(b, W32)) == b
    ensures FromBigEndian(BigEndian(c, W64)) == c
  {
    WidthsFit();
    BigEndianRoundTrip(a, W16);
    BigEndianRoundTrip(b, W32);
    BigEndianRoundTrip(c, W64);
  }

  lemma HeaderSlices(h: Header, b: seq<Byte>)
    requires |h.nonceField| == 12 && b == WriteHeader(h)
    ensures |b| == HEADER_LEN && b[0] == h.version && b[1] == FrameTypeByte(h.frameType)
    ensures b[2..4] == BigEndian(h.flags, W16)
    ensures b[4..12] == BigEndian(h.seqNo, W64)
    ensures b[12..16] == BigEndian(h.epoch, W32)
    ensures b[16..28] == h.nonceField
  {
    hide BigEndian, FrameTypeByte;
  }

  lemma ParsesTo(h: Header, b: seq<Byte>)
    requires WellFormed(h) && |b| == HEADER_LEN
    requires b[0] == h.version && b[1] == FrameTypeByte(h.frameType) && b[16..28] == h.nonceField
    requires FromBigEndian(b[2..4]) == h.flags && FromBigEndian(b[4..12]) == h.seqNo && FromBigEndian(b[12..16]) == h.epoch
    ensures ReadHeader(b) == Ok(h)
  {
  }

  /** Every header whose flags are defined survives the wire. */
  lemma HeaderRoundTrip(h: Header)
    requires WellFormed(h)
    ensures ReadHeader(WriteHeader(h)) == Ok(h)
  {
    HeaderSlices(h, WriteHeader(h));
    FieldRoundTrips(h.flags, h.epoch, h.seqNo);
    ParsesTo(h, WriteHeader(h));
  }

  // ---------------------------------------------------------------- nonces

  /** `frame_nonce`, byte by byte: the salt with the 16-byte counter `epoch << 64 | seq` XORed into its tail. */
  method FrameNonce(salt: seq<Byte>, epoch: nat, seqNo: nat) returns (out: seq<Byte>)
    requires |salt| == 24
    ensures out == NonceBytes(salt, epoch, seqNo)
  {
    out := salt;
    var counter := CounterBytes(epoch, seqNo);
    for i := 0 to 16
      invariant |out| == 24
      invariant forall k :: 0 <= k < i ==> out[k + 8] == Xor(salt[k + 8], counter[k])
      invariant forall k :: 0 <= k < 24 && (k < 8 || k >= i + 8) ==> out[k] == salt[k]
    {
      out := out[i + 8 := Xor(out[i + 8], counter[i])];
    }
  }

  function CounterBytes(epoch: nat, seqNo: nat): (b: seq<Byte>)
    ensures |b| == 16
  {
    BigEndian(epoch * U64 + seqNo, W128)
  }

  function NonceBytes(salt: seq<Byte>, epoch: nat, seqNo: nat): (b: seq<Byte>)
    requires |salt| == 24
    ensures |b| == 24
  {
    salt[..8] + XorAll(salt[8..], CounterBytes(epoch, seqNo))
  }

  /** Under one salt, different (epoch, seq) pairs never share a nonce: the term `Nonce` below loses nothing. */
  lemma NonceBytesInjective(salt: seq<Byte>, epoch: nat, seqNo: nat, epoch': nat, seqNo': nat)
    requires |salt| == 24
    requires epoch < U32 && epoch' < U32 && seqNo < U64 && seqNo' < U64
    ensures NonceBytes(salt, epoch, seqNo) == NonceBytes(salt, epoch', seqNo') <==> epoch == epoch' && seqNo == seqNo'
  {
    hide CounterBytes, XorAll;
    var a, b := CounterBytes(epoch, seqNo), CounterBytes(epoch', seqNo');
    assert XorAll(salt[8..], a) == NonceBytes(salt, epoch, seqNo)[8..];
    assert XorAll(salt[8..], b) == NonceBytes(salt, epoch', seqNo')[8..];
    XorAllInjective(salt[8..], a, b);
    if a == b {
      CounterInjective(epoch, seqNo, epoch', seqNo');
    }
  }

  lemma CounterInjective(epoch: nat, seqNo: nat, epoch': nat, seqNo': nat)
    requires epoch < U32 && epoch' < U32 && seqNo < U64 && seqNo' < U64
    requires CounterBytes(epoch, seqNo) == CounterBytes(epoch', seqNo')
    ensures epoch == epoch' && seqNo == seqNo'
  {
    WidthsFit();
    Pow256Adds(W64, W64);
    BigEndianRoundTrip(epoch * U64 + seqNo, W128);
    BigEndianRoundTrip(epoch' * U64 + seqNo', W128);
  }

  /** The bytes of a nonce: twelve of the salt, then the salt's with the epoch in them, then the salt's with the number. */
  lemma NonceLayout(salt: seq<Byte>, epoch: nat, seqNo: nat)
    requires |salt| == 24 && epoch < U32 && seqNo < U64
    ensures NonceBytes(salt, epoch, seqNo)
            == salt[..12] + XorAll(salt[12..16], BigEndian(epoch, 4)) + XorAll(salt[16..], BigEndian(seqNo, 8))
  {
    hide BigEndian, XorAll, CounterBytes;
    var tail := salt[8..];
    CounterXor(tail, epoch, seqNo);
    SaltSlices(salt);
    Regroup(salt[..8], tail[..4], XorAll(salt[12..16], BigEndian(epoch, 4)), XorAll(salt[16..], BigEndian(seqNo, 8)));
  }

  lemma SaltSlices(salt: seq<Byte>)
    requires |salt| == 24
    ensures salt[8..][4..8] == salt[12..16] && salt[8..][8..] == salt[16..] && salt[..8] + salt[8..][..4] == salt[..12]
  {
  }

  lemma Regroup(a: seq<Byte>, b: seq<Byte>, c: seq<Byte>, d: seq<Byte>)
    ensures a + (b + c + d) == (a + b) + c + d
  {
  }

  lemma CounterXor(tail: seq<Byte>, epoch: nat, seqNo: nat)
    requires |tail| == 16 && epoch < U32 && seqNo < U64
    ensures XorAll(tail, CounterBytes(epoch, seqNo))
            == tail[..4] + XorAll(tail[4..8], BigEndian(epoch, 4)) + XorAll(tail[8..], BigEndian(seqNo, 8))
  {
    hide BigEndian, XorAll, CounterBytes;
    CounterLayout(epoch, seqNo);
    var zeros := [0, 0, 0, 0];
    XorAllJoin(tail[..4], tail[4..8], zeros, BigEndian(epoch, 4));
    XorAllJoin(tail[..8], tail[8..], zeros + BigEndian(epoch, 4), BigEndian(seqNo, 8));
    assert tail[..4] + tail[4..8] == tail[..8] && tail[..8] + tail[8..] == tail;
    XorAllZeros(tail[..4], zeros);
  }

  lemma XorAllJoin(a: seq<Byte>, b: seq<Byte>, c: seq<Byte>, d: seq<Byte>)
    requires |a| == |c| && |b| == |d|
    ensures XorAll(a + b, c + d) == XorAll(a, c) + XorAll(b, d)
  {
    hide XorAll, Xor;
  }

  lemma XorAllZeros(a: seq<Byte>, zeros: seq<Byte>)
    requires |a| == |zeros| && forall i :: 0 <= i < |zeros| ==> zeros[i] == 0
    ensures XorAll(a, zeros) == a
  {
    hide XorAll, Xor;
    forall i | 0 <= i < |a| ensures Xor(a[i], zeros[i]) == a[i] {
      XorZero(a[i]);
    }
  }

  lemma XorZero(a: Byte)
    ensures Xor(a, 0) == a
  {
    assert Pow2(8) == 256;
    XorBitsZero(a, 8);
  }

  lemma {:induction false} XorBitsZero(a: nat, bits: nat)
    requires a < Pow2(bits)
    ensures XorBits(a, 0, bits) == a
    decreases bits
  {
    if bits > 0 {
      XorBitsZero(a / 2, bits - 1);
    }
  }

  lemma ZeroBytes()
    ensures BigEndian(0, 4) == [0, 0, 0, 0]
  {
    assert BigEndian(0, 3) == [0, 0, 0];
  }

  lemma CounterLayout(epoch: nat, seqNo: nat)
    requires epoch < U32 && seqNo < U64
    ensures CounterBytes(epoch, seqNo) == [0, 0, 0, 0] + BigEndian(epoch, 4) + BigEndian(seqNo, 8)
  {
    hide BigEndian, Pow256;
    WidthsFit();
    ZeroBytes();
    BigEndianSplit(epoch, seqNo, W64, W64);
    BigEndianSplit(0, epoch, W32, W32);
  }

  // ---------------------------------------------------------------- control bodies

  datatype ControlBody =
    | Ping(ts: nat) | Pong(ts: nat) | Cancel(code: nat)
    | KeyUpdate(newPk: Point) | Failure(code: nat) | FlowCredit(bytes: nat)

  predicate Encodable(c: ControlBody) {
    match c
    case Ping(ts) => ts < U64
    case Pong(ts) => ts < U64
    case Cancel(code) => code < 0x1_0000
    case KeyUpdate(pk) => |pk| == 32
    case Failure(code) => code < 0x1_0000
    case FlowCredit(bytes) => bytes < U32
  }

  function EncodeControl(c: ControlBody): seq<Byte> {
    match c
    case Ping(ts) => [1] + BigEndian(ts, W64)
    case Pong(ts) => [2] + BigEndian(ts, W64)
    case Cancel(code) => [3] + BigEndian(code, W16)
    case KeyUpdate(pk) => [4] + pk
    case Failure(code) => [5] + BigEndian(code, W16)
    case FlowCredit(bytes) => [6] + BigEndian(bytes, W32)
  }

  function ReadUint(b: seq<Byte>, width: nat): Result<nat> {
    if |b| != width then Err(BadControl) else Ok(FromBigEndian(b))
  }

  function DecodeControl(b: seq<Byte>): Result<ControlBody> {
    if b == [] then Err(BadControl)
    else
      var rest := b[1..];
      match b[0]
      case 1 => var v := ReadUint(rest, W64); if v.Ok? then Ok(Ping(v.value)) else Err(v.error)
      case 2 => var v := ReadUint(rest, W64); if v.Ok? then Ok(Pong(v.value)) else Err(v.error)
      case 3 => var v := ReadUint(rest, W16); if v.Ok? then Ok(Cancel(v.value)) else Err(v.error)
      case 4 => if |rest| == 32 then Ok(KeyUpdate(rest)) else Err(BadControl)
      case 5 => var v := ReadUint(rest, W16); if v.Ok? then Ok(Failure(v.value)) else Err(v.error)
      case 6 => var v := ReadUint(rest, W32); if v.Ok? then Ok(FlowCredit(v.value)) else Err(v.error)
      case _ => Err(BadControl)
  }

  /** Control bodies and their bytes are in exact correspondence: decode succeeds on the encodings and on nothing else. */
  lemma ControlRoundTrip(c: ControlBody)
    requires Encodable(c)
    ensures DecodeControl(EncodeControl(c)) == Ok(c)
  {
    WidthsFit();
    var b := EncodeControl(c);
    match c
    case Ping(ts) => assert b[1..] == BigEndian(ts, W64); BigEndianRoundTrip(ts, W64);
    case Pong(ts) => assert b[1..] == BigEndian(ts, W64); BigEndianRoundTrip(ts, W64);
    case Cancel(code) => assert b[1..] == BigEndian(code, W16); BigEndianRoundTrip(code, W16);
    case KeyUpdate(pk) => assert b[1..] == pk;
    case Failure(code) => assert b[1..] == BigEndian(code, W16); BigEndianRoundTrip(code, W16);
    case FlowCredit(n) => assert b[1..] == BigEndian(n, W32); BigEndianRoundTrip(n, W32);
  }

  lemma ControlDecodesOnlyEncodings(b: seq<Byte>)
    requires DecodeControl(b).Ok?
    ensures Encodable(DecodeControl(b).value) && EncodeControl(DecodeControl(b).value) == b
  {
    WidthsFit();
    assert b == [b[0]] + b[1..];
    BigEndianFits(b[1..]);
  }

  // ---------------------------------------------------------------- frames

  datatype Nonce = Nonce(salt: Term, epoch: nat, seqNo: nat)

  datatype Body =
    | Sealed(key: Term, nonce: Nonce, aad: seq<Byte>, plaintext: seq<Byte>)
    | Noise(bytes: seq<Byte>)

  function BodyLen(b: Body): nat {
    match b
    case Sealed(_, _, _, plaintext) => |plaintext| + TAG_LEN
    case Noise(bytes) => |bytes|
  }

  /** A message on the wire, split where the decoder splits it. */
  datatype Packet = Packet(head: seq<Byte>, body: Body)

  function EncodeFrame(key: Term, salt: Term, t: FrameType, flags: nat, epoch: nat, seqNo: nat,
                       plaintext: seq<Byte>): Result<Packet> {
    if |plaintext| > MAX_PLAINTEXT_PER_RECORD then Err(LongFrame(|plaintext|))
    else
      var head := WriteHeader(NewHeader(t, flags, epoch, seqNo));
      Ok(Packet(head, Sealed(key, Nonce(salt, epoch, seqNo), head, plaintext)))
  }

  function DecodeFrame(key: Term, salt: Term, p: Packet): Result<(Header, seq<Byte>)> {
    if |p.head| + BodyLen(p.body) < HEADER_LEN + TAG_LEN then Err(ShortFrame(|p.head| + BodyLen(p.body)))
    else
      var h := ReadHeader(p.head);
      if h.Err? then Err(h.error)
      else if h.value.nonceField != ExpectedNonceField(h.value.epoch, h.value.seqNo) then Err(Decrypt)
      else
        var nonce := Nonce(salt, h.value.epoch, h.value.seqNo);
        match p.body
        case Noise(_) => Err(Decrypt)
        case Sealed(k, n, aad, plaintext) =>
          if k == key && n == nonce && aad == p.head then Ok((h.value, plaintext)) else Err(Decrypt)
  }

  /** What was encoded is what is decoded, header and plaintext both. */
  lemma FrameRoundTrip(key: Term, salt: Term, t: FrameType, flags: nat, epoch: nat, seqNo: nat, plaintext: seq<Byte>)
    requires flags < DEFINED_FLAGS && epoch < U32 && seqNo < U64 && |plaintext| <= MAX_PLAINTEXT_PER_RECORD
    ensures DecodeFrame(key, salt, EncodeFrame(key, salt, t, flags, epoch, seqNo, plaintext).value)
         == Ok((NewHeader(t, flags, epoch, seqNo), plaintext))
  {
    HeaderRoundTrip(NewHeader(t, flags, epoch, seqNo));
  }

  /** A frame that opens carries a box sealed under exactly this key, and a header nobody altered since:
      the box of an encoded frame opens only inside the very frame it was sent in. */
  lemma OpenedFrameIsUnaltered(key: Term, salt: Term, p: Packet, salt': Term, t: FrameType, flags: nat,
                               epoch: nat, seqNo: nat, plaintext: seq<Byte>)
    requires flags < DEFINED_FLAGS && epoch < U32 && seqNo < U64 && |plaintext| <= MAX_PLAINTEXT_PER_RECORD
    requires p.body == EncodeFrame(key, salt', t, flags, epoch, seqNo, plaintext).value.body
    requires DecodeFrame(key, salt, p).Ok?
    ensures salt == salt' && p == EncodeFrame(key, salt', t, flags, epoch, seqNo, plaintext).value
    ensures DecodeFrame(key, salt, p) == Ok((NewHeader(t, flags, epoch, seqNo), plaintext))
  {
    HeaderRoundTrip(NewHeader(t, flags, epoch, seqNo));
  }

  /** Which frames open at all, byte for byte: a 28-byte header of this version and a known type that repeats epoch and
      number in its last twelve bytes, around a box sealed with this key, this salt, that epoch and number, and that very
      header. */
  lemma OpensIff(key: Term, salt: Term, p: Packet)
    ensures DecodeFrame(key, salt, p).Ok?
            <==> && |p.head| == 28 && p.head[0] == 3 && 1 <= p.head[1] <= 6
                 && p.head[16..28] == p.head[12..16] + p.head[4..12]
                 && p.body.Sealed? && p.body.key == key && p.body.aad == p.head
                 && p.body.nonce == Nonce(salt, FromBigEndian(p.head[12..16]), FromBigEndian(p.head[4..12]))
    ensures var len := |p.head| + BodyLen(p.body); len < 44 ==> DecodeFrame(key, salt, p) == Err(ShortFrame(len))
  {
    if |p.head| == HEADER_LEN {
      BigEndianFits(p.head[12..16]);
      BigEndianFits(p.head[4..12]);
    }
    hide BigEndian, FromBigEndian;
  }
}
