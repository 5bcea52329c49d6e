/** What the client makes of any frame sealed under the key it draws next, told from what was sealed. */
module FrameOutcomes {
  import opened Bytes
  import opened Keys
  import opened Wire
  import opened Replay
  import opened RecordSend
  import opened RecordReceive

  /** A frame for this client: its next key and its salt, with any header and text. */
  function For(c: Client, t: FrameType, flags: nat, epoch: nat, seqNo: nat, text: Text): Result<Packet> {
    EncodeFrame(Ratchet(c.core.s2c).1, c.core.salt, t, flags, epoch, seqNo, text)
  }

  predicate Sized(flags: nat, epoch: nat, seqNo: nat, text: Text) {
    flags < DEFINED_FLAGS && epoch < U32 && seqNo < U64 && |text| <= MAX_PLAINTEXT_PER_RECORD
  }

  /** It is in the client's epoch, and its number is new to the window. */
  predicate InTurn(c: Client, epoch: nat, seqNo: nat) {
    epoch == c.core.epoch && Check(c.core.replay, seqNo).1.Accepted?
  }

  lemma Opens(c: Client, t: FrameType, flags: nat, epoch: nat, seqNo: nat, text: Text)
    requires Sized(flags, epoch, seqNo, text)
    ensures var p := For(c, t, flags, epoch, seqNo, text);
            && p.Ok?
            && DecodeFrame(Ratchet(c.core.s2c).1, c.core.salt, p.value) == Ok((NewHeader(t, flags, epoch, seqNo), text))
  {
    hide WriteHeader, NewHeader, DecodeFrame;
    FrameRoundTrip(Ratchet(c.core.s2c).1, c.core.salt, t, flags, epoch, seqNo, text);
  }

  /** A frame of another epoch or with a number seen before is refused as that, whatever is in it. */
  lemma OutOfTurn(c: Client, t: FrameType, flags: nat, epoch: nat, seqNo: nat, text: Text)
    requires Sized(flags, epoch, seqNo, text) && !InTurn(c, epoch, seqNo)
    ensures var r := Receive(c, For(c, t, flags, epoch, seqNo, text).value);
            && r.1 == Failed(if epoch != c.core.epoch then UnexpectedEpoch else ReplayRejected)
            && r.0.core.root == c.core.root && r.0.core.epoch == c.core.epoch && r.0.ended == c.ended
  {
    Opens(c, t, flags, epoch, seqNo, text);
    hide WriteHeader, DecodeFrame, EncodeFrame, Check, ExpectedNonceField;
  }

  /** DATA: an empty text with the end-of-turn flag ends the turn; any other text is a token if it is UTF-8. */
  lemma DataOutcome(c: Client, flags: nat, epoch: nat, seqNo: nat, text: Text)
    requires Sized(flags, epoch, seqNo, text) && InTurn(c, epoch, seqNo)
    ensures var r := Receive(c, For(c, Data, flags, epoch, seqNo, text).value);
            && r.1 == (if flags % 2 == 1 && text == [] then Finished else if Utf8(text) then Token(text) else Failed(NotUtf8))
            && (r.0.ended <==> c.ended || flags % 2 == 1) && r.0.core.root == c.core.root
            && r.0.core.replay == Check(c.core.replay, seqNo).0
  {
    Opens(c, Data, flags, epoch, seqNo, text);
    hide WriteHeader, DecodeFrame, EncodeFrame, Check, ExpectedNonceField, Utf8;
  }

  /** CONTROL: the announcement of a point moves the client to the next epoch; every other body is refused. */
  lemma ControlOutcome(c: Client, flags: nat, epoch: nat, seqNo: nat, body: ControlBody)
    requires Encodable(body) && Sized(flags, epoch, seqNo, EncodeControl(body)) && InTurn(c, epoch, seqNo)
    ensures var r := Receive(c, For(c, Control, flags, epoch, seqNo, EncodeControl(body)).value);
            && r.1 == (if body.KeyUpdate? then Absorbed else Failed(UnexpectedControl)) && r.0.ended == c.ended
            && (body.KeyUpdate? ==>
                  && r.0.core.root == DhStep(c.core.root, body.newPk, c.core.sk).0
                  && r.0.core.epoch == NextEpoch(c.core.epoch) && r.0.core.replay == EMPTY && r.0.core.c2sSeq == 0)
            && (!body.KeyUpdate? ==> r.0.core.root == c.core.root && r.0.core.epoch == c.core.epoch)
  {
    ControlRoundTrip(body);
    hide EncodeControl, DecodeControl;
    Opens(c, Control, flags, epoch, seqNo, EncodeControl(body));
    hide WriteHeader, DecodeFrame, EncodeFrame, Check, ExpectedNonceField;
    if body.KeyUpdate? {
      DhStepAgrees(c.core.root, body.newPk, c.core.sk);
    }
  }

  /** Every other type of frame, and a CONTROL frame that is no encoding of a body. */
  lemma OtherOutcome(c: Client, t: FrameType, flags: nat, epoch: nat, seqNo: nat, text: Text)
    requires Sized(flags, epoch, seqNo, text) && InTurn(c, epoch, seqNo) && t != Data
    requires t == Control ==> forall body :: Encodable(body) ==> text != EncodeControl(body)
    ensures var r := Receive(c, For(c, t, flags, epoch, seqNo, text).value);
            && r.1 == Failed(if t == Control then BadControl else UnexpectedFrameType)
            && r.0.core.root == c.core.root && r.0.ended == c.ended
  {
    if t == Control {
      BadControlFails(text);
    }
    Opens(c, t, flags, epoch, seqNo, text);
    hide WriteHeader, DecodeFrame, EncodeFrame, Check, ExpectedNonceField, DecodeControl;
  }

  lemma BadControlFails(text: Text)
    requires forall body :: Encodable(body) ==> text != EncodeControl(body)
    ensures DecodeControl(text) == Err(BadControl)
  {
    if DecodeControl(text).Ok? {
      ControlDecodesOnlyEncodings(text);
    }
  }

  /** A frame under any other key or salt fails to open, and costs the client one key. */
  lemma ForeignFrameFails(c: Client, key: Term, salt: Term, t: FrameType, flags: nat, epoch: nat, seqNo: nat, text: Text)
    requires Sized(flags, epoch, seqNo, text) && (key != Ratchet(c.core.s2c).1 || salt != c.core.salt)
    ensures Receive(c, EncodeFrame(key, salt, t, flags, epoch, seqNo, text).value)
            == (c.(core := c.core.(s2c := Ratchet(c.core.s2c).0)), Failed(Decrypt))
  {
    HeaderRoundTrip(NewHeader(t, flags, epoch, seqNo));
    HeaderSlices(NewHeader(t, flags, epoch, seqNo), WriteHeader(NewHeader(t, flags, epoch, seqNo)));
    hide WriteHeader, ReadHeader, BigEndian, FrameTypeByte;
  }

  /** What the application sees as a token is always UTF-8, whatever arrives. */
  lemma TokensAreText(c: Client, x: Inbound)
    ensures Read(c, x).1.Token? ==> Utf8(Read(c, x).1.text)
  {
    hide DecodeFrame, Utf8, Check, DecodeControl, KeyUpdated;
  }

  // ---------------------------------------------------------------- both ends

  /** The TEE and the client hold the same root, chains, salt and epoch. */
  predicate InStep(st: TeeState, c: Core) {
    st.root == c.root && st.s2c == c.s2c && st.c2s == c.c2s && st.salt == c.salt && st.epoch == c.epoch
  }

  /** They start in step, and a key update brings them in step again, with both counters at zero, wherever their chains
      were. */
  lemma EndsRotateAlike(st: TeeState, c: Core, root: Term, sk: Point, newPk: Point)
    requires st.root == c.root && st.epoch == c.epoch
    ensures InStep(Started(root), Connected(root, sk).core)
    ensures InStep(Rotated(st, newPk, c.sk), KeyUpdated(c, newPk))
    ensures Rotated(st, newPk, c.sk).s2cSeq == KeyUpdated(c, newPk).c2sSeq == 0 && KeyUpdated(c, newPk).replay == EMPTY
  {
    DhStepAgrees(c.root, newPk, c.sk);
  }
}
