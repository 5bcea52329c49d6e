/** The client's own frames: every sequence of sends and key updates of a session, and what the TEE makes of them. */
module Prompts {
  import opened Bytes
  import opened Keys
  import opened Wire
  import opened Replay
  import opened RecordSend
  import opened RecordReceive

  /** A call of `send`, or a key update that was absorbed. */
  datatype Act = Say(said: Attempt) | Rekey(newPk: Point)

  predicate FitsRecord(text: Text) {
    |text| <= MAX_PLAINTEXT_PER_RECORD
  }

  /** The send fits a record and its frame was written. */
  predicate Counts(a: Attempt) {
    FitsRecord(a.text) && a.written
  }

  /** The epoch, how many sends of it were made, and how many of those count. */
  datatype Standing = Standing(n: nat, said: nat, counted: nat)

  /** Before act `k`. */
  function StandingAt(acts: seq<Act>, k: nat): Standing
    requires k <= |acts|
  {
    if k == 0 then Standing(0, 0, 0)
    else
      var s := StandingAt(acts, k - 1);
      match acts[k - 1]
      case Say(a) => Standing(s.n, s.said + 1, s.counted + (if Counts(a) then 1 else 0))
      case Rekey(_) => Standing(s.n + 1, 0, 0)
  }

  function CoreAt(c: Core, acts: seq<Act>, k: nat): Core
    requires k <= |acts|
  {
    if k == 0 then c
    else
      var d := CoreAt(c, acts, k - 1);
      match acts[k - 1]
      case Say(a) => Prompt(d, a).0
      case Rekey(pk) => KeyUpdated(d, pk)
  }

  /** The frame that send `k` seals. */
  function FrameOf(c: Core, acts: seq<Act>, k: nat): Result<Packet>
    requires k < |acts| && acts[k].Say?
  {
    Prompt(CoreAt(c, acts, k), acts[k].said).1
  }

  /** The updates are those of the key schedule. */
  predicate Follows(ks: KeySchedule, acts: seq<Act>) {
    forall k :: 0 <= k < |acts| && acts[k].Rekey? ==> acts[k].newPk == ks.newPk(StandingAt(acts, k).n)
  }

  function Numbered(counted: nat): nat {
    if counted < U64_MAX then counted else U64_MAX
  }

  /** The client's sending side before act `k`: one key drawn per send of the epoch, one number per send that counts. */
  predicate Sends(ks: KeySchedule, c: Core, s: Standing) {
    && c.root == RootAt(ks, s.n) && c.sk == ks.clientPk && c.epoch == EpochAt(s.n)
    && c.salt == DeriveInitialKeys(c.root).salt
    && c.c2s == SessionChain(ks, s.n, C2S, s.said)
    && c.c2sSeq == Numbered(s.counted)
  }

  function Fresh(ks: KeySchedule): Core {
    Connected(ks.root, ks.clientPk).core
  }

  lemma SayKeepsSends(ks: KeySchedule, c: Core, s: Standing, a: Attempt)
    requires Sends(ks, c, s)
    ensures Sends(ks, Prompt(c, a).0, Standing(s.n, s.said + 1, s.counted + (if Counts(a) then 1 else 0)))
  {
    hide RootAt, WriteHeader, NewHeader, RecordInfo;
  }

  lemma RekeyKeepsSends(ks: KeySchedule, c: Core, s: Standing)
    requires Sends(ks, c, s)
    ensures Sends(ks, KeyUpdated(c, ks.newPk(s.n)), Standing(s.n + 1, 0, 0))
  {
    var newPk := ks.newPk(s.n);
    DhStepAgrees(c.root, newPk, ks.clientPk);
    UpdateRoot(ks, s.n, c.root);
    hide RootAt, DhStep, RecordInfo, EpochAt;
    NextEpochAt(s.n);
    var root := RootAt(ks, s.n + 1);
    assert SessionChain(ks, s.n + 1, C2S, 0) == DeriveInitialKeys(root).c2s;
  }

  lemma UpdateRoot(ks: KeySchedule, n: nat, root: Term)
    requires root == RootAt(ks, n)
    ensures DhStep(root, ks.newPk(n), ks.clientPk) == (RootAt(ks, n + 1), DeriveInitialKeys(RootAt(ks, n + 1)))
  {
  }

  lemma NextEpochAt(n: nat)
    ensures EpochAt(n + 1) == NextEpoch(EpochAt(n))
  {
  }

  lemma {:induction false} ActsKeepSends(ks: KeySchedule, acts: seq<Act>, k: nat)
    requires Follows(ks, acts) && k <= |acts|
    ensures Sends(ks, CoreAt(Fresh(ks), acts, k), StandingAt(acts, k))
    decreases k
  {
    hide Sends, KeyUpdated, Prompt, Fresh, StandingAt, CoreAt;
    ActSteps(Fresh(ks), acts, k);
    if k == 0 {
      FreshSends(ks);
    } else {
      ActsKeepSends(ks, acts, k - 1);
      var c, s := CoreAt(Fresh(ks), acts, k - 1), StandingAt(acts, k - 1);
      match acts[k - 1]
      case Say(a) => SayKeepsSends(ks, c, s, a);
      case Rekey(pk) => RekeyKeepsSends(ks, c, s);
    }
  }

  lemma FreshSends(ks: KeySchedule)
    ensures Sends(ks, Fresh(ks), Standing(0, 0, 0))
  {
  }

  lemma ActSteps(c: Core, acts: seq<Act>, k: nat)
    requires k <= |acts|
    ensures k == 0 ==> StandingAt(acts, k) == Standing(0, 0, 0) && CoreAt(c, acts, k) == c
    ensures k > 0 ==>
              var s, d := StandingAt(acts, k - 1), CoreAt(c, acts, k - 1);
              match acts[k - 1]
              case Say(a) =>
                && StandingAt(acts, k) == Standing(s.n, s.said + 1, s.counted + (if Counts(a) then 1 else 0))
                && CoreAt(c, acts, k) == Prompt(d, a).0
              case Rekey(pk) => StandingAt(acts, k) == Standing(s.n + 1, 0, 0) && CoreAt(c, acts, k) == KeyUpdated(d, pk)
  {
    hide Prompt, KeyUpdated;
  }

  /** Send `k` is refused exactly when it is too long; otherwise its frame is sealed under the key of its place among
      the sends of the epoch, and carries the number of earlier ones that fit and were written. */
  lemma SaidFrame(ks: KeySchedule, acts: seq<Act>, k: nat)
    requires Follows(ks, acts) && k < |acts| && acts[k].Say?
    ensures var s := StandingAt(acts, k); var text := acts[k].said.text;
            FrameOf(Fresh(ks), acts, k)
            == EncodeFrame(RecordKey(RootAt(ks, s.n), C2S, s.said), DeriveInitialKeys(RootAt(ks, s.n)).salt, Data, 0,
                           EpochAt(s.n), Numbered(s.counted), text)
  {
    ActsKeepSends(ks, acts, k);
    hide RootAt, WriteHeader, NewHeader, RecordInfo, StandingAt, CoreAt, EncodeFrame, ChainAt;
  }

  // ---------------------------------------------------------------- keys

  lemma {:induction false} StandingsIncrease(acts: seq<Act>, j: nat, k: nat)
    requires j < k <= |acts| && acts[j].Say?
    ensures var a, b := StandingAt(acts, j), StandingAt(acts, k); a.n < b.n || (a.n == b.n && a.said < b.said)
    decreases k
  {
    if j < k - 1 {
      StandingsIncrease(acts, j, k - 1);
    }
  }

  /** Over every sequence of sends and updates: no key seals two of the client's frames, and none is a key of the
      other direction. */
  lemma NoKeySealsTwoPrompts(ks: KeySchedule, acts: seq<Act>, j: nat, k: nat, n: nat, i: nat)
    requires HandshakeRoot(ks.root) && Follows(ks, acts) && j < k < |acts| && acts[j].Say? && acts[k].Say?
    requires FitsRecord(acts[j].said.text) && FitsRecord(acts[k].said.text)
    ensures var f, g := FrameOf(Fresh(ks), acts, j), FrameOf(Fresh(ks), acts, k);
            && f.Ok? && g.Ok? && f.value.body.Sealed? && g.value.body.Sealed?
            && f.value.body.key != g.value.body.key && f.value.body.key != RecordKey(RootAt(ks, n), S2C, i)
  {
    SaidFrame(ks, acts, j);
    SaidFrame(ks, acts, k);
    StandingsIncrease(acts, j, k);
    var a, b := StandingAt(acts, j), StandingAt(acts, k);
    hide RootAt, RecordKey, StandingAt, FrameOf, WriteHeader, NewHeader;
    if RecordKey(RootAt(ks, a.n), C2S, a.said) == RecordKey(RootAt(ks, b.n), C2S, b.said) {
      RecordKeysDistinct(ks, a.n, C2S, a.said, ks, b.n, C2S, b.said);
    }
    if RecordKey(RootAt(ks, a.n), C2S, a.said) == RecordKey(RootAt(ks, n), S2C, i) {
      RecordKeysDistinct(ks, a.n, C2S, a.said, ks, n, S2C, i);
    }
  }

  // ---------------------------------------------------------------- numbers

  /** Every earlier send of the epoch of act `k` fit a record and was written. */
  ghost predicate NoneLost(acts: seq<Act>, k: nat)
    requires k <= |acts|
  {
    forall j :: 0 <= j < k && StandingAt(acts, j).n == StandingAt(acts, k).n && acts[j].Say? ==> Counts(acts[j].said)
  }

  lemma {:induction false} EpochsGrow(acts: seq<Act>, j: nat, k: nat)
    requires j <= k <= |acts|
    ensures StandingAt(acts, j).n <= StandingAt(acts, k).n
    decreases k
  {
    if j < k {
      EpochsGrow(acts, j, k - 1);
    }
  }

  lemma {:induction false} CountedIff(c: Core, acts: seq<Act>, k: nat)
    requires k <= |acts|
    ensures StandingAt(acts, k).counted <= StandingAt(acts, k).said
    ensures StandingAt(acts, k).counted == StandingAt(acts, k).said <==> NoneLost(acts, k)
    decreases k
  {
    hide StandingAt, NoneLost, CoreAt, Prompt, KeyUpdated;
    ActSteps(c, acts, k);
    if k == 0 {
      NoneBeforeFirst(acts);
    } else {
      CountedIff(c, acts, k - 1);
      if acts[k - 1].Rekey? {
        RekeyClears(acts, k);
      } else {
        SayExtends(acts, k);
      }
    }
  }

  lemma NoneBeforeFirst(acts: seq<Act>)
    ensures NoneLost(acts, 0)
  {
  }

  lemma RekeyClears(acts: seq<Act>, k: nat)
    requires 0 < k <= |acts| && acts[k - 1].Rekey?
    ensures NoneLost(acts, k)
  {
    assert StandingAt(acts, k).n == StandingAt(acts, k - 1).n + 1;
    hide StandingAt;
    forall j | 0 <= j < k ensures StandingAt(acts, j).n != StandingAt(acts, k).n {
      EpochsGrow(acts, j, k - 1);
    }
  }

  lemma SayExtends(acts: seq<Act>, k: nat)
    requires 0 < k <= |acts| && acts[k - 1].Say?
    ensures NoneLost(acts, k) <==> NoneLost(acts, k - 1) && Counts(acts[k - 1].said)
  {
    var s, s' := StandingAt(acts, k - 1), StandingAt(acts, k);
    assert s.n == s'.n;
    hide StandingAt;
    if NoneLost(acts, k) {
      forall j | 0 <= j < k - 1 && StandingAt(acts, j).n == s.n && acts[j].Say? ensures Counts(acts[j].said) {
      }
    }
  }

  /** The number of a frame is the index of its key exactly when every earlier prompt of the epoch fit a record and was
      written (and the 64-bit counter has not run out). */
  lemma NumberIsKeyIndexIff(ks: KeySchedule, acts: seq<Act>, k: nat)
    requires Follows(ks, acts) && k < |acts| && acts[k].Say? && FitsRecord(acts[k].said.text)
    ensures var s := StandingAt(acts, k); var f := FrameOf(Fresh(ks), acts, k);
            && f.Ok? && f.value.body.Sealed? && f.value.body.key == RecordKey(RootAt(ks, s.n), C2S, s.said)
            && (f.value.body.nonce.seqNo == s.said <==> NoneLost(acts, k) && s.said <= U64_MAX)
  {
    SaidFrame(ks, acts, k);
    CountedIff(Fresh(ks), acts, k);
    hide RootAt, RecordKey, StandingAt, FrameOf, WriteHeader, NewHeader, NoneLost;
  }

  // ---------------------------------------------------------------- the TEE's side

  /** The TEE reads one prompt: the first key of the handshake root, a DATA frame, number 0, UTF-8. */
  function TeeReads(root: Term, p: Packet): Result<Text> {
    var keys := DeriveInitialKeys(root);
    match DecodeFrame(Ratchet(keys.c2s).1, keys.salt, p)
    case Err(e) => Err(e)
    case Ok((h, text)) =>
      if h.frameType != Data then Err(UnexpectedFrameType)
      else if h.seqNo != 0 then Err(OutOfOrder)
      else if !Utf8(text) then Err(NotUtf8)
      else Ok(text)
  }

  /** What the TEE makes of a frame under its first client key, told from what was sealed: it takes DATA frames with
      number 0 and UTF-8 in them, and names what is wrong with every other. */
  lemma TeeOutcome(root: Term, t: FrameType, flags: nat, epoch: nat, seqNo: nat, text: Text)
    requires flags < DEFINED_FLAGS && epoch < U32 && seqNo < U64 && FitsRecord(text)
    ensures var keys := DeriveInitialKeys(root);
            TeeReads(root, EncodeFrame(RecordKey(root, C2S, 0), keys.salt, t, flags, epoch, seqNo, text).value)
            == if t != Data then Err(UnexpectedFrameType)
               else if seqNo != 0 then Err(OutOfOrder)
               else if Utf8(text) then Ok(text) else Err(NotUtf8)
  {
    assert RecordKey(root, C2S, 0) == Ratchet(DeriveInitialKeys(root).c2s).1;
    FrameRoundTrip(RecordKey(root, C2S, 0), DeriveInitialKeys(root).salt, t, flags, epoch, seqNo, text);
    hide RecordKey, EncodeFrame, DecodeFrame, ExpectedNonceField, Utf8;
  }

  /** The TEE takes the frame of a send exactly when it is the first send of the session; after one prompt that was
      too long or lost, no later prompt reaches it. */
  lemma TeeTakesFirstOnly(ks: KeySchedule, acts: seq<Act>, k: nat)
    requires HandshakeRoot(ks.root) && Follows(ks, acts) && k < |acts| && acts[k].Say?
    requires FitsRecord(acts[k].said.text) && Utf8(acts[k].said.text)
    ensures var s := StandingAt(acts, k); var f := FrameOf(Fresh(ks), acts, k);
            && f.Ok?
            && TeeReads(ks.root, f.value) == if s.n == 0 && s.said == 0 then Ok(acts[k].said.text) else Err(Decrypt)
  {
    var s := StandingAt(acts, k);
    SaidFrame(ks, acts, k);
    CountedIff(Fresh(ks), acts, k);
    hide StandingAt, FrameOf, CoreAt, NoneLost;
    var f := FrameOf(Fresh(ks), acts, k).value;
    var key, salt := RecordKey(RootAt(ks, s.n), C2S, s.said), DeriveInitialKeys(RootAt(ks, s.n)).salt;
    assert RecordKey(RootAt(ks, 0), C2S, 0) == Ratchet(DeriveInitialKeys(ks.root).c2s).1;
    if s.n == 0 && s.said == 0 {
      FrameRoundTrip(key, salt, Data, 0, EpochAt(0), 0, acts[k].said.text);
    } else {
      if key == RecordKey(RootAt(ks, 0), C2S, 0) {
        RecordKeysDistinct(ks, s.n, C2S, s.said, ks, 0, C2S, 0);
      }
      OtherKeyRefused(key, salt, EpochAt(s.n), Numbered(s.counted), acts[k].said.text, Ratchet(DeriveInitialKeys(ks.root).c2s).1,
                      DeriveInitialKeys(ks.root).salt);
    }
  }

  lemma OtherKeyRefused(key: Term, salt: Term, epoch: nat, seqNo: nat, text: Text, key': Term, salt': Term)
    requires key != key' && FitsRecord(text) && epoch < U32 && seqNo < U64
    ensures DecodeFrame(key', salt', EncodeFrame(key, salt, Data, 0, epoch, seqNo, text).value) == Err(Decrypt)
  {
    HeaderRoundTrip(NewHeader(Data, 0, epoch, seqNo));
    hide ReadHeader, WriteHeader;
  }

  /** Two sends of a new session of which the first does not count: the second frame is sealed under key 1 and numbered
      0, and the TEE, if it is still waiting for its first prompt, refuses it. */
  lemma SpentKeyStrands(ks: KeySchedule, first: Attempt, second: Attempt)
    requires HandshakeRoot(ks.root) && !Counts(first) && FitsRecord(second.text) && Utf8(second.text)
    ensures var acts := [Say(first), Say(second)];
            var f := FrameOf(Fresh(ks), acts, 1);
            && f.Ok? && f.value.body.Sealed? && f.value.body.key == RecordKey(ks.root, C2S, 1)
            && f.value.body.nonce.seqNo == 0 && TeeReads(ks.root, f.value) == Err(Decrypt)
  {
    var acts := [Say(first), Say(second)];
    assert StandingAt(acts, 0) == Standing(0, 0, 0);
    assert StandingAt(acts, 1) == Standing(0, 1, 0);
    assert RootAt(ks, 0) == ks.root;
    hide StandingAt, RootAt, RecordKey, FrameOf, TeeReads, WriteHeader, NewHeader;
    SaidFrame(ks, acts, 1);
    TeeTakesFirstOnly(ks, acts, 1);
  }

  /** A prompt one byte too long, then a short one. */
  lemma LongPromptStrands(ks: KeySchedule, long: Text, short: Text)
    requires HandshakeRoot(ks.root) && |long| == MAX_PLAINTEXT_PER_RECORD + 1 && FitsRecord(short) && Utf8(short)
    ensures var acts := [Say(Attempt(long, true)), Say(Attempt(short, true))];
            var f := FrameOf(Fresh(ks), acts, 1);
            && FrameOf(Fresh(ks), acts, 0) == Err(LongFrame(|long|))
            && f.Ok? && f.value.body.Sealed? && f.value.body.key == RecordKey(ks.root, C2S, 1)
            && f.value.body.nonce.seqNo == 0 && TeeReads(ks.root, f.value) == Err(Decrypt)
  {
    var acts := [Say(Attempt(long, true)), Say(Attempt(short, true))];
    SaidFrame(ks, acts, 0);
    hide RootAt, RecordKey, FrameOf, TeeReads, WriteHeader, NewHeader;
    SpentKeyStrands(ks, Attempt(long, true), Attempt(short, true));
  }

  /** A short prompt whose frame the socket does not take, or whose call is dropped before it does, then another. */
  lemma LostSendStrands(ks: KeySchedule, lost: Text, short: Text)
    requires HandshakeRoot(ks.root) && FitsRecord(lost) && FitsRecord(short) && Utf8(short)
    ensures var acts := [Say(Attempt(lost, false)), Say(Attempt(short, true))];
            var f := FrameOf(Fresh(ks), acts, 1);
            && FrameOf(Fresh(ks), acts, 0).Ok?
            && f.Ok? && f.value.body.Sealed? && f.value.body.key == RecordKey(ks.root, C2S, 1)
            && f.value.body.nonce.seqNo == 0 && TeeReads(ks.root, f.value) == Err(Decrypt)
  {
    var acts := [Say(Attempt(lost, false)), Say(Attempt(short, true))];
    SaidFrame(ks, acts, 0);
    hide RootAt, RecordKey, FrameOf, TeeReads, WriteHeader, NewHeader;
    SpentKeyStrands(ks, Attempt(lost, false), Attempt(short, true));
  }
}
