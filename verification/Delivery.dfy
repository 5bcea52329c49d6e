/** What the two sides of a turn guarantee together, against a network that controls every frame. */
module Delivery {
  import opened Bytes
  import opened Keys
  import opened Wire
  import opened Replay
  import opened RecordSend
  import opened RecordReceive

  // ---------------------------------------------------------------- the network

  /** A key of some session under another handshake root, in either direction. */
  ghost predicate ForeignKey(root: Term, key: Term) {
    exists ls: KeySchedule, m, d, j ::
      HandshakeRoot(ls.root) && ls.root != root && key == RecordKey(RootAt(ls, m), d, j)
  }

  /** A client-to-server key of any session. */
  ghost predicate ClientKey(key: Term) {
    exists ls: KeySchedule, m, j :: HandshakeRoot(ls.root) && key == RecordKey(RootAt(ls, m), C2S, j)
  }

  /** What the network can hand to the holder of a root besides the TEE's frames under it: noise, boxes it sealed
      itself, boxes of other sessions and boxes of any client, with whatever header. */
  ghost predicate Stray(root: Term, adv: Adversary, p: Packet) {
    || p.body.Noise?
    || Derivable(p.body.key, adv)
    || ClientKey(p.body.key)
    || ForeignKey(root, p.body.key)
  }

  /** And the boxes the TEE sealed in the turn. */
  ghost predicate Deliverable(t: Turn, adv: Adversary, p: Packet) {
    || Stray(t.ks.root, adv, p)
    || (exists k :: 0 <= k < |Sent(t)| && Sent(t)[k].body == p.body)
  }

  ghost predicate Networked(t: Turn, adv: Adversary, inbox: seq<Inbound>) {
    forall k :: 0 <= k < |inbox| && inbox[k].Arrives? ==> Deliverable(t, adv, inbox[k].packet)
  }

  /** A turn under a handshake root the network cannot compute. */
  ghost predicate Secure(t: Turn, adv: Adversary) {
    ValidTurn(t) && !Derivable(t.ks.root, adv)
  }

  // ---------------------------------------------------------------- where the client stands

  /** The client draws key `i` of epoch `n` next, and holds the root, chains, salt and epoch of that epoch. */
  predicate At(t: Turn, c: Client, n: nat, i: nat) {
    && !c.ended
    && HoldsEpoch(t, c.core, n)
    && c.core.s2c == ChainAt(DeriveInitialKeys(c.core.root).s2c, i)
    && ReplayBelow(c.core.replay, i)
    && (t.every == 0 ==> n == 0)
  }

  predicate HoldsEpoch(t: Turn, c: Core, n: nat) {
    && c.root == RootAt(t.ks, n)
    && c.salt == DeriveInitialKeys(c.root).salt
    && c.epoch == EpochAt(n)
    && c.sk == t.ks.clientPk
  }

  /** Only numbers below `i` have been accepted in this epoch. */
  predicate ReplayBelow(w: Window, i: nat) {
    if i == 0 then w == EMPTY else w.high < i
  }

  lemma ReplayAcceptsNext(w: Window, i: nat)
    requires ReplayBelow(w, i) && i <= U64_MAX / 2
    ensures Check(w, i).1.Accepted? && ReplayBelow(Check(w, i).0, i + 1)
  {
  }

  /** No stray packet is sealed under a key of the hidden root's own server direction. */
  lemma StrayKeyDiffers(ks: KeySchedule, adv: Adversary, n: nat, i: nat, p: Packet)
    requires HandshakeRoot(ks.root) && !Derivable(ks.root, adv) && Stray(ks.root, adv, p)
    ensures p.body.Sealed? ==> p.body.key != RecordKey(RootAt(ks, n), S2C, i)
  {
    hide RootAt, RecordKey, Derivable;
    var key := RecordKey(RootAt(ks, n), S2C, i);
    RecordKeysHidden(ks, n, S2C, i, adv);
    if ForeignKey(ks.root, key) {
      var ls: KeySchedule, m, e, j :| HandshakeRoot(ls.root) && ls.root != ks.root && key == RecordKey(RootAt(ls, m), e, j);
      RecordKeysDistinct(ks, n, S2C, i, ls, m, e, j);
    }
    if ClientKey(key) {
      var ls: KeySchedule, m, j :| HandshakeRoot(ls.root) && key == RecordKey(RootAt(ls, m), C2S, j);
      RecordKeysDistinct(ks, n, S2C, i, ls, m, C2S, j);
    }
  }

  /** A frame that opens is the scheduled one, untouched. */
  lemma OpenedIsScheduled(t: Turn, adv: Adversary, c: Client, n: nat, i: nat, p: Packet)
    requires Secure(t, adv) && At(t, c, n, i) && Deliverable(t, adv, p)
    requires DecodeFrame(Ratchet(c.core.s2c).1, c.core.salt, p).Ok?
    ensures !ItemAt(t, n, i).Nothing? && p == FrameAt(t, n, i)
  {
    hide WriteHeader, NewHeader, ItemAt, Payload, RootAt, ReadHeader, ReplayBelow, Derivable;
    var key := RecordKey(RootAt(t.ks, n), S2C, i);
    assert p.body.Sealed? && p.body.key == key;
    if Stray(t.ks.root, adv, p) {
      StrayKeyDiffers(t.ks, adv, n, i, p);
    }
    var k :| 0 <= k < |Sent(t)| && Sent(t)[k].body == p.body;
    var q := SentFrameAtPlace(t, k);
    RecordKeysDistinct(t.ks, n, S2C, i, t.ks, q.n, S2C, q.i);
    UnalteredAt(t, c.core.salt, n, i, p);
  }

  lemma UnalteredAt(t: Turn, salt: Term, n: nat, i: nat, p: Packet)
    requires ValidTurn(t) && !ItemAt(t, n, i).Nothing?
    requires p.body == FrameAt(t, n, i).body
    requires DecodeFrame(RecordKey(RootAt(t.ks, n), S2C, i), salt, p).Ok?
    ensures p == FrameAt(t, n, i)
  {
    hide WriteHeader, NewHeader, RootAt, ReadHeader, DecodeFrame;
    PlaceEncodes(t, n, i);
    var item := ItemAt(t, n, i);
    OpenedFrameIsUnaltered(RecordKey(RootAt(t.ks, n), S2C, i), salt, p, DeriveInitialKeys(RootAt(t.ks, n)).salt,
                           ItemType(item), ItemFlags(item), EpochAt(n), i, Payload(t, n, item));
  }

  lemma ScheduledOpens(t: Turn, n: nat, i: nat)
    requires ValidTurn(t) && !ItemAt(t, n, i).Nothing?
    ensures var item := ItemAt(t, n, i); var root := RootAt(t.ks, n);
            DecodeFrame(RecordKey(root, S2C, i), DeriveInitialKeys(root).salt, FrameAt(t, n, i))
            == Ok((NewHeader(ItemType(item), ItemFlags(item), EpochAt(n), i), Payload(t, n, item)))
  {
    hide WriteHeader, NewHeader, RootAt, ReadHeader, DecodeFrame;
    PlaceEncodes(t, n, i);
    var item := ItemAt(t, n, i);
    FrameRoundTrip(RecordKey(RootAt(t.ks, n), S2C, i), DeriveInitialKeys(RootAt(t.ks, n)).salt,
                   ItemType(item), ItemFlags(item), EpochAt(n), i, Payload(t, n, item));
  }

  /** The client with the next key drawn and the number `i` recorded. */
  function Opened(c: Client, i: nat): Client {
    c.(core := c.core.(s2c := Ratchet(c.core.s2c).0, replay := Check(c.core.replay, i).0))
  }

  /** The epoch check and the replay window let every scheduled frame through. */
  lemma ScheduledReachesDispatch(t: Turn, c: Client, n: nat, i: nat)
    requires ValidTurn(t) && At(t, c, n, i) && !ItemAt(t, n, i).Nothing?
    ensures var item := ItemAt(t, n, i);
            Receive(c, FrameAt(t, n, i))
            == Dispatch(Opened(c, i), NewHeader(ItemType(item), ItemFlags(item), EpochAt(n), i), Payload(t, n, item))
    ensures At(t, Opened(c, i), n, i + 1)
  {
    hide FrameAt, WriteHeader, RootAt, ReadHeader, DecodeFrame, Dispatch, Check, ExpectedNonceField;
    PlaceEncodes(t, n, i);
    ScheduledOpens(t, n, i);
    ReplayAcceptsNext(c.core.replay, i);
  }

  /** After the key update of epoch `n` the client holds exactly the keys under which the TEE seals epoch `n + 1`. */
  lemma UpdateEntersEpoch(t: Turn, c: Client, n: nat, i: nat)
    requires At(t, c, n, i) && t.every > 0
    ensures var core' := KeyUpdated(c.core, t.ks.newPk(n));
            && At(t, c.(core := core'), n + 1, 0)
            && core'.c2s == DeriveInitialKeys(RootAt(t.ks, n + 1)).c2s && core'.c2sSeq == 0
  {
    var newPk := t.ks.newPk(n);
    DhStepAgrees(c.core.root, newPk, t.ks.clientPk);
    var root := RootAt(t.ks, n + 1);
    assert root == DhStep(c.core.root, newPk, t.ks.clientPk).0;
    assert ChainAt(DeriveInitialKeys(root).s2c, 0) == DeriveInitialKeys(root).s2c;
  }

  /** What each scheduled frame does to a client that stands at its place. */
  lemma ScheduledOutcome(t: Turn, c: Client, n: nat, i: nat)
    requires ValidTurn(t) && At(t, c, n, i) && !ItemAt(t, n, i).Nothing?
    ensures var r := Receive(c, FrameAt(t, n, i));
            match ItemAt(t, n, i)
            case Chunk(k) => k < |t.chunks| && r.1 == Token(t.chunks[k]) && At(t, r.0, n, i + 1)
            case Update => r.1 == Absorbed && At(t, r.0, n + 1, 0)
            case EndOfTurn => r.1 == Finished && r.0.ended
            case Nothing => false
  {
    hide FrameAt, Receive, RootAt, KeyUpdated, At, DecodeControl, EncodeControl, Utf8, ExpectedNonceField;
    ScheduledReachesDispatch(t, c, n, i);
    if ItemAt(t, n, i).Update? {
      ControlRoundTrip(KeyUpdate(t.ks.newPk(n)));
      UpdateEntersEpoch(t, Opened(c, i), n, i + 1);
    }
  }

  /** Whatever arrives: a failed read moves the client one key on, or not at all when the transport broke;
      anything else is the scheduled frame of its place. */
  lemma ReadOutcome(t: Turn, adv: Adversary, c: Client, n: nat, i: nat, x: Inbound)
    requires Secure(t, adv) && At(t, c, n, i) && (x.Arrives? ==> Deliverable(t, adv, x.packet))
    ensures var r := Read(c, x);
            if r.1.Failed? then At(t, r.0, n, i) || At(t, r.0, n, i + 1)
            else !ItemAt(t, n, i).Nothing? && x == Arrives(FrameAt(t, n, i))
  {
    hide FrameAt, RootAt, Dispatch, DecodeFrame, ItemAt, Check;
    if x.Arrives? {
      if DecodeFrame(Ratchet(c.core.s2c).1, c.core.salt, x.packet).Ok? {
        OpenedIsScheduled(t, adv, c, n, i, x.packet);
        ScheduledOutcome(t, c, n, i);
      } else {
        FailedDraw(t, c, n, i);
      }
    }
  }

  lemma FailedDraw(t: Turn, c: Client, n: nat, i: nat)
    requires At(t, c, n, i)
    ensures At(t, c.(core := c.core.(s2c := Ratchet(c.core.s2c).0)), n, i + 1)
  {
    hide RootAt;
  }

  // ---------------------------------------------------------------- calls of next_token

  lemma PosSteps(t: Turn, n: nat, i: nat)
    ensures Pos(t, n, i) <= Pos(t, n, i + 1)
    ensures ItemAt(t, n, i).Chunk? ==> ItemAt(t, n, i).c == Pos(t, n, i) && Pos(t, n, i + 1) == Pos(t, n, i) + 1
    ensures ItemAt(t, n, i).Update? ==> Pos(t, n + 1, 0) == Pos(t, n, i)
    ensures ItemAt(t, n, i).EndOfTurn? ==> Pos(t, n, i) == |t.chunks|
  {
    assert (n + 1) * t.every == n * t.every + t.every;
  }

  /** A call with `pos` chunks already behind it came to `o` and left the client at place `i` of epoch `n`. */
  predicate Ends(t: Turn, pos: nat, o: Outcome, c: Client, n: nat, i: nat) {
    match o
    case Token(text) => At(t, c, n, i) && Pos(t, n, i) == pos + 1 && pos < |t.chunks| && text == t.chunks[pos]
    case Finished => c.ended && pos == |t.chunks|
    case Failed(_) => At(t, c, n, i) && Pos(t, n, i) >= pos
    case Absorbed => false
  }

  /** One round that returns. */
  lemma RoundEnds(t: Turn, adv: Adversary, c: Client, n: nat, i: nat, x: Inbound) returns (i': nat)
    requires Secure(t, adv) && At(t, c, n, i) && (x.Arrives? ==> Deliverable(t, adv, x.packet))
    ensures var r := Read(c, x);
            if r.1.Absorbed? then At(t, r.0, n + 1, 0) && Pos(t, n + 1, 0) == Pos(t, n, i)
            else Ends(t, Pos(t, n, i), r.1, r.0, n, i')
  {
    hide FrameAt, Receive, ItemAt, Pos, Deliverable, At, ValidTurn, Derivable;
    var r := Read(c, x);
    ReadOutcome(t, adv, c, n, i, x);
    PosSteps(t, n, i);
    if r.1.Failed? {
      i' := if At(t, r.0, n, i) then i else i + 1;
    } else {
      i' := i + 1;
      ScheduledOutcome(t, c, n, i);
    }
  }

  /** What one call of `next_token` returns, and where it leaves the client. */
  lemma {:induction false} CallEnds(t: Turn, adv: Adversary, c: Client, n: nat, i: nat, inbox: seq<Inbound>)
    returns (n': nat, i': nat)
    requires Secure(t, adv) && At(t, c, n, i) && Networked(t, adv, inbox)
    ensures var r := NextToken(c, inbox);
            Networked(t, adv, r.1) && Ends(t, Pos(t, n, i), r.2, r.0, n', i')
    decreases |inbox|
  {
    hide Read, Pos, Secure, Deliverable;
    n', i' := n, i;
    if inbox != [] {
      var r := Read(c, inbox[0]);
      i' := RoundEnds(t, adv, c, n, i, inbox[0]);
      if r.1.Absorbed? {
        n', i' := CallEnds(t, adv, r.0, n + 1, 0, inbox[1..]);
      }
    }
  }

  /** The results of `k` calls of `next_token`. */
  function Calls(c: Client, inbox: seq<Inbound>, k: nat): seq<Outcome>
    decreases k
  {
    if k == 0 then []
    else
      var r := NextToken(c, inbox);
      [r.2] + Calls(r.0, r.1, k - 1)
  }

  function Texts(os: seq<Outcome>): seq<Text> {
    if os == [] then []
    else (if os[0].Token? then [os[0].text] else []) + Texts(os[1..])
  }

  predicate NoErrors(os: seq<Outcome>) {
    forall k :: 0 <= k < |os| ==> !os[k].Failed?
  }

  lemma {:induction false} NothingAfterTheEnd(c: Client, inbox: seq<Inbound>, k: nat)
    requires c.ended
    ensures Texts(Calls(c, inbox, k)) == []
  {
    if k > 0 {
      NothingAfterTheEnd(c, inbox, k - 1);
    }
  }

  lemma {:induction false} CleanCalls(t: Turn, adv: Adversary, c: Client, n: nat, i: nat, inbox: seq<Inbound>, k: nat)
    requires Secure(t, adv) && At(t, c, n, i) && Networked(t, adv, inbox) && Pos(t, n, i) <= |t.chunks|
    requires NoErrors(Calls(c, inbox, k))
    ensures Texts(Calls(c, inbox, k)) <= t.chunks[Pos(t, n, i)..]
    ensures Finished in Calls(c, inbox, k) ==> Texts(Calls(c, inbox, k)) == t.chunks[Pos(t, n, i)..]
    decreases k
  {
    hide At, Pos, NextToken, Secure, Networked;
    if k > 0 {
      var r := NextToken(c, inbox);
      var n', i' := CallEnds(t, adv, c, n, i, inbox);
      var os := Calls(c, inbox, k);
      assert os[0] == r.2 && os[1..] == Calls(r.0, r.1, k - 1);
      if r.2.Finished? {
        NothingAfterTheEnd(r.0, r.1, k - 1);
      } else {
        CleanCalls(t, adv, r.0, n', i', r.1, k - 1);
        assert t.chunks[Pos(t, n, i)..] == [t.chunks[Pos(t, n, i)]] + t.chunks[Pos(t, n', i')..];
      }
    }
  }

  /** The places in `chunks` the returned texts come from. */
  ghost predicate Increasing(idx: seq<nat>, from: nat, below: nat) {
    && (forall j :: 0 <= j < |idx| ==> from <= idx[j] < below)
    && (forall j, l :: 0 <= j < l < |idx| ==> idx[j] < idx[l])
  }

  ghost predicate Picks(texts: seq<Text>, chunks: seq<Text>, idx: seq<nat>, from: nat) {
    |idx| == |texts| && Increasing(idx, from, |chunks|) && forall j :: 0 <= j < |idx| ==> texts[j] == chunks[idx[j]]
  }

  lemma {:induction false} PickedCalls(t: Turn, adv: Adversary, c: Client, n: nat, i: nat, inbox: seq<Inbound>, k: nat)
    returns (idx: seq<nat>)
    requires Secure(t, adv) && At(t, c, n, i) && Networked(t, adv, inbox)
    ensures Picks(Texts(Calls(c, inbox, k)), t.chunks, idx, Pos(t, n, i))
    decreases k
  {
    hide At, Pos, NextToken, Secure, Networked;
    idx := [];
    if k > 0 {
      var r := NextToken(c, inbox);
      var n', i' := CallEnds(t, adv, c, n, i, inbox);
      var os := Calls(c, inbox, k);
      assert os[0] == r.2 && os[1..] == Calls(r.0, r.1, k - 1);
      if r.2.Finished? {
        NothingAfterTheEnd(r.0, r.1, k - 1);
      } else {
        idx := PickedCalls(t, adv, r.0, n', i', r.1, k - 1);
        if r.2.Token? {
          idx := [Pos(t, n, i)] + idx;
        }
      }
    }
  }

  // ---------------------------------------------------------------- the guarantees

  /** The client after some prompts, whether they were written, lost or too long. */
  function Prompted(c: Core, prompts: seq<Attempt>): Core
    decreases |prompts|
  {
    if prompts == [] then c else Prompted(Prompt(c, prompts[0]).0, prompts[1..])
  }

  /** The client right after the handshake and its prompts. */
  function Opening(t: Turn, prompts: seq<Attempt>): Client {
    Client(Prompted(Connected(t.ks.root, t.ks.clientPk).core, prompts), false)
  }

  lemma {:induction false} PromptsKeepReceiver(t: Turn, c: Core, prompts: seq<Attempt>, n: nat, i: nat)
    requires At(t, Client(c, false), n, i)
    ensures At(t, Client(Prompted(c, prompts), false), n, i)
    decreases |prompts|
  {
    if prompts != [] {
      PromptsKeepReceiver(t, Prompt(c, prompts[0]).0, prompts[1..], n, i);
    }
  }

  lemma OpeningStands(t: Turn, prompts: seq<Attempt>)
    ensures At(t, Opening(t, prompts), 0, 0)
  {
    PromptsKeepReceiver(t, Connected(t.ks.root, t.ks.clientPk).core, prompts, 0, 0);
  }

  /** Whatever the network does: the texts returned before the first error are a prefix of the engine's
      chunks, and `Ok(None)` with no earlier error means that all of them were returned. */
  lemma PrefixUntilFirstError(t: Turn, adv: Adversary, prompts: seq<Attempt>, inbox: seq<Inbound>, k: nat)
    requires Secure(t, adv) && Networked(t, adv, inbox)
    requires NoErrors(Calls(Opening(t, prompts), inbox, k))
    ensures Texts(Calls(Opening(t, prompts), inbox, k)) <= t.chunks
    ensures Finished in Calls(Opening(t, prompts), inbox, k) ==> Texts(Calls(Opening(t, prompts), inbox, k)) == t.chunks
  {
    OpeningStands(t, prompts);
    CleanCalls(t, adv, Opening(t, prompts), 0, 0, inbox, k);
    assert t.chunks[0..] == t.chunks;
  }

  /** A caller who goes on after errors still gets a subsequence of the chunks, none of them twice. */
  lemma SubsequenceAlways(t: Turn, adv: Adversary, prompts: seq<Attempt>, inbox: seq<Inbound>, k: nat) returns (idx: seq<nat>)
    requires Secure(t, adv) && Networked(t, adv, inbox)
    ensures Picks(Texts(Calls(Opening(t, prompts), inbox, k)), t.chunks, idx, 0)
  {
    OpeningStands(t, prompts);
    idx := PickedCalls(t, adv, Opening(t, prompts), 0, 0, inbox, k);
  }

  // ---------------------------------------------------------------- an honest network

  function Forwarded(frames: seq<Packet>): (inbox: seq<Inbound>)
    ensures |inbox| == |frames| && forall k :: 0 <= k < |frames| ==> inbox[k] == Arrives(frames[k])
  {
    if frames == [] then [] else [Arrives(frames[0])] + Forwarded(frames[1..])
  }

  function Tokens(chunks: seq<Text>): seq<Outcome> {
    if chunks == [] then [] else [Token(chunks[0])] + Tokens(chunks[1..])
  }

  /** A call that reads one scheduled frame of a chunk. */
  lemma ReadsChunk(t: Turn, c: Client, n: nat, i: nat, rest: seq<Inbound>)
    requires ValidTurn(t) && At(t, c, n, i) && ItemAt(t, n, i).Chunk?
    ensures var k := ItemAt(t, n, i).c; var c' := Receive(c, FrameAt(t, n, i)).0;
            && k < |t.chunks| && NextToken(c, [Arrives(FrameAt(t, n, i))] + rest) == (c', rest, Token(t.chunks[k]))
            && At(t, c', n, i + 1)
  {
    hide FrameAt, Receive, ItemAt, HoldsEpoch;
    ScheduledOutcome(t, c, n, i);
    var inbox := [Arrives(FrameAt(t, n, i))] + rest;
    assert inbox[0] == Arrives(FrameAt(t, n, i)) && inbox[1..] == rest;
  }

  /** A call absorbs a scheduled key update and goes on as if it had not been there. */
  lemma ReadsThroughUpdate(t: Turn, c: Client, n: nat, i: nat, rest: seq<Inbound>)
    requires ValidTurn(t) && At(t, c, n, i) && ItemAt(t, n, i).Update?
    ensures var c' := Receive(c, FrameAt(t, n, i)).0;
            NextToken(c, [Arrives(FrameAt(t, n, i))] + rest) == NextToken(c', rest) && At(t, c', n + 1, 0)
  {
    hide FrameAt, Receive, ItemAt, HoldsEpoch;
    ScheduledOutcome(t, c, n, i);
    var inbox := [Arrives(FrameAt(t, n, i))] + rest;
    assert inbox[0] == Arrives(FrameAt(t, n, i)) && inbox[1..] == rest;
  }

  lemma ForwardedJoin(a: seq<Packet>, b: seq<Packet>)
    ensures Forwarded(a + b) == Forwarded(a) + Forwarded(b)
  {
  }

  /** What an honest network holds from chunk `pos` on. */
  function Pending(t: Turn, pos: nat, n: nat, i: nat): seq<Inbound>
    requires pos <= |t.chunks|
  {
    Forwarded(Frames(t, Schedule(t, pos, n, i)))
  }

  lemma PendingRound(t: Turn, pos: nat, n: nat, i: nat)
    requires pos < Sendable(t.chunks)
    ensures Pending(t, pos, n, i)
            == [Arrives(FrameAt(t, n, i))]
               + if Rotates(t, i) then [Arrives(FrameAt(t, n, i + 1))] + Pending(t, pos + 1, n + 1, 0)
                 else Pending(t, pos + 1, n, i + 1)
  {
    hide FrameAt;
    ScheduledRound(t, pos, n, i);
    if Rotates(t, i) {
      ForwardedJoin([FrameAt(t, n, i), FrameAt(t, n, i + 1)], Frames(t, Schedule(t, pos + 1, n + 1, 0)));
    } else {
      ForwardedJoin([FrameAt(t, n, i)], Frames(t, Schedule(t, pos + 1, n, i + 1)));
    }
  }

  lemma FirstCall(c: Client, inbox: seq<Inbound>, k: nat)
    requires k > 0
    ensures var r := NextToken(c, inbox); Calls(c, inbox, k) == [r.2] + Calls(r.0, r.1, k - 1)
  {
    hide NextToken;
  }

  /** From chunk `pos` on, an honest network and the client go on like this from chunk `pos + 1` on. */
  lemma FaithfulRound(t: Turn, c: Client, pos: nat, n: nat, i: nat, k: nat) returns (c': Client, n': nat, i': nat)
    requires ValidTurn(t) && At(t, c, n, i) && Streaming(t, pos, n, i) && pos < Sendable(t.chunks) && k > 0
    ensures At(t, c', n', i') && Streaming(t, pos + 1, n', i')
    ensures Calls(c, Pending(t, pos, n, i), k + 1) == [Token(t.chunks[pos])] + Calls(c', Pending(t, pos + 1, n', i'), k)
  {
    hide FrameAt, Receive, NextToken, At, Pending, ItemAt, Pos, ValidTurn, Calls, Streaming;
    NextChunk(t, pos, n, i);
    PendingRound(t, pos, n, i);
    var c1 := Receive(c, FrameAt(t, n, i)).0;
    FirstCall(c, Pending(t, pos, n, i), k + 1);
    if Rotates(t, i) {
      var rest := Pending(t, pos + 1, n + 1, 0);
      var rest1 := [Arrives(FrameAt(t, n, i + 1))] + rest;
      ReadsChunk(t, c, n, i, rest1);
      ReadsThroughUpdate(t, c1, n, i + 1, rest);
      c', n', i' := Receive(c1, FrameAt(t, n, i + 1)).0, n + 1, 0;
      FirstCall(c1, rest1, k);
      FirstCall(c', rest, k);
    } else {
      ReadsChunk(t, c, n, i, Pending(t, pos + 1, n, i + 1));
      c', n', i' := c1, n, i + 1;
    }
  }

  lemma {:induction false} FaithfulFrom(t: Turn, c: Client, pos: nat, n: nat, i: nat)
    requires ValidTurn(t) && At(t, c, n, i) && Streaming(t, pos, n, i) && Sendable(t.chunks) == |t.chunks|
    ensures Calls(c, Pending(t, pos, n, i), |t.chunks| - pos + 1) == Tokens(t.chunks[pos..]) + [Finished]
    decreases |t.chunks| - pos
  {
    hide At, Pending, ValidTurn, Calls, Pos;
    if pos == |t.chunks| {
      FinalCall(t, c, n, i);
    } else {
      var c', n', i' := FaithfulRound(t, c, pos, n, i, |t.chunks| - pos);
      FaithfulFrom(t, c', pos + 1, n', i');
      assert t.chunks[pos..] == [t.chunks[pos]] + t.chunks[pos + 1..];
    }
  }

  lemma FinalCall(t: Turn, c: Client, n: nat, i: nat)
    requires ValidTurn(t) && At(t, c, n, i) && Streaming(t, |t.chunks|, n, i)
    ensures Calls(c, Pending(t, |t.chunks|, n, i), 1) == [Finished]
  {
    hide FrameAt, Receive, HoldsEpoch, ValidTurn;
    ScheduleEnds(t, |t.chunks|, n, i);
    assert ItemAt(t, n, i) == EndOfTurn;
    ScheduledOutcome(t, c, n, i);
    assert Forwarded([FrameAt(t, n, i)]) == [Arrives(FrameAt(t, n, i))];
    assert Calls(c, [Arrives(FrameAt(t, n, i))], 1) == [NextToken(c, [Arrives(FrameAt(t, n, i))]).2] + [];
  }

  /** Over a network that forwards what was sent, every chunk arrives, across any number of key updates,
      followed by the end of the turn. */
  lemma HonestNetworkDelivers(t: Turn, prompts: seq<Attempt>)
    requires ValidTurn(t) && Sendable(t.chunks) == |t.chunks|
    ensures Calls(Opening(t, prompts), Forwarded(Sent(t)), |t.chunks| + 1) == Tokens(t.chunks) + [Finished]
  {
    hide Opening, At, NextToken, Schedule, Frames;
    OpeningStands(t, prompts);
    FaithfulFrom(t, Opening(t, prompts), 0, 0, 0);
    assert t.chunks[0..] == t.chunks;
  }

  // ---------------------------------------------------------------- a root that no session has

  /** The client draws key `i` of the first epoch next. */
  predicate Alone(ks: KeySchedule, c: Client, i: nat) {
    !c.ended && c.core.s2c == SessionChain(ks, 0, S2C, i)
  }

  lemma StrayFails(ks: KeySchedule, adv: Adversary, c: Client, i: nat, p: Packet)
    requires HandshakeRoot(ks.root) && !Derivable(ks.root, adv) && Alone(ks, c, i) && Stray(ks.root, adv, p)
    ensures Receive(c, p).1.Failed? && Alone(ks, Receive(c, p).0, i + 1)
  {
    StrayKeyDiffers(ks, adv, 0, i, p);
    hide RootAt, ReadHeader, Stray, Derivable, RecordInfo, ExpectedNonceField;
    assert RecordKey(RootAt(ks, 0), S2C, i) == Ratchet(c.core.s2c).1;
    assert DecodeFrame(Ratchet(c.core.s2c).1, c.core.salt, p).Err?;
    hide DecodeFrame;
  }

  ghost predicate AllStray(root: Term, adv: Adversary, inbox: seq<Inbound>) {
    forall k :: 0 <= k < |inbox| && inbox[k].Arrives? ==> Stray(root, adv, inbox[k].packet)
  }

  /** A client whose root no TEE session has opens nothing: every call of `next_token` fails. */
  lemma {:induction false} NothingOpens(ks: KeySchedule, adv: Adversary, c: Client, i: nat, inbox: seq<Inbound>, k: nat)
    requires HandshakeRoot(ks.root) && !Derivable(ks.root, adv) && Alone(ks, c, i) && AllStray(ks.root, adv, inbox)
    ensures |Calls(c, inbox, k)| == k && forall j :: 0 <= j < k ==> Calls(c, inbox, k)[j].Failed?
    decreases k
  {
    hide Receive, Stray, Alone;
    if k > 0 {
      var r := NextToken(c, inbox);
      FirstCall(c, inbox, k);
      var i' := CallFails(ks, adv, c, i, inbox);
      NothingOpens(ks, adv, r.0, i', r.1, k - 1);
    }
  }

  lemma CallFails(ks: KeySchedule, adv: Adversary, c: Client, i: nat, inbox: seq<Inbound>) returns (i': nat)
    requires HandshakeRoot(ks.root) && !Derivable(ks.root, adv) && Alone(ks, c, i) && AllStray(ks.root, adv, inbox)
    ensures var r := NextToken(c, inbox);
            r.2.Failed? && Alone(ks, r.0, i') && AllStray(ks.root, adv, r.1)
  {
    hide Receive, Stray, SessionChain;
    i' := i;
    if inbox != [] && inbox[0].Arrives? {
      StrayFails(ks, adv, c, i, inbox[0].packet);
      i' := i + 1;
    }
  }
}
