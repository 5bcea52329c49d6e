/** From the handshake to the record layer, on a network that may have disturbed every byte of both. */
module EndToEnd {
  import opened Bytes
  import opened Keys
  import opened Postcard
  import opened Hello
  import opened Handshake
  import opened RecordSend
  import opened RecordReceive
  import opened Delivery

  /** A session of the TEE: what it received and answered, and the turn it then served. */
  datatype TeeSession = TeeSession(at: seq<Byte>, answer: ServerHello, turn: Turn)

  ghost predicate Served(bundle: Bundle, s: TeeSession) {
    && ServerSized(s.answer) && ValidTurn(s.turn)
    && exists serverRandom, make, tee: Established ::
         && Respond(bundle, s.at, s.answer.serverPk, serverRandom, make) == Done((s.answer, tee))
         && s.turn.ks.root == tee.root && s.turn.ks.clientPk == tee.clientRatchetPk
  }

  /** A packet of a network that has seen every session of the TEE: noise, its own boxes, any client's boxes, and
      the boxes of all those turns, with whatever header. */
  ghost predicate InWorld(sessions: seq<TeeSession>, adv: Adversary, p: Wire.Packet) {
    || p.body.Noise? || Derivable(p.body.key, adv) || ClientKey(p.body.key)
    || exists m, k :: 0 <= m < |sessions| && 0 <= k < |Sent(sessions[m].turn)| && Sent(sessions[m].turn)[k].body == p.body
  }

  ghost predicate FromWorld(sessions: seq<TeeSession>, adv: Adversary, inbox: seq<Inbound>) {
    forall k :: 0 <= k < |inbox| && inbox[k].Arrives? ==> InWorld(sessions, adv, inbox[k].packet)
  }

  /** At most session `m` has the root. */
  ghost predicate OnlyAt(sessions: seq<TeeSession>, root: Term, m: nat) {
    forall l :: 0 <= l < |sessions| && l != m ==> sessions[l].turn.ks.root != root
  }

  lemma SentIsForeign(t: Turn, root: Term, k: nat)
    requires ValidTurn(t) && k < |Sent(t)| && t.ks.root != root
    ensures Sent(t)[k].body.Sealed? && ForeignKey(root, Sent(t)[k].body.key)
  {
    hide ItemAt, Schedule, Sent, FrameAt, EncodeAt, RecordKey, RootAt;
    var q := SentFrameAtPlace(t, k);
  }

  lemma WorldIsStray(sessions: seq<TeeSession>, root: Term, m: nat, adv: Adversary, p: Wire.Packet)
    requires InWorld(sessions, adv, p) && OnlyAt(sessions, root, m)
    requires forall l :: 0 <= l < |sessions| ==> ValidTurn(sessions[l].turn)
    ensures || Stray(root, adv, p)
            || (m < |sessions| && exists k :: 0 <= k < |Sent(sessions[m].turn)| && Sent(sessions[m].turn)[k].body == p.body)
  {
    hide Sent, ValidTurn, ForeignKey, ClientKey, Derivable;
    if !(p.body.Noise? || Derivable(p.body.key, adv) || ClientKey(p.body.key)) {
      var l, k :| 0 <= l < |sessions| && 0 <= k < |Sent(sessions[l].turn)| && Sent(sessions[l].turn)[k].body == p.body;
      if l != m {
        SentIsForeign(sessions[l].turn, root, k);
      }
    }
  }

  /** The client after its handshake and its prompts. */
  function Talking(root: Term, ratchetSk: Point, prompts: seq<Attempt>): Client {
    Client(Prompted(Connected(root, ratchetSk).core, prompts), false)
  }

  lemma {:induction false} PromptsKeepAlone(ks: KeySchedule, c: Core, prompts: seq<Attempt>)
    requires Alone(ks, Client(c, false), 0)
    ensures Alone(ks, Client(Prompted(c, prompts), false), 0)
    decreases |prompts|
  {
    hide SessionChain;
    if prompts != [] {
      PromptsKeepAlone(ks, Prompt(c, prompts[0]).0, prompts[1..]);
    }
  }

  /** A session with the client's root received the client's own hello, so it ratchets against the client's point. */
  lemma SessionKnowsClient(draws: ClientDraws, bundle: Bundle, received: seq<Byte>, verify: (Term, seq<Byte>) -> bool,
                           s: TeeSession)
    requires Proper(draws) && |bundle.pqPk| == ML_KEM_768_EK_LEN && Served(bundle, s)
    requires Complete(Initiate(draws, bundle).value, received, verify).Done?
    requires s.turn.ks.root == Complete(Initiate(draws, bundle).value, received, verify).value.root
    ensures s.turn.ks.clientPk == draws.ratchet
  {
    hide EncodeClient, DecodeClient, EncodeServer, DecodeServer, ClientSized, ServerSized, ValidTurn, BothFinish;
    var serverRandom, make, tee: Established :|
      && Respond(bundle, s.at, s.answer.serverPk, serverRandom, make) == Done((s.answer, tee))
      && s.turn.ks.root == tee.root && s.turn.ks.clientPk == tee.clientRatchetPk;
    var client := Complete(Initiate(draws, bundle).value, received, verify).value;
    FinishBoth(draws, bundle, s.at, s.answer, tee, received, client, serverRandom, make, verify);
    RootsAgreeIff(draws, bundle, s.at, s.answer, tee, received, client);
    FinishedRoots(draws, bundle, s.at, s.answer, tee, received, client);
  }

  lemma FinishBoth(draws: ClientDraws, bundle: Bundle, at: seq<Byte>, answer: ServerHello, tee: Established,
                   received: seq<Byte>, client: Established, serverRandom: seq<Byte>,
                   make: (ReportData, Term) -> Handshake.Outcome<(seq<Byte>, seq<Byte>)>, verify: (Term, seq<Byte>) -> bool)
    requires Proper(draws) && |bundle.pqPk| == ML_KEM_768_EK_LEN && ServerSized(answer)
    requires Respond(bundle, at, answer.serverPk, serverRandom, make) == Done((answer, tee))
    requires Complete(Initiate(draws, bundle).value, received, verify) == Done(client)
    ensures BothFinish(draws, bundle, at, answer, tee, received, client)
  {
    hide EncodeClient, DecodeClient, EncodeServer, DecodeServer;
  }

  /** A client that completed with its KEM part unbroken and whose root no session of the TEE has: every call of
      `next_token` fails, whatever was sent to it and whatever prompts it sent. */
  lemma NoSessionNothingOpens(draws: ClientDraws, bundle: Bundle, received: seq<Byte>, verify: (Term, seq<Byte>) -> bool,
                              adv: Adversary, sessions: seq<TeeSession>, prompts: seq<Attempt>, inbox: seq<Inbound>, k: nat)
    requires |bundle.pqPk| == ML_KEM_768_EK_LEN && KemUnbroken(draws, bundle, adv)
    requires Complete(Initiate(draws, bundle).value, received, verify).Done?
    requires (forall l :: 0 <= l < |sessions| ==> Served(bundle, sessions[l])) && FromWorld(sessions, adv, inbox)
    requires forall l :: 0 <= l < |sessions| ==>
                           sessions[l].turn.ks.root != Complete(Initiate(draws, bundle).value, received, verify).value.root
    ensures var root := Complete(Initiate(draws, bundle).value, received, verify).value.root;
            var os := Calls(Talking(root, draws.ratchet, prompts), inbox, k);
            |os| == k && forall j :: 0 <= j < k ==> os[j].Failed?
  {
    RootHiddenUnlessBothBroken(draws, bundle, received, verify, adv);
    var root := Complete(Initiate(draws, bundle).value, received, verify).value.root;
    hide Complete, Initiate, Served, Calls, KemUnbroken, Derivable, InWorld, Stray;
    var ks := KeySchedule(root, draws.ratchet, _ => draws.ratchet);
    forall i | 0 <= i < |inbox| && inbox[i].Arrives? ensures Stray(root, adv, inbox[i].packet) {
      TurnsValid(bundle, sessions);
      WorldIsStray(sessions, root, |sessions|, adv, inbox[i].packet);
    }
    assert Alone(ks, Connected(root, draws.ratchet), 0);
    PromptsKeepAlone(ks, Connected(root, draws.ratchet).core, prompts);
    NothingOpens(ks, adv, Talking(root, draws.ratchet, prompts), 0, inbox, k);
  }

  lemma TurnsValid(bundle: Bundle, sessions: seq<TeeSession>)
    requires forall l :: 0 <= l < |sessions| ==> Served(bundle, sessions[l])
    ensures forall l :: 0 <= l < |sessions| ==> ValidTurn(sessions[l].turn)
  {
  }

  /** What one whose root is that of a single session can be handed: everything in its inbox is deliverable in that
      session's turn, and it stands where that turn's client stands. */
  lemma SessionStands(draws: ClientDraws, bundle: Bundle, received: seq<Byte>, verify: (Term, seq<Byte>) -> bool,
                      adv: Adversary, sessions: seq<TeeSession>, m: nat, prompts: seq<Attempt>, inbox: seq<Inbound>)
    requires Proper(draws) && |bundle.pqPk| == ML_KEM_768_EK_LEN && KemUnbroken(draws, bundle, adv)
    requires Complete(Initiate(draws, bundle).value, received, verify).Done?
    requires (forall l :: 0 <= l < |sessions| ==> Served(bundle, sessions[l])) && FromWorld(sessions, adv, inbox)
    requires var root := Complete(Initiate(draws, bundle).value, received, verify).value.root;
             m < |sessions| && sessions[m].turn.ks.root == root && OnlyAt(sessions, root, m)
    ensures var root := Complete(Initiate(draws, bundle).value, received, verify).value.root;
            var t := sessions[m].turn;
            Secure(t, adv) && Networked(t, adv, inbox) && Talking(root, draws.ratchet, prompts) == Opening(t, prompts)
  {
    RootHiddenUnlessBothBroken(draws, bundle, received, verify, adv);
    SessionKnowsClient(draws, bundle, received, verify, sessions[m]);
    TurnsValid(bundle, sessions);
    var root := Complete(Initiate(draws, bundle).value, received, verify).value.root;
    var t := sessions[m].turn;
    hide Complete, Initiate, Served, KemUnbroken, Derivable, InWorld, Stray, ValidTurn, Sent;
    forall i | 0 <= i < |inbox| && inbox[i].Arrives? ensures Deliverable(t, adv, inbox[i].packet) {
      WorldIsStray(sessions, root, m, adv, inbox[i].packet);
    }
  }

  /** Such a client gets that session's texts: a prefix of its chunks before the first error, all of them at a clean
      end. The hellos may have been altered on the way, as long as both sides finished. */
  lemma SessionDelivers(draws: ClientDraws, bundle: Bundle, received: seq<Byte>, verify: (Term, seq<Byte>) -> bool,
                        adv: Adversary, sessions: seq<TeeSession>, m: nat, prompts: seq<Attempt>, inbox: seq<Inbound>, k: nat)
    requires Proper(draws) && |bundle.pqPk| == ML_KEM_768_EK_LEN && KemUnbroken(draws, bundle, adv)
    requires Complete(Initiate(draws, bundle).value, received, verify).Done?
    requires (forall l :: 0 <= l < |sessions| ==> Served(bundle, sessions[l])) && FromWorld(sessions, adv, inbox)
    requires var root := Complete(Initiate(draws, bundle).value, received, verify).value.root;
             m < |sessions| && sessions[m].turn.ks.root == root && OnlyAt(sessions, root, m)
    ensures var root := Complete(Initiate(draws, bundle).value, received, verify).value.root;
            var os := Calls(Talking(root, draws.ratchet, prompts), inbox, k);
            NoErrors(os) ==> && Texts(os) <= sessions[m].turn.chunks
                             && (RecordReceive.Finished in os ==> Texts(os) == sessions[m].turn.chunks)
  {
    hide Complete, Initiate, Served, Calls, KemUnbroken, FromWorld, OnlyAt, Secure, Networked, Texts, NoErrors, Talking, Opening;
    SessionStands(draws, bundle, received, verify, adv, sessions, m, prompts, inbox);
    var t := sessions[m].turn;
    if NoErrors(Calls(Opening(t, prompts), inbox, k)) {
      PrefixUntilFirstError(t, adv, prompts, inbox, k);
    }
  }

  /** And if it goes on after errors, still a subsequence of them, none twice. */
  lemma SessionDeliversInOrder(draws: ClientDraws, bundle: Bundle, received: seq<Byte>, verify: (Term, seq<Byte>) -> bool,
                               adv: Adversary, sessions: seq<TeeSession>, m: nat, prompts: seq<Attempt>,
                               inbox: seq<Inbound>, k: nat) returns (idx: seq<nat>)
    requires Proper(draws) && |bundle.pqPk| == ML_KEM_768_EK_LEN && KemUnbroken(draws, bundle, adv)
    requires Complete(Initiate(draws, bundle).value, received, verify).Done?
    requires (forall l :: 0 <= l < |sessions| ==> Served(bundle, sessions[l])) && FromWorld(sessions, adv, inbox)
    requires var root := Complete(Initiate(draws, bundle).value, received, verify).value.root;
             m < |sessions| && sessions[m].turn.ks.root == root && OnlyAt(sessions, root, m)
    ensures var root := Complete(Initiate(draws, bundle).value, received, verify).value.root;
            Picks(Texts(Calls(Talking(root, draws.ratchet, prompts), inbox, k)), sessions[m].turn.chunks, idx, 0)
  {
    hide Complete, Initiate, Served, Calls, KemUnbroken, FromWorld, OnlyAt, Secure, Networked, Texts, Talking, Opening;
    SessionStands(draws, bundle, received, verify, adv, sessions, m, prompts, inbox);
    idx := SubsequenceAlways(sessions[m].turn, adv, prompts, inbox, k);
  }

  /** Nothing disturbed, neither the hellos nor the frames, and a TEE that signs what it is asked to: the handshake
      succeeds, and every chunk of the turn that the TEE serves on those keys arrives in order, followed by the end. */
  lemma UndisturbedDelivers(draws: ClientDraws, bundle: Bundle, ratchetSk: Point, serverRandom: seq<Byte>,
                            evidence: ReportData -> seq<Byte>, sign: Term -> seq<Byte>, check: (Term, seq<Byte>) -> bool,
                            t: Turn, prompts: seq<Attempt>)
    requires Proper(draws) && |bundle.pqPk| == ML_KEM_768_EK_LEN && |ratchetSk| == |serverRandom| == POINT_LEN
    requires Signs(sign, check) && forall r :: Short(evidence(r))
    requires ValidTurn(t) && Sendable(t.chunks) == |t.chunks|
    ensures var p := Initiate(draws, bundle).value;
            var s := Respond(bundle, p.sent, ratchetSk, serverRandom, Attesting(evidence, sign));
            && s.Done?
            && var client := Complete(p, EncodeServer(s.value.0), check);
            && client.Done?
            && (t.ks.root == s.value.1.root && t.ks.clientPk == s.value.1.clientRatchetPk
                ==> Calls(Talking(client.value.root, draws.ratchet, prompts), Forwarded(Sent(t)), |t.chunks| + 1)
                    == Tokens(t.chunks) + [RecordReceive.Finished])
  {
    HonestHandshake(draws, bundle, ratchetSk, serverRandom, evidence, sign, check);
    ClientPointKept(draws, bundle, ratchetSk, serverRandom, Attesting(evidence, sign));
    hide Respond, EncodeServer, Calls, Sent, ValidTurn, Tokens, Signs, Short;
    if t.ks.root == Respond(bundle, Initiate(draws, bundle).value.sent, ratchetSk, serverRandom, Attesting(evidence, sign)).value.1.root
       && t.ks.clientPk == draws.ratchet {
      assert Talking(t.ks.root, draws.ratchet, prompts) == Opening(t, prompts);
      HonestNetworkDelivers(t, prompts);
    }
  }

  lemma ClientPointKept(draws: ClientDraws, bundle: Bundle, ratchetSk: Point, serverRandom: seq<Byte>,
                        make: (ReportData, Term) -> Handshake.Outcome<(seq<Byte>, seq<Byte>)>)
    requires Proper(draws) && |bundle.pqPk| == ML_KEM_768_EK_LEN
    ensures var p := Initiate(draws, bundle).value;
            var s := Respond(bundle, p.sent, ratchetSk, serverRandom, make);
            s.Done? ==> s.value.1.clientRatchetPk == draws.ratchet
  {
    hide EncodeClient, DecodeClient, EncodeServer, ClientSized;
    var p := Initiate(draws, bundle).value;
    InitiatedSized(draws, bundle);
    ClientRoundTrip(p.hello, []);
    assert p.sent + [] == p.sent;
  }
}
