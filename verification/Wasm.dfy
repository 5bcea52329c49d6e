/** The browser client: a second implementation of the receiving side, without the epoch check and
    without an `ended` flag. */
module Wasm {
  import opened Bytes
  import opened Keys
  import opened Wire
  import opened Replay
  import opened RecordSend
  import opened RecordReceive
  import opened Delivery

  datatype DecryptResult = Decrypted(text: Text, endOfTurn: bool) | Rejected(error: Error)

  function Interpret(c: Core, h: Header, text: Text): (Core, DecryptResult) {
    match h.frameType
    case Data => (c, if Utf8(text) then Decrypted(text, h.flags % 2 == 1) else Rejected(NotUtf8))
    case Control =>
      var ctrl := DecodeControl(text);
      if ctrl.Err? then (c, Rejected(ctrl.error))
      else if ctrl.value.KeyUpdate? then (KeyUpdated(c, ctrl.value.newPk), Decrypted([], false))
      else (c, Rejected(UnexpectedControl))
    case _ => (c, Rejected(UnexpectedFrameType))
  }

  /** `ClientSession::decrypt` on an open session. */
  function DecryptOpen(c: Core, p: Packet): (Core, DecryptResult) {
    var r := Ratchet(c.s2c);
    var c1 := c.(s2c := r.0);
    match DecodeFrame(r.1, c.salt, p)
    case Err(e) => (c1, Rejected(e))
    case Ok((h, text)) =>
      var v := Check(c.replay, h.seqNo);
      var c2 := c1.(replay := v.0);
      if !v.1.Accepted? then (c2, Rejected(ReplayRejected)) else Interpret(c2, h, text)
  }

  datatype SessionInner = Pending | Replacing | Poisoned(reason: string) | Open(core: Core)

  class ClientSession {
    var state: SessionInner

    constructor (root: Term, sk: Point)
      ensures state == Open(Connected(root, sk).core)
    {
      state := Open(Connected(root, sk).core);
    }

    /** Encrypt a prompt: the native client's step, except that at the counter's maximum the frame is dropped. */
    method Encrypt(plaintext: Text) returns (frame: Result<Packet>)
      modifies this
      ensures match old(state)
              case Open(core) =>
                && state == Open(Prompt(core, Attempt(plaintext, true)).0)
                && frame == if core.c2sSeq < U64_MAX || Prompt(core, Attempt(plaintext, true)).1.Err? then Prompt(core, Attempt(plaintext, true)).1
                            else Err(SeqOverflow)
              case _ => state == old(state) && frame == Err(SessionNotOpen)
    {
      if !state.Open? {
        return Err(SessionNotOpen);
      }
      var c := state.core;
      var drawn := Ratchet(c.c2s);
      c := c.(c2s := drawn.0);
      state := Open(c);
      frame := EncodeFrame(drawn.1, c.salt, Data, 0, c.epoch, c.c2sSeq, plaintext);
      if frame.Err? {
        return;
      }
      if c.c2sSeq >= U64_MAX {
        return Err(SeqOverflow);
      }
      state := Open(c.(c2sSeq := c.c2sSeq + 1));
    }

    /** Decrypt one inbound frame, rewriting the open state through it. */
    method DecryptFrame(p: Packet) returns (r: DecryptResult)
      modifies this
      ensures match old(state)
              case Open(core) => (state, r) == (Open(DecryptOpen(core, p).0), DecryptOpen(core, p).1)
              case _ => state == old(state) && r == Rejected(SessionNotOpen)
    {
      if !state.Open? {
        return Rejected(SessionNotOpen);
      }
      var c := state.core;
      var drawn := Ratchet(c.s2c);
      c := c.(s2c := drawn.0);
      state := Open(c);
      var frame := DecodeFrame(drawn.1, c.salt, p);
      if frame.Err? {
        return Rejected(frame.error);
      }
      var h, text := frame.value.0, frame.value.1;
      var v := Check(c.replay, h.seqNo);
      c := c.(replay := v.0);
      state := Open(c);
      if !v.1.Accepted? {
        return Rejected(ReplayRejected);
      }
      match h.frameType
      case Data =>
        r := if Utf8(text) then Decrypted(text, h.flags % 2 == 1) else Rejected(NotUtf8);
      case Control =>
        var ctrl := DecodeControl(text);
        if ctrl.Err? {
          return Rejected(ctrl.error);
        }
        if !ctrl.value.KeyUpdate? {
          return Rejected(UnexpectedControl);
        }
        state := Open(KeyUpdated(c, ctrl.value.newPk));
        r := Decrypted([], false);
      case _ =>
        r := Rejected(UnexpectedFrameType);
    }
  }

  // ---------------------------------------------------------------- the two clients agree

  /** What the browser host sees where the native client sees `o`: a key update reads like an empty chunk. */
  function Mirror(o: Outcome): DecryptResult {
    match o
    case Token(text) => Decrypted(text, false)
    case Absorbed => Decrypted([], false)
    case Finished => Decrypted([], true)
    case Failed(e) => Rejected(e)
  }

  /** Frame by frame until the end of the turn. */
  function NativeRun(c: Client, inbox: seq<Packet>): (r: (Client, seq<Outcome>))
    ensures |r.1| <= |inbox|
    decreases |inbox|
  {
    if inbox == [] || c.ended then (c, [])
    else
      var r := Receive(c, inbox[0]);
      var rest := NativeRun(r.0, inbox[1..]);
      (rest.0, [r.1] + rest.1)
  }

  function WasmRun(c: Core, inbox: seq<Packet>): (Core, seq<DecryptResult>)
    decreases |inbox|
  {
    if inbox == [] then (c, [])
    else
      var r := DecryptOpen(c, inbox[0]);
      var rest := WasmRun(r.0, inbox[1..]);
      (rest.0, [r.1] + rest.1)
  }

  function MirrorAll(os: seq<Outcome>): seq<DecryptResult> {
    if os == [] then [] else [Mirror(os[0])] + MirrorAll(os[1..])
  }

  /** After its header is read, a scheduled frame does the same to both clients. */
  lemma ScheduledFramesAgree(t: Turn, c: Client, n: nat, item: Item, h: Header)
    requires ValidTurn(t) && !c.ended && !item.Nothing? && (item.Chunk? ==> item.c < |t.chunks|)
    requires h.frameType == ItemType(item) && h.flags == ItemFlags(item)
    ensures var a := Dispatch(c, h, Payload(t, n, item)); var b := Interpret(c.core, h, Payload(t, n, item));
            a.0.core == b.0 && Mirror(a.1) == b.1
  {
    hide DecodeControl, EncodeControl, KeyUpdated;
  }

  /** On any frame the network can produce, both clients take it or both refuse it, for the same reason,
      and they hold the same root, chains, salt, epoch, window and counter afterwards. */
  lemma FramesAgree(t: Turn, adv: Adversary, c: Client, n: nat, i: nat, p: Packet)
    requires Secure(t, adv) && At(t, c, n, i) && Deliverable(t, adv, p)
    ensures Receive(c, p).0.core == DecryptOpen(c.core, p).0 && Mirror(Receive(c, p).1) == DecryptOpen(c.core, p).1
  {
    hide FrameAt, RootAt, DecodeFrame, ItemAt, Check, Dispatch, Interpret, Deliverable, Derivable, ExpectedNonceField;
    if DecodeFrame(Ratchet(c.core.s2c).1, c.core.salt, p).Ok? {
      OpenedIsScheduled(t, adv, c, n, i, p);
      PlaceEncodes(t, n, i);
      ScheduledOpens(t, n, i);
      ReplayAcceptsNext(c.core.replay, i);
      var item := ItemAt(t, n, i);
      ItemInRange(t, n, i);
      ScheduledFramesAgree(t, Opened(c, i), n, item, NewHeader(ItemType(item), ItemFlags(item), EpochAt(n), i));
    }
  }

  /** A frame of another epoch opens under the client's next key. */
  predicate OtherEpoch(c: Client, p: Packet) {
    var f := DecodeFrame(Ratchet(c.core.s2c).1, c.core.salt, p);
    f.Ok? && f.value.0.epoch != c.core.epoch
  }

  /** Beyond what a network can produce, on every packet and from every state within a turn, the two differ in one place
      only: the native client refuses a frame of another epoch, which the browser client takes by its number. */
  lemma EveryPacketAgrees(c: Client, p: Packet)
    requires !c.ended
    ensures OtherEpoch(c, p) ==> Receive(c, p).1 == Failed(UnexpectedEpoch)
    ensures !OtherEpoch(c, p) ==>
              && Receive(c, p).0.core == DecryptOpen(c.core, p).0
              && DecryptOpen(c.core, p).1
                 == match Receive(c, p).1
                    case Token(text) => Decrypted(text, Receive(c, p).0.ended)
                    case Absorbed => Decrypted([], false)
                    case Finished => Decrypted([], true)
                    case Failed(e) => Rejected(e)
  {
    hide DecodeFrame, Check, DecodeControl, KeyUpdated;
    UtfEmpty();
    hide Utf8;
  }

  lemma UtfEmpty()
    ensures Utf8([])
  {
  }

  lemma ItemInRange(t: Turn, n: nat, i: nat)
    ensures ItemAt(t, n, i).Chunk? ==> ItemAt(t, n, i).c < |t.chunks|
  {
  }

  /** On every inbound sequence, up to the end of the turn, the two clients accept the same frames and reach the same state. */
  lemma {:induction false} ClientsAgree(t: Turn, adv: Adversary, c: Client, n: nat, i: nat, inbox: seq<Packet>)
    requires Secure(t, adv) && (c.ended || At(t, c, n, i))
    requires forall k :: 0 <= k < |inbox| ==> Deliverable(t, adv, inbox[k])
    ensures var r := NativeRun(c, inbox);
            WasmRun(c.core, inbox[..|r.1|]) == (r.0.core, MirrorAll(r.1))
    decreases |inbox|
  {
    hide Receive, DecryptOpen, Deliverable, FrameAt, ItemAt, Secure, HoldsEpoch;
    if inbox != [] && !c.ended {
      var p := inbox[0];
      var r := Receive(c, p);
      FramesAgree(t, adv, c, n, i, p);
      ReadOutcome(t, adv, c, n, i, Arrives(p));
      var n', i' := n, i + 1;
      if r.1.Failed? {
        i' := if At(t, r.0, n, i) then i else i + 1;
      } else {
        NextPlace(t, adv, c, n, i);
        if r.1.Absorbed? {
          n', i' := n + 1, 0;
        }
      }
      ClientsAgree(t, adv, r.0, n', i', inbox[1..]);
      var k := |NativeRun(c, inbox).1|;
      assert inbox[..k][1..] == inbox[1..][..k - 1] && inbox[..k][0] == p;
    }
  }

  lemma NextPlace(t: Turn, adv: Adversary, c: Client, n: nat, i: nat)
    requires Secure(t, adv) && At(t, c, n, i) && !ItemAt(t, n, i).Nothing?
    ensures var r := Receive(c, FrameAt(t, n, i));
            r.0.ended || At(t, r.0, if r.1.Absorbed? then n + 1 else n, if r.1.Absorbed? then 0 else i + 1)
  {
    hide Receive, FrameAt, At, ItemAt, Derivable;
    ScheduledOutcome(t, c, n, i);
  }
}
