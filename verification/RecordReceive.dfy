/** The receiving side of one turn: the native client's `Session` and `TokenStream`, fed by a network that
    may drop, reorder, duplicate, alter, reflect and inject frames. */
module RecordReceive {
  import opened Bytes
  import opened Keys
  import opened Wire
  import opened Replay
  import opened RecordSend

  // ---------------------------------------------------------------- the client

  datatype Core = Core(root: Term, s2c: Term, c2s: Term, salt: Term, epoch: nat, replay: Window, c2sSeq: nat, sk: Point)

  datatype Client = Client(core: Core, ended: bool)

  /** What one frame, or one call of `next_token`, comes to. */
  datatype Outcome = Token(text: Text) | Finished | Absorbed | Failed(error: Error)

  function Connected(root: Term, sk: Point): Client {
    var keys := DeriveInitialKeys(root);
    Client(Core(root, keys.s2c, keys.c2s, keys.salt, 0, EMPTY, 0, sk), false)
  }

  /** `apply_key_update` */
  function KeyUpdated(c: Core, newServerPk: Point): Core {
    var step := DhStep(c.root, c.sk, newServerPk);
    Core(step.0, step.1.s2c, step.1.c2s, step.1.salt, NextEpoch(c.epoch), EMPTY, 0, c.sk)
  }

  /** A call of `send`: the prompt, and whether the socket took the frame before the call ended. */
  datatype Attempt = Attempt(text: Text, written: bool)

  /** `send`: the prompt as a DATA frame under the next c2s key. The key is drawn whether or not the prompt fits and
      the frame is written; the number moves on only after the write, and not past its maximum, where the call fails. */
  function Prompt(c: Core, a: Attempt): (Core, Result<Packet>) {
    var r := Ratchet(c.c2s);
    var frame := EncodeFrame(r.1, c.salt, Data, 0, c.epoch, c.c2sSeq, a.text);
    var counted := frame.Ok? && a.written && c.c2sSeq < U64_MAX;
    (c.(c2s := r.0, c2sSeq := if counted then c.c2sSeq + 1 else c.c2sSeq), frame)
  }

  /** What an opened frame does to the stream. */
  function Dispatch(c: Client, h: Header, text: Text): (Client, Outcome) {
    match h.frameType
    case Data =>
      var eot := h.flags % 2 == 1;
      var c' := c.(ended := c.ended || eot);
      if eot && text == [] then (c', Finished)
      else if !Utf8(text) then (c', Failed(NotUtf8))
      else (c', Token(text))
    case Control =>
      var ctrl := DecodeControl(text);
      if ctrl.Err? then (c, Failed(ctrl.error))
      else if ctrl.value.KeyUpdate? then (c.(core := KeyUpdated(c.core, ctrl.value.newPk)), Absorbed)
      else (c, Failed(UnexpectedControl))
    case _ => (c, Failed(UnexpectedFrameType))
  }

  /** One round of the `next_token` loop. The ratchet advances whether or not the frame opens. */
  function Receive(c: Client, p: Packet): (Client, Outcome) {
    var r := Ratchet(c.core.s2c);
    var c1 := c.(core := c.core.(s2c := r.0));
    match DecodeFrame(r.1, c.core.salt, p)
    case Err(e) => (c1, Failed(e))
    case Ok((h, text)) =>
      if h.epoch != c.core.epoch then (c1, Failed(UnexpectedEpoch))
      else
        var v := Check(c.core.replay, h.seqNo);
        var c2 := c1.(core := c1.core.(replay := v.0));
        if !v.1.Accepted? then (c2, Failed(ReplayRejected)) else Dispatch(c2, h, text)
  }

  /** What `read_binary` yields: a message, or a transport error before any key is drawn. */
  datatype Inbound = Arrives(packet: Packet) | Broken

  function Read(c: Client, x: Inbound): (Client, Outcome) {
    match x
    case Arrives(p) => Receive(c, p)
    case Broken => (c, Failed(Transport))
  }

  /** One call of `next_token`: rounds until one of them returns. An exhausted connection reads as closed. */
  function NextToken(c: Client, inbox: seq<Inbound>): (Client, seq<Inbound>, Outcome)
    decreases |inbox|
  {
    if c.ended then (c, inbox, Finished)
    else if inbox == [] then (c, [], Failed(Transport))
    else
      var r := Read(c, inbox[0]);
      if r.1.Absorbed? then NextToken(r.0, inbox[1..]) else (r.0, inbox[1..], r.1)
  }

  /** The session as the client holds it, its fields updated in place. */
  class Session {
    var currentRoot: Term
    var s2c: Term
    var c2s: Term
    var nonceSalt: Term
    var epoch: nat
    var s2cReplay: Window
    var c2sSeq: nat
    var clientRatchetSk: Point
    var ended: bool
    var inbox: seq<Inbound>

    function State(): Client
      reads this
    {
      Client(Core(currentRoot, s2c, c2s, nonceSalt, epoch, s2cReplay, c2sSeq, clientRatchetSk), ended)
    }

    constructor (root: Term, sk: Point, arriving: seq<Inbound>)
      ensures State() == Connected(root, sk) && inbox == arriving
    {
      var keys := DeriveInitialKeys(root);
      currentRoot, s2c, c2s, nonceSalt, epoch := root, keys.s2c, keys.c2s, keys.salt, 0;
      s2cReplay, c2sSeq, clientRatchetSk, ended, inbox := EMPTY, 0, sk, false, arriving;
    }

    method ApplyKeyUpdate(newServerPk: Point)
      modifies this
      ensures State() == old(State()).(core := KeyUpdated(old(State()).core, newServerPk)) && inbox == old(inbox)
    {
      var step := DhStep(currentRoot, clientRatchetSk, newServerPk);
      currentRoot, s2c, c2s, nonceSalt := step.0, step.1.s2c, step.1.c2s, step.1.salt;
      epoch, c2sSeq, s2cReplay := NextEpoch(epoch), 0, EMPTY;
    }

    /** The frame that was sealed, if any, and whether the call succeeded. */
    method Send(prompt: Text, written: bool) returns (frame: Result<Packet>, ok: bool)
      modifies this
      ensures var r := Prompt(old(State()).core, Attempt(prompt, written));
              State() == old(State()).(core := r.0) && frame == r.1 && inbox == old(inbox)
      ensures ok <==> frame.Ok? && written && old(c2sSeq) < U64_MAX
    {
      var r := Ratchet(c2s);
      c2s := r.0;
      frame := EncodeFrame(r.1, nonceSalt, Data, 0, epoch, c2sSeq, prompt);
      if frame.Err? || !written {
        return frame, false;
      }
      ok := c2sSeq < U64_MAX;
      if ok {
        c2sSeq := c2sSeq + 1;
      }
    }

    /** The frame-type match at the end of a round. */
    method Handle(h: Header, text: Text) returns (o: Outcome)
      modifies this
      ensures (State(), o) == Dispatch(old(State()), h, text) && inbox == old(inbox)
    {
      match h.frameType
      case Data =>
        if h.flags % 2 == 1 {
          ended := true;
          if text == [] {
            return Finished;
          }
        }
        o := if Utf8(text) then Token(text) else Failed(NotUtf8);
      case Control =>
        var ctrl := DecodeControl(text);
        if ctrl.Err? {
          return Failed(ctrl.error);
        }
        if ctrl.value.KeyUpdate? {
          ApplyKeyUpdate(ctrl.value.newPk);
          o := Absorbed;
        } else {
          o := Failed(UnexpectedControl);
        }
      case _ =>
        o := Failed(UnexpectedFrameType);
    }

    method Round(p: Packet) returns (o: Outcome)
      modifies this
      ensures (State(), o) == Receive(old(State()), p) && inbox == old(inbox)
    {
      var r := Ratchet(s2c);
      s2c := r.0;
      var frame := DecodeFrame(r.1, nonceSalt, p);
      if frame.Err? {
        return Failed(frame.error);
      }
      var h, text := frame.value.0, frame.value.1;
      if h.epoch != epoch {
        return Failed(UnexpectedEpoch);
      }
      var v := Check(s2cReplay, h.seqNo);
      s2cReplay := v.0;
      if !v.1.Accepted? {
        return Failed(ReplayRejected);
      }
      o := Handle(h, text);
    }

    method NextTokenCall() returns (o: Outcome)
      modifies this
      ensures (State(), inbox, o) == NextToken(old(State()), old(inbox))
    {
      ghost var whole := NextToken(State(), inbox);
      while true
        invariant whole == NextToken(State(), inbox)
        decreases |inbox|
      {
        if ended {
          return Finished;
        }
        if inbox == [] {
          return Failed(Transport);
        }
        var x := inbox[0];
        inbox := inbox[1..];
        if x.Broken? {
          return Failed(Transport);
        }
        o := Round(x.packet);
        if !o.Absorbed? {
          return;
        }
      }
    }
  }
}
