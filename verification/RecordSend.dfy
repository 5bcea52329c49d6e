/** The sending side of one turn: the TEE streams its chunks under a per-frame ratchet and rotates the
    keys every few chunks. */
module RecordSend {
  import opened Bytes
  import opened Keys
  import opened Wire
  import opened Replay

  /** `epoch.wrapping_add(1)` on a `u32` */
  function NextEpoch(epoch: nat): nat {
    if epoch + 1 >= U32 then 0 else epoch + 1
  }

  /** The epoch field of the `n`-th epoch. */
  function EpochAt(n: nat): (e: nat)
    ensures e < U32
  {
    if n == 0 then 0 else NextEpoch(EpochAt(n - 1))
  }

  /** The epoch field counts the key updates modulo 2^32. */
  lemma {:induction false} EpochIsRemainder(n: nat)
    ensures EpochAt(n) == n % 0x1_0000_0000
  {
    if n > 0 {
      EpochIsRemainder(n - 1);
    }
  }

  // ---------------------------------------------------------------- what the TEE sends

  /** A turn: its key schedule, the rotation period (0 disables rotation) and the engine's chunks. */
  datatype Turn = Turn(ks: KeySchedule, every: nat, chunks: seq<Text>)

  /** The root is a handshake's, ratchet points have 32 bytes, chunks are Rust strings, and the
      period is a `u32`; with rotation off, the stream stays within half the sequence numbers. */
  ghost predicate ValidTurn(t: Turn) {
    && HandshakeRoot(t.ks.root)
    && (forall n: nat :: |t.ks.newPk(n)| == 32)
    && (forall c :: 0 <= c < |t.chunks| ==> Utf8(t.chunks[c]))
    && t.every < U32
    && (t.every == 0 ==> |t.chunks| <= U64_MAX / 2)
  }

  /** How many chunks go out before one is too long for a record. */
  function Sendable(chunks: seq<Text>): (s: nat)
    ensures s <= |chunks|
    ensures forall c :: 0 <= c < s ==> |chunks[c]| <= MAX_PLAINTEXT_PER_RECORD
    ensures s < |chunks| ==> |chunks[s]| > MAX_PLAINTEXT_PER_RECORD
  {
    if chunks == [] || |chunks[0]| > MAX_PLAINTEXT_PER_RECORD then 0 else 1 + Sendable(chunks[1..])
  }

  /** Number of chunks that precede place `i` of epoch `n`. */
  function Pos(t: Turn, n: nat, i: nat): nat {
    if t.every == 0 then i else n * t.every + (if i < t.every then i else t.every)
  }

  datatype Item = Chunk(c: nat) | Update | EndOfTurn | Nothing

  /** What the TEE seals with the `i`-th key of epoch `n`. */
  function ItemAt(t: Turn, n: nat, i: nat): Item {
    var s := Sendable(t.chunks);
    if (t.every > 0 && i > t.every) || (t.every == 0 && n > 0) then Nothing
    else if t.every > 0 && i == t.every then (if Pos(t, n, i) <= s then Update else Nothing)
    else if Pos(t, n, i) < s then Chunk(Pos(t, n, i))
    else if Pos(t, n, i) == s == |t.chunks| then EndOfTurn
    else Nothing
  }

  function Payload(t: Turn, n: nat, item: Item): Text
    requires item.Chunk? ==> item.c < |t.chunks|
  {
    match item
    case Chunk(c) => t.chunks[c]
    case Update => EncodeControl(KeyUpdate(t.ks.newPk(n)))
    case _ => []
  }

  function ItemType(item: Item): FrameType {
    if item.Update? then Control else Data
  }

  function ItemFlags(item: Item): nat {
    if item.EndOfTurn? then END_OF_TURN else 0
  }

  function EncodeAt(t: Turn, n: nat, i: nat): Result<Packet> {
    var item := ItemAt(t, n, i);
    var root := RootAt(t.ks, n);
    EncodeFrame(RecordKey(root, S2C, i), DeriveInitialKeys(root).salt, ItemType(item), ItemFlags(item),
                EpochAt(n), i, Payload(t, n, item))
  }

  /** The frame at a place where something is sent. */
  function FrameAt(t: Turn, n: nat, i: nat): Packet {
    match EncodeAt(t, n, i)
    case Ok(p) => p
    case Err(_) => Packet([], Noise([]))
  }

  lemma PlaceEncodes(t: Turn, n: nat, i: nat)
    requires ValidTurn(t) && !ItemAt(t, n, i).Nothing?
    ensures EncodeAt(t, n, i).Ok? && |Payload(t, n, ItemAt(t, n, i))| <= MAX_PLAINTEXT_PER_RECORD
    ensures i <= U64_MAX / 2
  {
  }

  datatype Place = Place(n: nat, i: nat)

  /** A key update follows the chunk at place `i`. */
  predicate Rotates(t: Turn, i: nat) {
    t.every > 0 && i + 1 >= t.every
  }

  /** The places used from chunk `c` on, in sending order. */
  function Schedule(t: Turn, c: nat, n: nat, i: nat): seq<Place>
    requires c <= |t.chunks|
    decreases |t.chunks| - c
  {
    if c == |t.chunks| then [Place(n, i)]
    else if c >= Sendable(t.chunks) then []
    else if Rotates(t, i) then [Place(n, i), Place(n, i + 1)] + Schedule(t, c + 1, n + 1, 0)
    else [Place(n, i)] + Schedule(t, c + 1, n, i + 1)
  }

  /** Within an epoch, with `c` chunks sent. */
  predicate Streaming(t: Turn, c: nat, n: nat, i: nat) {
    && c <= Sendable(t.chunks) && c == Pos(t, n, i)
    && (t.every > 0 ==> i < t.every) && (t.every == 0 ==> n == 0)
  }

  lemma NextChunk(t: Turn, c: nat, n: nat, i: nat)
    requires Streaming(t, c, n, i) && c < Sendable(t.chunks)
    ensures ItemAt(t, n, i) == Chunk(c)
    ensures Rotates(t, i) ==> ItemAt(t, n, i + 1) == Update && Streaming(t, c + 1, n + 1, 0)
    ensures !Rotates(t, i) ==> Streaming(t, c + 1, n, i + 1)
  {
    assert (n + 1) * t.every == n * t.every + t.every;
  }

  lemma {:induction false} ScheduleSends(t: Turn, c: nat, n: nat, i: nat, k: nat)
    requires ValidTurn(t) && Streaming(t, c, n, i)
    requires k < |Schedule(t, c, n, i)|
    ensures var p := Schedule(t, c, n, i)[k]; !ItemAt(t, p.n, p.i).Nothing?
    decreases |t.chunks| - c
  {
    if c < Sendable(t.chunks) {
      NextChunk(t, c, n, i);
      if Rotates(t, i) {
        if k >= 2 {
          ScheduleSends(t, c + 1, n + 1, 0, k - 2);
        }
      } else if k >= 1 {
        ScheduleSends(t, c + 1, n, i + 1, k - 1);
      }
    }
  }

  predicate Before(p: Place, q: Place) {
    p.n < q.n || (p.n == q.n && p.i < q.i)
  }

  /** Places are used in strictly increasing order, so no place is used twice. */
  lemma {:induction false} ScheduleIncreases(t: Turn, c: nat, n: nat, i: nat)
    requires c <= |t.chunks|
    ensures forall k :: 0 <= k < |Schedule(t, c, n, i)| ==> !Before(Schedule(t, c, n, i)[k], Place(n, i))
    ensures forall k, l :: 0 <= k < l < |Schedule(t, c, n, i)| ==> Before(Schedule(t, c, n, i)[k], Schedule(t, c, n, i)[l])
    decreases |t.chunks| - c
  {
    if c < |t.chunks| && c < Sendable(t.chunks) {
      if Rotates(t, i) {
        ScheduleIncreases(t, c + 1, n + 1, 0);
      } else {
        ScheduleIncreases(t, c + 1, n, i + 1);
      }
    }
  }

  function Frames(t: Turn, places: seq<Place>): (f: seq<Packet>)
    ensures |f| == |places|
    ensures forall k :: 0 <= k < |f| ==> f[k] == FrameAt(t, places[k].n, places[k].i)
  {
    if places == [] then [] else [FrameAt(t, places[0].n, places[0].i)] + Frames(t, places[1..])
  }

  /** Everything the TEE puts on the wire during the turn. */
  function Sent(t: Turn): seq<Packet> {
    Frames(t, Schedule(t, 0, 0, 0))
  }

  // ---------------------------------------------------------------- the TEE's streaming loop

  /** The state `handle_session` rewrites while it streams. */
  datatype TeeState = TeeState(root: Term, s2c: Term, c2s: Term, salt: Term, epoch: nat, s2cSeq: nat, sinceUpdate: nat)

  function Started(root: Term): TeeState {
    var keys := DeriveInitialKeys(root);
    TeeState(root, keys.s2c, keys.c2s, keys.salt, 0, 0, 0)
  }

  /** A frame sealed under the next s2c key. */
  function Emit(st: TeeState, frameType: FrameType, flags: nat, text: Text): Result<Packet> {
    EncodeFrame(Ratchet(st.s2c).1, st.salt, frameType, flags, st.epoch, st.s2cSeq, text)
  }

  /** A DATA frame has gone out: next chain, next number. */
  function Advanced(st: TeeState): TeeState {
    st.(s2c := Ratchet(st.s2c).0, s2cSeq := st.s2cSeq + 1, sinceUpdate := st.sinceUpdate + 1)
  }

  /** The key update has gone out: everything is rekeyed and counted from zero. */
  function Rotated(st: TeeState, newPk: Point, clientPk: Point): TeeState {
    var step := DhStep(st.root, newPk, clientPk);
    TeeState(step.0, step.1.s2c, step.1.c2s, step.1.salt, NextEpoch(st.epoch), 0, 0)
  }

  datatype Progress = Progress(frames: seq<Packet>, st: TeeState, ok: bool)

  /** One round of the loop: a DATA frame, and a key update when the period is over. */
  function ChunkRound(st: TeeState, t: Turn, text: Text, n: nat): Progress {
    var data := Emit(st, Data, 0, text);
    if data.Err? then Progress([], st, false)
    else
      var st1 := Advanced(st);
      if t.every > 0 && st1.sinceUpdate >= t.every then
        var update := Emit(st1, Control, 0, EncodeControl(KeyUpdate(t.ks.newPk(n))));
        if update.Err? then Progress([data.value], st1, false)
        else Progress([data.value, update.value], Rotated(st1, t.ks.newPk(n), t.ks.clientPk), true)
      else Progress([data.value], st1, true)
  }

  /** The number of key pairs drawn after a round. */
  function Drawn(st: TeeState, t: Turn, n: nat): nat {
    if t.every > 0 && st.sinceUpdate + 1 >= t.every then n + 1 else n
  }

  /** What the loop sends from a state on, and whether it reaches the end-of-turn marker; `n` key pairs
      have been drawn so far. */
  function StreamFrom(st: TeeState, t: Turn, c: nat, n: nat): (seq<Packet>, bool)
    requires c <= |t.chunks|
    decreases |t.chunks| - c
  {
    if c == |t.chunks| then
      var eot := Emit(st, Data, END_OF_TURN, []);
      if eot.Err? then ([], false) else ([eot.value], true)
    else
      var p := ChunkRound(st, t, t.chunks[c], n);
      if !p.ok then (p.frames, false)
      else Prepend(p.frames, StreamFrom(p.st, t, c + 1, Drawn(st, t, n)))
  }

  function Prepend(a: seq<Packet>, r: (seq<Packet>, bool)): (seq<Packet>, bool) {
    (a + r.0, r.1)
  }

  lemma PrependTwice(a: seq<Packet>, b: seq<Packet>, r: (seq<Packet>, bool))
    ensures Prepend(a, Prepend(b, r)) == Prepend(a + b, r)
    ensures Prepend([], r) == r
  {
    assert a + (b + r.0) == a + b + r.0;
    assert [] + r.0 == r.0;
  }

  /** `handle_session` from the established keys to the end-of-turn marker. */
  class TeeStream {
    var currentRoot: Term
    var s2c: Term
    var c2s: Term
    var nonceSalt: Term
    var epoch: nat
    var s2cSeq: nat
    var chunksSinceUpdate: nat
    var sent: seq<Packet>

    function State(): TeeState
      reads this
    {
      TeeState(currentRoot, s2c, c2s, nonceSalt, epoch, s2cSeq, chunksSinceUpdate)
    }

    constructor (root: Term)
      ensures State() == Started(root) && sent == []
    {
      var keys := DeriveInitialKeys(root);
      currentRoot, s2c, c2s, nonceSalt := root, keys.s2c, keys.c2s, keys.salt;
      epoch, s2cSeq, chunksSinceUpdate, sent := 0, 0, 0, [];
    }

    /** `SymRatchet::next_key` on the s2c chain */
    method NextKey() returns (key: Term)
      modifies this`s2c
      ensures (s2c, key) == Ratchet(old(s2c))
    {
      var r := Ratchet(s2c);
      s2c, key := r.0, r.1;
    }

    /** Draw the next s2c key and put one frame on the wire; a text too long for a record sends nothing. */
    method SendFrame(frameType: FrameType, flags: nat, text: Text) returns (ok: bool)
      modifies this`sent, this`s2c
      ensures s2c == Ratchet(old(s2c)).0
      ensures var f := Emit(old(State()), frameType, flags, text);
              ok == f.Ok? && sent == old(sent) + (if ok then [f.value] else [])
    {
      var key := NextKey();
      var frame := EncodeFrame(key, nonceSalt, frameType, flags, epoch, s2cSeq, text);
      ok := frame.Ok?;
      if ok {
        sent := sent + [frame.value];
      }
    }

    /** The key update: announce the new point under the old chain, then adopt the new keys. */
    method RotateKeys(newPk: Point, clientPk: Point) returns (ok: bool)
      modifies this
      ensures var f := Emit(old(State()), Control, 0, EncodeControl(KeyUpdate(newPk)));
              ok == f.Ok? && sent == old(sent) + (if ok then [f.value] else [])
      ensures ok ==> State() == Rotated(old(State()), newPk, clientPk)
    {
      var step := DhStep(currentRoot, newPk, clientPk);
      ok := SendFrame(Control, 0, EncodeControl(KeyUpdate(newPk)));
      if ok {
        currentRoot, s2c, c2s, nonceSalt := step.0, step.1.s2c, step.1.c2s, step.1.salt;
        epoch, s2cSeq, chunksSinceUpdate := NextEpoch(epoch), 0, 0;
      }
    }

    /** One chunk, followed by a key update when the period is over. */
    method StreamChunk(t: Turn, text: Text, n: nat) returns (ok: bool)
      modifies this
      ensures var p := ChunkRound(old(State()), t, text, n);
              ok == p.ok && sent == old(sent) + p.frames && (ok ==> State() == p.st)
    {
      ok := SendFrame(Data, 0, text);
      if ok {
        s2cSeq, chunksSinceUpdate := s2cSeq + 1, chunksSinceUpdate + 1;
        assert State() == Advanced(old(State()));
        if t.every > 0 && chunksSinceUpdate >= t.every {
          ok := RotateKeys(t.ks.newPk(n), t.ks.clientPk);
        }
      }
    }

    /** Stream the chunks, rotating the keys every `t.every` of them, then mark the end of the turn.
        `ok` is false when a chunk is too long for a record: the session then ends without the marker. */
    method ServeTurn(t: Turn) returns (ok: bool)
      requires sent == []
      modifies this
      ensures (sent, ok) == StreamFrom(old(State()), t, 0, 0)
    {
      ghost var whole := StreamFrom(State(), t, 0, 0);
      PrependTwice([], [], whole);
      var n, c := 0, 0;
      while c < |t.chunks|
        invariant c <= |t.chunks|
        invariant whole == Prepend(sent, StreamFrom(State(), t, c, n))
      {
        ghost var st, before := State(), sent;
        var drawn := Drawn(State(), t, n);
        ok := StreamChunk(t, t.chunks[c], n);
        ghost var p := ChunkRound(st, t, t.chunks[c], n);
        if !ok {
          assert whole == (before + p.frames, false);
          return;
        }
        n := drawn;
        c := c + 1;
        PrependTwice(before, p.frames, StreamFrom(p.st, t, c, n));
      }
      ok := SendFrame(Data, END_OF_TURN, []);
    }
  }

  /** The stream holds the keys of epoch `n`, its `s2cSeq`-th s2c key being the next. */
  predicate InEpoch(t: Turn, st: TeeState, n: nat) {
    && st.root == RootAt(t.ks, n)
    && st.salt == DeriveInitialKeys(st.root).salt
    && st.s2c == ChainAt(DeriveInitialKeys(st.root).s2c, st.s2cSeq)
    && st.epoch == EpochAt(n)
    && st.sinceUpdate == st.s2cSeq
  }

  lemma EmitIsFrame(t: Turn, st: TeeState, n: nat)
    requires ValidTurn(t) && InEpoch(t, st, n) && !ItemAt(t, n, st.s2cSeq).Nothing?
    ensures var item := ItemAt(t, n, st.s2cSeq);
            Emit(st, ItemType(item), ItemFlags(item), Payload(t, n, item)) == Ok(FrameAt(t, n, st.s2cSeq))
  {
    PlaceEncodes(t, n, st.s2cSeq);
  }

  lemma RotatedEntersEpoch(t: Turn, st: TeeState, n: nat)
    requires InEpoch(t, st, n)
    ensures InEpoch(t, Rotated(st, t.ks.newPk(n), t.ks.clientPk), n + 1)
  {
    var root := RootAt(t.ks, n + 1);
    assert root == DhStep(st.root, t.ks.newPk(n), t.ks.clientPk).0;
    assert ChainAt(DeriveInitialKeys(root).s2c, 0) == DeriveInitialKeys(root).s2c;
  }

  lemma FramesJoin(t: Turn, a: seq<Place>, b: seq<Place>)
    ensures Frames(t, a + b) == Frames(t, a) + Frames(t, b)
  {
    forall k | 0 <= k < |a + b| ensures Frames(t, a + b)[k] == (Frames(t, a) + Frames(t, b))[k] {
      assert (a + b)[k] == if k < |a| then a[k] else b[k - |a|];
    }
  }

  /** A round without key update sends the frame of one place. */
  lemma QuietRound(t: Turn, st: TeeState, c: nat, n: nat)
    requires ValidTurn(t) && InEpoch(t, st, n) && Streaming(t, c, n, st.s2cSeq) && c < Sendable(t.chunks)
    requires !Rotates(t, st.s2cSeq)
    ensures ChunkRound(st, t, t.chunks[c], n) == Progress([FrameAt(t, n, st.s2cSeq)], Advanced(st), true)
    ensures InEpoch(t, Advanced(st), n) && Streaming(t, c + 1, n, st.s2cSeq + 1) && Drawn(st, t, n) == n
  {
    hide EncodeFrame, Streaming, ItemAt;
    NextChunk(t, c, n, st.s2cSeq);
    EmitIsFrame(t, st, n);
  }

  /** A round with key update sends the frames of two places and enters the next epoch. */
  lemma RotatingRound(t: Turn, st: TeeState, c: nat, n: nat)
    requires ValidTurn(t) && InEpoch(t, st, n) && Streaming(t, c, n, st.s2cSeq) && c < Sendable(t.chunks)
    requires Rotates(t, st.s2cSeq)
    ensures var st' := Rotated(Advanced(st), t.ks.newPk(n), t.ks.clientPk);
            && ChunkRound(st, t, t.chunks[c], n)
               == Progress([FrameAt(t, n, st.s2cSeq), FrameAt(t, n, st.s2cSeq + 1)], st', true)
            && InEpoch(t, st', n + 1) && Streaming(t, c + 1, n + 1, 0) && Drawn(st, t, n) == n + 1
  {
    hide EncodeFrame, Streaming, ItemAt;
    NextChunk(t, c, n, st.s2cSeq);
    EmitIsFrame(t, st, n);
    var st1 := Advanced(st);
    assert InEpoch(t, st1, n);
    EmitIsFrame(t, st1, n);
    RotatedEntersEpoch(t, st1, n);
  }

  lemma LongChunkStops(t: Turn, st: TeeState, text: Text, n: nat)
    requires |text| > MAX_PLAINTEXT_PER_RECORD
    ensures ChunkRound(st, t, text, n) == Progress([], st, false)
  {
  }

  lemma MarkerIsFrame(t: Turn, st: TeeState, n: nat)
    requires ValidTurn(t) && InEpoch(t, st, n) && Streaming(t, |t.chunks|, n, st.s2cSeq)
    ensures Sendable(t.chunks) == |t.chunks|
    ensures Emit(st, Data, END_OF_TURN, []) == Ok(FrameAt(t, n, st.s2cSeq))
  {
    hide EncodeFrame;
    assert ItemAt(t, n, st.s2cSeq) == EndOfTurn;
    EmitIsFrame(t, st, n);
  }

  /** The scheduled frames from chunk `c` on start with those of its round. */
  lemma ScheduledRound(t: Turn, c: nat, n: nat, i: nat)
    requires c < Sendable(t.chunks)
    ensures Frames(t, Schedule(t, c, n, i))
            == if Rotates(t, i)
               then [FrameAt(t, n, i), FrameAt(t, n, i + 1)] + Frames(t, Schedule(t, c + 1, n + 1, 0))
               else [FrameAt(t, n, i)] + Frames(t, Schedule(t, c + 1, n, i + 1))
  {
    hide FrameAt;
    assert Frames(t, [Place(n, i)]) == [FrameAt(t, n, i)];
    if Rotates(t, i) {
      assert Frames(t, [Place(n, i), Place(n, i + 1)]) == [FrameAt(t, n, i), FrameAt(t, n, i + 1)];
      FramesJoin(t, [Place(n, i), Place(n, i + 1)], Schedule(t, c + 1, n + 1, 0));
    } else {
      FramesJoin(t, [Place(n, i)], Schedule(t, c + 1, n, i + 1));
    }
  }

  lemma ScheduleEnds(t: Turn, c: nat, n: nat, i: nat)
    requires Sendable(t.chunks) <= c <= |t.chunks|
    ensures Frames(t, Schedule(t, c, n, i)) == if c == |t.chunks| then [FrameAt(t, n, i)] else []
  {
  }

  /** The loop sends exactly the frames of the schedule, and reaches the marker exactly when every chunk fits a record. */
  lemma {:induction false} StreamFollowsSchedule(t: Turn, st: TeeState, c: nat, n: nat)
    requires ValidTurn(t) && InEpoch(t, st, n) && Streaming(t, c, n, st.s2cSeq)
    ensures StreamFrom(st, t, c, n) == (Frames(t, Schedule(t, c, n, st.s2cSeq)), Sendable(t.chunks) == |t.chunks|)
    decreases |t.chunks| - c
  {
    hide FrameAt, Emit, ChunkRound, InEpoch, ValidTurn, ItemAt, Pos, Schedule, Frames, DhStep;
    var i := st.s2cSeq;
    if c == |t.chunks| {
      MarkerIsFrame(t, st, n);
      ScheduleEnds(t, c, n, i);
    } else if c == Sendable(t.chunks) {
      ScheduleEnds(t, c, n, i);
      LongChunkStops(t, st, t.chunks[c], n);
    } else {
      ScheduledRound(t, c, n, i);
      if Rotates(t, i) {
        RotatingRound(t, st, c, n);
        StreamFollowsSchedule(t, Rotated(Advanced(st), t.ks.newPk(n), t.ks.clientPk), c + 1, n + 1);
      } else {
        QuietRound(t, st, c, n);
        StreamFollowsSchedule(t, Advanced(st), c + 1, n);
      }
    }
  }

  lemma ServedTurnIsSent(t: Turn)
    requires ValidTurn(t)
    ensures StreamFrom(Started(t.ks.root), t, 0, 0) == (Sent(t), Sendable(t.chunks) == |t.chunks|)
  {
    StreamFollowsSchedule(t, Started(t.ks.root), 0, 0);
  }

  // ---------------------------------------------------------------- one key, one frame

  /** The `k`-th frame of the turn is sealed with key `i` of epoch `n` and carries the number `i`. */
  lemma SentFrameAtPlace(t: Turn, k: nat) returns (p: Place)
    requires ValidTurn(t) && k < |Sent(t)|
    ensures p == Schedule(t, 0, 0, 0)[k] && !ItemAt(t, p.n, p.i).Nothing?
    ensures Sent(t)[k] == FrameAt(t, p.n, p.i) && EncodeAt(t, p.n, p.i) == Ok(Sent(t)[k])
    ensures Sent(t)[k].body.Sealed? && Sent(t)[k].body.key == RecordKey(RootAt(t.ks, p.n), S2C, p.i)
    ensures Sent(t)[k].body.nonce == Nonce(DeriveInitialKeys(RootAt(t.ks, p.n)).salt, EpochAt(p.n), p.i)
  {
    hide Payload, ItemType, ItemFlags, WriteHeader, NewHeader, RootAt, RecordKey, DeriveInitialKeys;
    p := Schedule(t, 0, 0, 0)[k];
    ScheduleSends(t, 0, 0, 0, k);
    PlaceEncodes(t, p.n, p.i);
  }

  /** No key seals two frames of a turn, and no frame of the other direction in any epoch. */
  lemma NoKeySealsTwoFrames(t: Turn, k: nat, l: nat, m: nat, j: nat)
    requires ValidTurn(t) && k < l < |Sent(t)|
    ensures Sent(t)[k].body.Sealed? && Sent(t)[l].body.Sealed? && Sent(t)[k].body.key != Sent(t)[l].body.key
    ensures Sent(t)[k].body.key != RecordKey(RootAt(t.ks, m), C2S, j)
  {
    var p := SentFrameAtPlace(t, k);
    var q := SentFrameAtPlace(t, l);
    ScheduleIncreases(t, 0, 0, 0);
    assert Before(p, q);
    if Sent(t)[k].body.key == Sent(t)[l].body.key {
      RecordKeysDistinct(t.ks, p.n, S2C, p.i, t.ks, q.n, S2C, q.i);
    }
    if Sent(t)[k].body.key == RecordKey(RootAt(t.ks, m), C2S, j) {
      RecordKeysDistinct(t.ks, p.n, S2C, p.i, t.ks, m, C2S, j);
    }
  }
}
