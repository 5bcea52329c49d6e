/** The 64-slot sliding anti-replay window of the record layer.
    A `u64` is a natural number below 2^64; the three word operations the window uses are
    defined on the binary digits, least significant first. */
module Replay {
  import opened Bytes

  const WINDOW_BITS: nat := 64
  const U64_MAX: nat := 0xFFFF_FFFF_FFFF_FFFF

  // ---------------------------------------------------------------- machine words

  /** `word >> gap` */
  function ShiftRight(word: nat, gap: nat): nat
    decreases gap
  {
    if gap == 0 then word else ShiftRight(word / 2, gap - 1)
  }

  /** `word | (1 << b)` */
  function SetBit(word: nat, b: nat): nat
    decreases b
  {
    if b == 0 then (if word % 2 == 1 then word else word + 1)
    else 2 * SetBit(word / 2, b - 1) + word % 2
  }

  lemma {:induction false} ShiftedBit(word: nat, gap: nat, b: nat)
    ensures Bit(ShiftRight(word, gap), b) == Bit(word, gap + b)
    decreases gap
  {
    if gap > 0 {
      ShiftedBit(word / 2, gap - 1, b);
    }
  }

  lemma {:induction false} SettledBit(word: nat, b: nat, c: nat)
    ensures Bit(SetBit(word, b), c) == (Bit(word, c) || c == b)
    decreases b
  {
    if b > 0 && c > 0 {
      assert SetBit(word, b) / 2 == SetBit(word / 2, b - 1);
      SettledBit(word / 2, b - 1, c - 1);
    } else if c > 0 {
      assert SetBit(word, b) / 2 == word / 2;
    }
  }

  // ---------------------------------------------------------------- the window

  datatype Window = Window(high: nat, bitmap: nat, seenZeroAtInit: bool)

  datatype Verdict = Accepted | SeqGap(gap: nat) | Replayed(seqNo: nat)

  const EMPTY := Window(0, 0, false)

  /** One call of `check_and_update`, on values. */
  function Check(w: Window, s: nat): (r: (Window, Verdict)) {
    if s > w.high then
      var gap := s - w.high;
      if gap > U64_MAX / 2 then (w, SeqGap(gap))
      else
        var slid := if gap >= WINDOW_BITS then 0 else ShiftRight(w.bitmap, gap);
        (Window(s, SetBit(slid, WINDOW_BITS - 1), w.seenZeroAtInit), Accepted)
    else if s == 0 && w.high == 0 then
      if w.seenZeroAtInit then (w, Replayed(0))
      else (Window(0, SetBit(w.bitmap, WINDOW_BITS - 1), true), Accepted)
    else
      var diff := w.high - s;
      if diff >= WINDOW_BITS then (w, SeqGap(diff))
      else if Bit(w.bitmap, WINDOW_BITS - 1 - diff) then (w, Replayed(s))
      else (w.(bitmap := SetBit(w.bitmap, WINDOW_BITS - 1 - diff)), Accepted)
  }

  /** The window as the record layer holds it: three fields updated in place. */
  class ReplayWindow {
    var high: nat
    var bitmap: nat
    var seenZeroAtInit: bool

    function Value(): Window
      reads this
    {
      Window(high, bitmap, seenZeroAtInit)
    }

    constructor ()
      ensures Value() == EMPTY
    {
      high, bitmap, seenZeroAtInit := 0, 0, false;
    }

    method CheckAndUpdate(s: nat) returns (v: Verdict)
      modifies this
      ensures (Value(), v) == Check(old(Value()), s)
    {
      if s > high {
        var gap := s - high;
        if gap > U64_MAX / 2 {
          return SeqGap(gap);
        }
        if gap >= WINDOW_BITS {
          bitmap := 0;
        } else {
          bitmap := ShiftRight(bitmap, gap);
        }
        bitmap := SetBit(bitmap, WINDOW_BITS - 1);
        high := s;
        return Accepted;
      }
      if s == 0 && high == 0 {
        if seenZeroAtInit {
          return Replayed(0);
        }
        seenZeroAtInit := true;
        bitmap := SetBit(bitmap, WINDOW_BITS - 1);
        return Accepted;
      }
      var diff := high - s;
      if diff >= WINDOW_BITS {
        return SeqGap(diff);
      }
      var bit := WINDOW_BITS - 1 - diff;
      if Bit(bitmap, bit) {
        return Replayed(s);
      }
      bitmap := SetBit(bitmap, bit);
      return Accepted;
    }
  }

  // ---------------------------------------------------------------- the simple form it refines

  /** The set of numbers accepted so far, with its maximum (0 when empty). */
  datatype Ledger = Ledger(accepted: set<nat>, top: nat)

  const NOTHING := Ledger({}, 0)

  /** What the window promises: at most half the number range ahead of the highest number,
      or among the last 64 and never accepted before. */
  predicate Acceptable(l: Ledger, s: nat) {
    if s > l.top then s - l.top <= U64_MAX / 2
    else l.top - s < WINDOW_BITS && s !in l.accepted
  }

  function Record(l: Ledger, s: nat): Ledger {
    if !Acceptable(l, s) then l
    else Ledger(l.accepted + {s}, if s > l.top then s else l.top)
  }

  /** Bit `b` stands for the number `top - (63 - b)`. */
  predicate Marks(l: Ledger, b: nat) {
    b < WINDOW_BITS && WINDOW_BITS - 1 - b <= l.top && l.top - (WINDOW_BITS - 1 - b) in l.accepted
  }

  /** The bitmap is a 64-bit word that holds exactly the last 64 numbers of the ledger. */
  ghost predicate Refines(w: Window, l: Ledger) {
    && w.high == l.top
    && (forall x :: x in l.accepted ==> x <= l.top)
    && (l.top > 0 ==> l.top in l.accepted)
    && (l.top == 0 ==> (w.seenZeroAtInit <==> 0 in l.accepted))
    && (forall b: nat :: Bit(w.bitmap, b) <==> Marks(l, b))
  }

  lemma {:induction false} ZeroHasNoBits(b: nat)
    ensures !Bit(0, b)
  {
    if b > 0 {
      ZeroHasNoBits(b - 1);
    }
  }

  lemma EmptyRefinesNothing()
    ensures Refines(EMPTY, NOTHING)
  {
    forall b: nat ensures !Bit(0, b) {
      ZeroHasNoBits(b);
    }
  }

  /** Sliding the bitmap down by the gap and marking the new top keeps window and ledger in step. */
  lemma AdvanceRefines(w: Window, l: Ledger, s: nat)
    requires Refines(w, l)
    requires s > w.high && s - w.high <= U64_MAX / 2
    ensures Refines(Check(w, s).0, Record(l, s))
  {
    var gap := s - w.high;
    var slid := if gap >= WINDOW_BITS then 0 else ShiftRight(w.bitmap, gap);
    forall b: nat ensures Bit(SetBit(slid, WINDOW_BITS - 1), b) <==> Marks(Record(l, s), b) {
      SettledBit(slid, WINDOW_BITS - 1, b);
      if gap >= WINDOW_BITS {
        ZeroHasNoBits(b);
      } else {
        ShiftedBit(w.bitmap, gap, b);
        assert Bit(slid, b) <==> Marks(l, gap + b);
      }
    }
  }

  /** One call: the verdict is the one the set dictates, and the two stay in step. */
  lemma CheckRefines(w: Window, l: Ledger, s: nat)
    requires Refines(w, l)
    ensures Check(w, s).1.Accepted? <==> Acceptable(l, s)
    ensures Refines(Check(w, s).0, Record(l, s))
  {
    if s > w.high {
      if s - w.high <= U64_MAX / 2 {
        AdvanceRefines(w, l, s);
      }
    } else if w.high - s < WINDOW_BITS {
      var bit := WINDOW_BITS - 1 - (w.high - s);
      assert Bit(w.bitmap, bit) <==> Marks(l, bit);
      assert Marks(l, bit) <==> s in l.accepted;
      if s !in l.accepted {
        forall b: nat ensures Bit(SetBit(w.bitmap, bit), b) <==> Marks(Record(l, s), b) {
          SettledBit(w.bitmap, bit, b);
        }
      }
    }
  }

  /** And what a refusal says: too far ahead or behind the last 64, with the distance, or seen before. */
  lemma RefusalSays(w: Window, l: Ledger, s: nat)
    requires Refines(w, l) && !Acceptable(l, s)
    ensures Check(w, s) == (w, if s > l.top then SeqGap(s - l.top) else if l.top - s >= 64 then SeqGap(l.top - s) else Replayed(s))
  {
    if s <= w.high && w.high - s < WINDOW_BITS {
      var bit := WINDOW_BITS - 1 - (w.high - s);
      assert Bit(w.bitmap, bit) <==> Marks(l, bit);
    }
  }

  // ---------------------------------------------------------------- whole runs

  function Verdicts(w: Window, calls: seq<nat>): seq<bool>
    decreases |calls|
  {
    if calls == [] then []
    else [Check(w, calls[0]).1.Accepted?] + Verdicts(Check(w, calls[0]).0, calls[1..])
  }

  function Promised(l: Ledger, calls: seq<nat>): seq<bool>
    decreases |calls|
  {
    if calls == [] then []
    else [Acceptable(l, calls[0])] + Promised(Record(l, calls[0]), calls[1..])
  }

  /** Over every call sequence the bitmap answers as the set of accepted numbers does. */
  lemma {:induction false} WindowRefinesLedger(w: Window, l: Ledger, calls: seq<nat>)
    requires Refines(w, l)
    ensures Verdicts(w, calls) == Promised(l, calls)
    decreases |calls|
  {
    if calls != [] {
      CheckRefines(w, l, calls[0]);
      WindowRefinesLedger(Check(w, calls[0]).0, Record(l, calls[0]), calls[1..]);
    }
  }

  /** A number already in the ledger is never promised again. */
  lemma {:induction false} NeverPromisedAgain(l: Ledger, calls: seq<nat>, j: nat)
    requires forall x :: x in l.accepted ==> x <= l.top
    requires j < |calls| && calls[j] in l.accepted
    ensures |Promised(l, calls)| == |calls| && !Promised(l, calls)[j]
    decreases |calls|
  {
    if j > 0 {
      NeverPromisedAgain(Record(l, calls[0]), calls[1..], j - 1);
    } else {
      PromisedLength(l, calls);
    }
  }

  lemma {:induction false} PromisedLength(l: Ledger, calls: seq<nat>)
    ensures |Promised(l, calls)| == |calls|
    decreases |calls|
  {
    if calls != [] {
      PromisedLength(Record(l, calls[0]), calls[1..]);
    }
  }

  lemma {:induction false} PromisedOnce(l: Ledger, calls: seq<nat>, i: nat, j: nat)
    requires forall x :: x in l.accepted ==> x <= l.top
    requires i < j < |calls| && calls[i] == calls[j]
    ensures |Promised(l, calls)| == |calls| && !(Promised(l, calls)[i] && Promised(l, calls)[j])
    decreases |calls|
  {
    PromisedLength(l, calls);
    if i > 0 {
      PromisedOnce(Record(l, calls[0]), calls[1..], i - 1, j - 1);
    } else if Acceptable(l, calls[0]) {
      NeverPromisedAgain(Record(l, calls[0]), calls[1..], j - 1);
    }
  }

  /** No sequence of calls on a new window gets the same number accepted twice. */
  lemma NoNumberAcceptedTwice(calls: seq<nat>, i: nat, j: nat)
    requires i < j < |calls| && calls[i] == calls[j]
    ensures |Verdicts(EMPTY, calls)| == |calls|
    ensures !(Verdicts(EMPTY, calls)[i] && Verdicts(EMPTY, calls)[j])
  {
    EmptyRefinesNothing();
    WindowRefinesLedger(EMPTY, NOTHING, calls);
    PromisedOnce(NOTHING, calls, i, j);
  }
}
