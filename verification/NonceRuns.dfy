/** Whole runs of the nonce registry against an unbounded log of its acceptances. */
module NonceRuns {
  import opened Lru
  import opened NonceRegistry
  import opened Recency

  /** The registry, the nonces accepted so far with their instants and whether each was still in the table then, the
      last instant seen, and the last one below the time to live. */
  datatype Run = Run(state: State, log: seq<Nonce>, times: seq<real>, held: seq<bool>, clock: real, early: real)

  const BEGUN := Run(EMPTY, [], [], [], 0.0, 0.0)

  datatype Call = Call(nonce: Nonce, now: real)

  function EarlyAt(r: Run, lim: Limits, now: real): real {
    if now < lim.ttl then now else r.early
  }

  ghost predicate Rejects(r: Run, lim: Limits, c: Call)
    requires Numbered(r.state.seen)
  {
    !Observed(r.state, lim, c.nonce, c.now).1
  }

  ghost function After(r: Run, lim: Limits, c: Call): Run
    requires Numbered(r.state.seen)
  {
    Run(Observed(r.state, lim, c.nonce, c.now).0,
        if Rejects(r, lim, c) then r.log else r.log + [c.nonce],
        if Rejects(r, lim, c) then r.times else r.times + [c.now],
        if Rejects(r, lim, c) then r.held else r.held + [c.nonce in Swept(r.state, Cutoff(lim, c.now)).seen],
        c.now, EarlyAt(r, lim, c.now))
  }

  // ---------------------------------------------------------------- the invariant

  /** Acceptance `j` pushed out the nonce of position `i`: nonce `j` was still in the table, at its boundary and last
      accepted before `i`, and with it the table was full of those accepted since `i`. */
  ghost predicate PushedAt(r: Run, lim: Limits, i: nat, j: nat) {
    && i < j < |r.log| == |r.held|
    && r.held[j] && |Others(r.log[..j], i)| == lim.max - 2 && r.log[j] !in Others(r.log[..j], i)
  }

  ghost predicate Pushed(r: Run, lim: Limits, i: nat) {
    exists j: nat :: PushedAt(r, lim, i, j)
  }

  /** Why a nonce last accepted at position `i` may be gone: too old, crowded out by `max` others, pushed out by one
      at its boundary, or swept at an instant below the time to live. */
  ghost predicate Forgettable(r: Run, lim: Limits, i: nat)
    requires i < |r.log| == |r.times|
  {
    || r.clock - r.times[i] >= lim.ttl
    || |Others(r.log, i)| >= lim.max
    || Pushed(r, lim, i)
    || r.times[i] < r.early
  }

  /** Each tracked nonce points at its last acceptance. */
  ghost predicate Linked(s: State, log: seq<Nonce>, times: seq<real>) {
    && s.next == |log| == |times|
    && forall k :: k in s.seen ==> LinkedTo(s.seen[k], log, times, k)
  }

  ghost predicate LinkedTo(stamp: Stamp, log: seq<Nonce>, times: seq<real>, k: Nonce)
    requires |log| == |times|
  {
    IsLast(log, stamp.order) && log[stamp.order] == k && times[stamp.order] == stamp.at
  }

  ghost predicate TimesOrdered(times: seq<real>, clock: real) {
    && (forall i :: 0 <= i < |times| ==> times[i] <= clock)
    && (forall i, j :: 0 <= i < j < |times| ==> times[i] <= times[j])
  }

  ghost predicate Remembers(r: Run, lim: Limits)
    requires |r.log| == |r.times|
  {
    forall i: nat :: IsLast(r.log, i) && r.log[i] !in r.state.seen ==> Forgettable(r, lim, i)
  }

  ghost predicate NonePushed(r: Run, lim: Limits) {
    forall i: nat :: IsLast(r.log, i) && r.log[i] in r.state.seen ==> !Pushed(r, lim, i)
  }

  /** Whoever was accepted after a tracked nonce is tracked. */
  ghost predicate Together(s: State, log: seq<Nonce>) {
    forall i: nat :: IsLast(log, i) && log[i] in s.seen ==> Others(log, i) <= s.seen.Keys
  }

  ghost predicate Inv(r: Run, lim: Limits) {
    && Valid(r.state, r.clock) && |r.state.seen| <= lim.max && Together(r.state, r.log)
    && Linked(r.state, r.log, r.times) && TimesOrdered(r.times, r.clock) && Remembers(r, lim)
    && NonePushed(r, lim) && |r.held| == |r.log|
    && r.early <= r.clock && r.early < lim.ttl
    && (forall k :: k in r.state.seen ==> r.state.seen[k].at >= r.early)
  }

  // ---------------------------------------------------------------- the sweep

  ghost function SweptRun(r: Run, lim: Limits, now: real): Run {
    Run(Swept(r.state, Cutoff(lim, now)), r.log, r.times, r.held, now, EarlyAt(r, lim, now))
  }

  lemma SweptSize(s: State, cutoff: real)
    ensures |Swept(s, cutoff).seen| <= |s.seen|
  {
    SubsetSize(Swept(s, cutoff).seen.Keys, s.seen.Keys);
  }

  lemma SweptRemembers(r: Run, lim: Limits, now: real)
    requires Inv(r, lim) && r.clock <= now
    ensures Remembers(SweptRun(r, lim, now), lim)
  {
    hide Valid, Others, TimesOrdered;
    var q := SweptRun(r, lim, now);
    forall i: nat | IsLast(q.log, i) && q.log[i] !in q.state.seen ensures Forgettable(q, lim, i) {
      var n := q.log[i];
      SamePushed(r, q, lim, i);
      if n in r.state.seen {
        SameLast(r.log, i, r.state.seen[n].order);
      }
    }
  }

  lemma SamePushed(r: Run, q: Run, lim: Limits, i: nat)
    requires r.log == q.log && r.held == q.held
    ensures Pushed(r, lim, i) <==> Pushed(q, lim, i)
  {
    assert forall j: nat :: PushedAt(r, lim, i, j) <==> PushedAt(q, lim, i, j);
  }

  lemma SweptNonePushed(r: Run, lim: Limits, now: real)
    requires Inv(r, lim)
    ensures NonePushed(SweptRun(r, lim, now), lim)
  {
    hide Valid, Others, TimesOrdered, Linked, Together, Remembers;
    var q := SweptRun(r, lim, now);
    forall i: nat | IsLast(q.log, i) && q.log[i] in q.state.seen ensures !Pushed(q, lim, i) {
      SamePushed(r, q, lim, i);
    }
  }

  /** A later acceptance of another nonce has a later stamp. */
  lemma OtherIsLater(s: State, log: seq<Nonce>, times: seq<real>, i: nat, k: Nonce)
    requires Linked(s, log, times) && IsLast(log, i) && k in Others(log, i) && k in s.seen && log[i] in s.seen
    ensures s.seen[log[i]].order == i < s.seen[k].order && times[i] == s.seen[log[i]].at
    ensures times[s.seen[k].order] == s.seen[k].at
  {
    assert LinkedTo(s.seen[log[i]], log, times, log[i]) && LinkedTo(s.seen[k], log, times, k);
    SameLast(log, i, s.seen[log[i]].order);
  }

  lemma SweptTogether(r: Run, lim: Limits, now: real)
    requires Inv(r, lim) && r.clock <= now
    ensures Together(SweptRun(r, lim, now).state, r.log)
  {
    hide Valid, Remembers, Linked, Others;
    var q := SweptRun(r, lim, now);
    forall i: nat, k | IsLast(r.log, i) && r.log[i] in q.state.seen && k in Others(r.log, i) ensures k in q.state.seen {
      OtherIsLater(r.state, r.log, r.times, i, k);
      StampWithin(r.state, r.log, r.times, k);
      StampWithin(r.state, r.log, r.times, r.log[i]);
    }
  }

  lemma StampWithin(s: State, log: seq<Nonce>, times: seq<real>, k: Nonce)
    requires Linked(s, log, times) && k in s.seen
    ensures s.seen[k].order < |log| == |times|
  {
    assert LinkedTo(s.seen[k], log, times, k);
  }

  lemma SweptInv(r: Run, lim: Limits, now: real)
    requires Inv(r, lim) && r.clock <= now
    ensures Inv(SweptRun(r, lim, now), lim)
  {
    hide Coherent, IsLast, Remembers, Together, Pushed;
    LaterKeepsCoherent(r.state.seen, r.state.lru, r.state.next, r.clock, now);
    SweptValid(r.state, Cutoff(lim, now), now);
    SweptSize(r.state, Cutoff(lim, now));
    SweptRemembers(r, lim, now);
    SweptTogether(r, lim, now);
    SweptNonePushed(r, lim, now);
    hide Valid, NonePushed;
  }

  // ---------------------------------------------------------------- an acceptance

  ghost function Accepted(r: Run, lim: Limits, n: Nonce): Run
    requires Numbered(r.state.seen)
  {
    Run(Inserted(Room(r.state, lim, n), n, r.clock), r.log + [n], r.times + [r.clock], r.held + [n in r.state.seen],
        r.clock, r.early)
  }

  /** What making room leaves: everything but the nonce itself and, at the cap, the least recent of the others. */
  lemma RoomShape(s: State, lim: Limits, n: Nonce, k: Nonce)
    requires Numbered(s.seen)
    ensures var room := Room(s, lim, n).seen;
            && (k in room ==> k in s.seen && k != n && room[k] == s.seen[k])
            && (k in s.seen && k != n && k !in room ==> |s.seen| >= lim.max && LeastRecent(s.seen - {n}, k))
  {
    WithoutShape(s, n);
    var others := Without(s, n);
    if others.seen != map[] {
      LeastRecentExists(others.seen);
    }
  }

  lemma WithoutSize(s: State, n: Nonce)
    ensures |Without(s, n).seen| == if n in s.seen then |s.seen| - 1 else |s.seen|
  {
    WithoutShape(s, n);
    if n in s.seen {
      assert s.seen.Keys == Without(s, n).seen.Keys + {n};
    }
  }

  lemma InsertedSize(s: State, n: Nonce, now: real)
    requires n !in s.seen
    ensures |Inserted(s, n, now).seen| == |s.seen| + 1
  {
    assert Inserted(s, n, now).seen.Keys == s.seen.Keys + {n};
  }

  lemma RoomSize(s: State, lim: Limits, n: Nonce)
    requires Numbered(s.seen) && |s.seen| <= lim.max && lim.Proper()
    ensures |Room(s, lim, n).seen| < lim.max
  {
    hide Without;
    WithoutSize(s, n);
    WithoutShape(s, n);
    var others := Without(s, n);
    if others.seen != map[] {
      LeastRecentExists(others.seen);
      WithoutSize(others, Victim(others.seen));
    }
    hide Numbered, LeastRecent;
  }

  lemma RoomDrops(s: State, lim: Limits, n: Nonce, k: Nonce)
    requires Numbered(s.seen) && k in s.seen && k != n
    ensures k !in Room(s, lim, n).seen <==> |s.seen| >= lim.max && LeastRecent(s.seen - {n}, k)
  {
    WithoutShape(s, n);
    RoomShape(s, lim, n, k);
    if |s.seen| >= lim.max && LeastRecent(s.seen - {n}, k) {
      LeastRecentExists(s.seen - {n});
      LeastRecentUnique(s.seen - {n}, k, Victim(s.seen - {n}));
    }
  }

  lemma DisplacedOthers(r: Run, lim: Limits, n: Nonce, k: Nonce)
    requires Inv(r, lim) && k in r.state.seen && k != n && LeastRecent(r.state.seen - {n}, k)
    ensures r.state.seen[k].order < |r.log|
    ensures Others(r.log + [n], r.state.seen[k].order) == r.state.seen.Keys - {k} + {n}
  {
    hide Valid, Remembers, TimesOrdered;
    var s, i := r.state, r.state.seen[k].order;
    assert LinkedTo(s.seen[k], r.log, r.times, k);
    OthersGrow(r.log, n, i);
    OthersAreOther(r.log, i);
    forall x | x in s.seen && x != k && x != n ensures x in Others(r.log, i) {
      assert x in s.seen - {n} && LinkedTo(s.seen[x], r.log, r.times, x);
      assert r.log[s.seen[x].order] == x;
    }
  }

  /** Exactly when an accepted nonce pushes a tracked one out: the table is full and that one is the least recent of the
      others. It then has `max` others behind it, or `max - 1` when the accepted nonce was itself still tracked, at its
      boundary; so `max - 1` is the exact bound. */
  lemma DisplacedIff(r: Run, lim: Limits, n: Nonce, k: Nonce)
    requires Inv(r, lim) && Numbered(r.state.seen) && k in r.state.seen && k != n
    ensures var q := Accepted(r, lim, n); var i := r.state.seen[k].order;
            && (k !in q.state.seen <==> |r.state.seen| == lim.max && LeastRecent(r.state.seen - {n}, k))
            && (k !in q.state.seen ==>
                  i < |q.log| && |Others(q.log, i)| == if n in r.state.seen then lim.max - 1 else lim.max)
  {
    hide Valid, Remembers, Room, TimesOrdered;
    RoomDrops(r.state, lim, n, k);
    if |r.state.seen| == lim.max && LeastRecent(r.state.seen - {n}, k) {
      DisplacedOthers(r, lim, n, k);
      var others := r.state.seen.Keys - {k};
      assert n !in r.state.seen ==> n !in others;
    }
  }

  lemma AcceptedLinked(r: Run, lim: Limits, n: Nonce)
    requires Inv(r, lim) && Numbered(r.state.seen)
    ensures Linked(Accepted(r, lim, n).state, Accepted(r, lim, n).log, Accepted(r, lim, n).times)
  {
    var q := Accepted(r, lim, n);
    hide Room, Others, Valid;
    RoomNext(r.state, lim, n);
    forall k | k in q.state.seen ensures LinkedTo(q.state.seen[k], q.log, q.times, k) {
      RoomShape(r.state, lim, n, k);
    }
  }

  lemma RoomNext(s: State, lim: Limits, n: Nonce)
    requires Numbered(s.seen)
    ensures Room(s, lim, n).next == s.next
  {
    if Without(s, n).seen != map[] {
      LeastRecentExists(Without(s, n).seen);
    }
  }

  /** What pushed a nonce out before an acceptance did so after it, and what did so after it did before or is new. */
  lemma PushedGrows(r: Run, lim: Limits, n: Nonce, i: nat)
    requires Numbered(r.state.seen) && |r.held| == |r.log| && i < |r.log|
    ensures var q := Accepted(r, lim, n);
            Pushed(q, lim, i) <==> Pushed(r, lim, i) || PushedAt(q, lim, i, |r.log|)
  {
    hide Room, Others;
    var q := Accepted(r, lim, n);
    forall j: nat | j < |r.log| ensures PushedAt(q, lim, i, j) <==> PushedAt(r, lim, i, j) {
      assert q.log[..j] == r.log[..j];
    }
  }

  /** The evicted nonce is old, has `max` others behind it, or is pushed out by one at its boundary. */
  lemma EvictedForgettable(r: Run, lim: Limits, n: Nonce, k: Nonce)
    requires Inv(r, lim) && Numbered(r.state.seen) && !Replayed(r.state, lim, n, r.clock)
    requires k in r.state.seen && k != n && k !in Accepted(r, lim, n).state.seen && r.state.seen[k].order < |r.log|
    ensures Forgettable(Accepted(r, lim, n), lim, r.state.seen[k].order)
  {
    hide Room, Valid, Remembers, NonePushed, Together, Pushed;
    var q, i := Accepted(r, lim, n), r.state.seen[k].order;
    assert LinkedTo(r.state.seen[k], r.log, r.times, k);
    DisplacedIff(r, lim, n, k);
    OthersGrow(r.log, n, i);
    PushedGrows(r, lim, n, i);
    hide Others;
    if n in r.state.seen {
      if n in Others(r.log, i) {
        OtherIsLater(r.state, r.log, r.times, i, n);
      } else {
        assert q.log[..|r.log|] == r.log;
      }
    }
  }

  lemma AcceptedRemembers(r: Run, lim: Limits, n: Nonce)
    requires Inv(r, lim) && Numbered(r.state.seen) && !Replayed(r.state, lim, n, r.clock)
    ensures Remembers(Accepted(r, lim, n), lim)
  {
    var q := Accepted(r, lim, n);
    hide Room, Others, Valid, Pushed, Together;
    forall i: nat | IsLast(q.log, i) && q.log[i] !in q.state.seen ensures Forgettable(q, lim, i) {
      var k := q.log[i];
      assert k != n;
      assert i < |r.log| && r.log[i] == q.log[i];
      assert forall j :: i < j < |r.log| ==> r.log[j] == q.log[j];
      assert IsLast(r.log, i);
      OthersGrow(r.log, n, i);
      PushedGrows(r, lim, n, i);
      if k in r.state.seen {
        SameLast(r.log, i, r.state.seen[k].order);
        EvictedForgettable(r, lim, n, k);
      }
    }
  }

  /** A nonce is the least recent of those accepted since. */
  lemma OthersAreLater(s: State, log: seq<Nonce>, times: seq<real>, n: Nonce, i: nat)
    requires Linked(s, log, times) && IsLast(log, i) && log[i] in s.seen && log[i] != n
    requires s.seen.Keys == Others(log, i) + {log[i], n}
    ensures LeastRecent(s.seen - {n}, log[i])
  {
    var k := log[i];
    hide Others, Linked, IsLast;
    forall x | x in s.seen - {n} && x != k ensures s.seen[k].order < s.seen[x].order {
      OtherIsLater(s, log, times, i, x);
    }
  }

  /** A table full of a nonce, those accepted since, and one more: the nonce is the least recent but for that one. */
  lemma FullOfOthers(r: Run, lim: Limits, n: Nonce, i: nat)
    requires Linked(r.state, r.log, r.times) && Together(r.state, r.log) && |r.state.seen| <= lim.max
    requires IsLast(r.log, i) && r.log[i] in r.state.seen && r.log[i] != n && n in r.state.seen
    requires |Others(r.log, i)| == lim.max - 2 && n !in Others(r.log, i)
    ensures |r.state.seen| == lim.max && LeastRecent(r.state.seen - {n}, r.log[i])
  {
    hide Linked, LeastRecent, Others;
    assert Others(r.log, i) <= r.state.seen.Keys;
    OthersAreOther(r.log, i);
    hide Together, IsLast;
    TwoMore(Others(r.log, i), r.log[i], n, r.state.seen.Keys, lim.max);
    OthersAreLater(r.state, r.log, r.times, n, i);
  }

  /** An acceptance that fits the description does push the nonce out. */
  lemma PushedIsGone(r: Run, lim: Limits, n: Nonce, i: nat)
    requires Inv(r, lim) && Numbered(r.state.seen) && IsLast(r.log, i) && r.log[i] != n
    requires PushedAt(Accepted(r, lim, n), lim, i, |r.log|)
    ensures r.log[i] !in Accepted(r, lim, n).state.seen
  {
    hide Valid, Remembers, NonePushed, Room, TimesOrdered, Others, Linked, Together, LeastRecent, IsLast, Numbered;
    RoomShape(r.state, lim, n, r.log[i]);
    if r.log[i] in r.state.seen {
      assert (r.log + [n])[..|r.log|] == r.log;
      FullOfOthers(r, lim, n, i);
      RoomDrops(r.state, lim, n, r.log[i]);
    }
  }

  lemma AcceptedNonePushed(r: Run, lim: Limits, n: Nonce)
    requires Inv(r, lim) && Numbered(r.state.seen)
    ensures NonePushed(Accepted(r, lim, n), lim)
  {
    hide Valid, Remembers, Linked, Others, Room, Pushed, PushedAt, Together, TimesOrdered;
    var q := Accepted(r, lim, n);
    forall i: nat | IsLast(q.log, i) && q.log[i] in q.state.seen ensures !Pushed(q, lim, i) {
      if i == |r.log| {
        NothingPushesLast(q, lim, i);
      } else {
        StillLast(r.log, n, i);
        RoomShape(r.state, lim, n, r.log[i]);
        PushedGrows(r, lim, n, i);
        if PushedAt(q, lim, i, |r.log|) {
          PushedIsGone(r, lim, n, i);
        }
      }
    }
  }

  lemma NothingPushesLast(r: Run, lim: Limits, i: nat)
    requires i + 1 == |r.log|
    ensures !Pushed(r, lim, i)
  {
  }

  lemma AcceptedTogether(r: Run, lim: Limits, n: Nonce)
    requires Inv(r, lim) && Numbered(r.state.seen)
    ensures Together(Accepted(r, lim, n).state, Accepted(r, lim, n).log)
  {
    hide Valid, Remembers, Linked, Others, Room;
    var q := Accepted(r, lim, n);
    forall i: nat | IsLast(q.log, i) && q.log[i] in q.state.seen ensures Others(q.log, i) <= q.state.seen.Keys {
      if i == |r.log| {
        NoOthersAtEnd(q.log);
      } else {
        AcceptedOthers(r, lim, n, i);
      }
    }
  }

  lemma NoOthersAtEnd(log: seq<Nonce>)
    requires log != []
    ensures Others(log, |log| - 1) == {}
  {
  }

  lemma AcceptedOthers(r: Run, lim: Limits, n: Nonce, i: nat)
    requires Inv(r, lim) && Numbered(r.state.seen) && i < |r.log|
    requires IsLast(r.log + [n], i) && r.log[i] in Accepted(r, lim, n).state.seen
    ensures Others(r.log + [n], i) <= Accepted(r, lim, n).state.seen.Keys
  {
    StillLast(r.log, n, i);
    hide Valid, Remembers, Linked, Others, Room, IsLast;
    var k := r.log[i];
    RoomShape(r.state, lim, n, k);
    OthersGrow(r.log, n, i);
    forall x | x in Others(r.log, i) && x != n ensures x in Room(r.state, lim, n).seen {
      RoomShape(r.state, lim, n, x);
      OtherIsLater(r.state, r.log, r.times, i, x);
    }
  }

  lemma AcceptedInv(r: Run, lim: Limits, n: Nonce)
    requires Inv(r, lim) && Numbered(r.state.seen) && lim.Proper() && !Replayed(r.state, lim, n, r.clock)
    ensures Inv(Accepted(r, lim, n), lim)
  {
    AcceptedNonePushed(r, lim, n);
    AcceptedLinked(r, lim, n);
    AcceptedRemembers(r, lim, n);
    AcceptedTogether(r, lim, n);
    RoomSize(r.state, lim, n);
    AcceptedValid(r.state, lim, n, r.clock);
    RoomValid(r.state, lim, n, r.clock);
    hide Valid, Room, Others, IsLast, Remembers, Linked, Together, NonePushed;
    var q := Accepted(r, lim, n);
    forall k | k in q.state.seen ensures q.state.seen[k].at >= q.early {
      RoomShape(r.state, lim, n, k);
    }
    InsertedSize(Room(r.state, lim, n), n, r.clock);
  }

  lemma AcceptedValid(s: State, lim: Limits, n: Nonce, now: real)
    requires Valid(s, now) && Numbered(s.seen)
    ensures Valid(Inserted(Room(s, lim, n), n, now), now)
  {
    hide Coherent, Room;
    RoomValid(s, lim, n, now);
    var room := Room(s, lim, n);
    StampKeepsCoherent(room.seen, room.lru, room.next, now, n);
    assert room.lru - {} == room.lru;
  }

  // ---------------------------------------------------------------- one call

  lemma CallSplits(r: Run, lim: Limits, c: Call)
    requires Inv(r, lim) && r.clock <= c.now && Numbered(r.state.seen)
    ensures var swept := SweptRun(r, lim, c.now);
            && Numbered(swept.state.seen)
            && (Rejects(r, lim, c) <==> Replayed(swept.state, lim, c.nonce, c.now))
            && After(r, lim, c) == if Rejects(r, lim, c) then swept else Accepted(swept, lim, c.nonce)
  {
    hide Room, Swept, Coherent, Inv;
    SweptInv(r, lim, c.now);
    InvNumbered(SweptRun(r, lim, c.now), lim);
  }

  lemma InvNumbered(r: Run, lim: Limits)
    requires Inv(r, lim)
    ensures Numbered(r.state.seen)
  {
    NumberedIfValid(r.state, r.clock);
  }

  lemma CallKeepsInv(r: Run, lim: Limits, c: Call)
    requires Inv(r, lim) && r.clock <= c.now && lim.Proper()
    ensures Numbered(r.state.seen) && Inv(After(r, lim, c), lim)
  {
    hide Inv, After, Accepted, Rejects, Swept;
    InvNumbered(r, lim);
    CallSplits(r, lim, c);
    SweptInv(r, lim, c.now);
    if !Rejects(r, lim, c) {
      AcceptedInv(SweptRun(r, lim, c.now), lim, c.nonce);
    }
  }

  /** A refused nonce was accepted less than the time to live ago. */
  lemma RejectedWasAccepted(r: Run, lim: Limits, c: Call)
    requires Inv(r, lim) && r.clock <= c.now && Numbered(r.state.seen) && Rejects(r, lim, c)
    ensures exists i: nat :: IsLast(r.log, i) && r.log[i] == c.nonce && c.now - r.times[i] < lim.ttl
  {
    CallSplits(r, lim, c);
    assert IsLast(r.log, r.state.seen[c.nonce].order);
  }

  /** Once `max` others were accepted since, a nonce is accepted again, however young its acceptance is. */
  lemma CrowdedOutIsAccepted(r: Run, lim: Limits, c: Call, i: nat)
    requires Inv(r, lim) && r.clock <= c.now && Numbered(r.state.seen)
    requires IsLast(r.log, i) && r.log[i] == c.nonce && |Others(r.log, i)| >= lim.max
    ensures !Rejects(r, lim, c)
  {
    hide After, Accepted, Swept, Valid, Linked, Remembers, TimesOrdered, NonePushed;
    CallSplits(r, lim, c);
    SweptInv(r, lim, c.now);
    var swept := SweptRun(r, lim, c.now);
    OthersAreOther(r.log, i);
    hide Others, IsLast;
    if c.nonce in swept.state.seen {
      SubsetSize(Others(r.log, i) + {c.nonce}, swept.state.seen.Keys);
    }
  }

  /** Exactly when a nonce that was accepted before, at its last acceptance `i`, is refused: less than the time to live
      has passed, no call, this one included, came at a later instant that is still below the time to live, fewer
      than `max` others were accepted since, and none of them, at its boundary, pushed it out of a full table. */
  lemma RejectedIff(r: Run, lim: Limits, c: Call, i: nat)
    requires Inv(r, lim) && r.clock <= c.now && Numbered(r.state.seen)
    requires IsLast(r.log, i) && r.log[i] == c.nonce
    ensures Rejects(r, lim, c)
            <==> && c.now - r.times[i] < lim.ttl && r.times[i] >= EarlyAt(r, lim, c.now)
                 && |Others(r.log, i)| < lim.max && !Pushed(r, lim, i)
  {
    hide After, Accepted, Others, Swept, Valid, Pushed, Rejects, Together;
    CallSplits(r, lim, c);
    SweptInv(r, lim, c.now);
    var swept := SweptRun(r, lim, c.now);
    assert swept.log == r.log;
    SamePushed(r, swept, lim, i);
    if |Others(r.log, i)| >= lim.max {
      CrowdedOutIsAccepted(r, lim, c, i);
    } else if c.nonce in swept.state.seen {
      SameLast(swept.log, i, swept.state.seen[c.nonce].order);
    } else {
      assert Forgettable(swept, lim, i);
    }
  }

  /** A nonce that was pushed out has at least `max - 1` others behind it. */
  lemma PushedIsCrowded(r: Run, lim: Limits, i: nat)
    requires IsLast(r.log, i) && Pushed(r, lim, i)
    ensures |Others(r.log, i)| >= lim.max - 1
  {
    var j: nat :| PushedAt(r, lim, i, j);
    var before := Others(r.log[..j], i);
    forall x | x in before + {r.log[j]} ensures x in Others(r.log, i) {
    }
    hide Others;
    SubsetSize(before + {r.log[j]}, Others(r.log, i));
  }

  // ---------------------------------------------------------------- whole runs

  predicate Ordered(calls: seq<Call>, clock: real) {
    calls == [] || (clock <= calls[0].now && Ordered(calls[1..], calls[0].now))
  }

  ghost function RunOn(r: Run, lim: Limits, calls: seq<Call>): Run
    requires Inv(r, lim) && Ordered(calls, r.clock) && lim.Proper()
    decreases |calls|
  {
    if calls == [] then r
    else
      CallKeepsInv(r, lim, calls[0]);
      RunOn(After(r, lim, calls[0]), lim, calls[1..])
  }

  /** Two acceptances of one nonce less than the time to live apart, the first not below the time to live. */
  predicate CloseRepeat(log: seq<Nonce>, times: seq<real>, lim: Limits, i: nat, j: nat) {
    i < j < |log| == |times| && log[i] == log[j] && times[j] - times[i] < lim.ttl && lim.ttl <= times[i]
  }

  /** Between two such acceptances at least `max - 1` other nonces were accepted. */
  ghost predicate RepeatsCrowded(log: seq<Nonce>, times: seq<real>, lim: Limits) {
    forall i: nat, j: nat :: CloseRepeat(log, times, lim, i, j) ==> |Others(log[..j], i)| >= lim.max - 1
  }

  lemma NewRepeatCrowded(r: Run, lim: Limits, c: Call, i: nat)
    requires Inv(r, lim) && r.clock <= c.now && Numbered(r.state.seen) && !Rejects(r, lim, c)
    requires i < |r.log| && r.log[i] == c.nonce && c.now - r.times[i] < lim.ttl && lim.ttl <= r.times[i]
    ensures |Others(r.log, i)| >= lim.max - 1
  {
    hide Rejects, Others, Valid;
    var last := LastOf(r.log, c.nonce, i);
    assert r.times[i] <= r.times[last];
    OthersShrink(r.log, i, last);
    RejectedIff(r, lim, c, last);
    if Pushed(r, lim, last) {
      PushedIsCrowded(r, lim, last);
    }
  }

  lemma CallKeepsCrowded(r: Run, lim: Limits, c: Call)
    requires Inv(r, lim) && r.clock <= c.now && Numbered(r.state.seen) && RepeatsCrowded(r.log, r.times, lim)
    ensures RepeatsCrowded(After(r, lim, c).log, After(r, lim, c).times, lim)
  {
    hide Rejects, Others, Inv;
    if !Rejects(r, lim, c) {
      var log', times' := After(r, lim, c).log, After(r, lim, c).times;
      forall i: nat, j: nat | CloseRepeat(log', times', lim, i, j) ensures |Others(log'[..j], i)| >= lim.max - 1 {
        if j < |r.log| {
          assert log'[..j] == r.log[..j];
          assert CloseRepeat(r.log, r.times, lim, i, j);
        } else {
          assert log'[..j] == r.log;
          NewRepeatCrowded(r, lim, c, i);
        }
      }
    }
  }

  lemma {:induction false} RunKeeps(r: Run, lim: Limits, calls: seq<Call>)
    requires Inv(r, lim) && Ordered(calls, r.clock) && lim.Proper() && RepeatsCrowded(r.log, r.times, lim)
    ensures var q := RunOn(r, lim, calls);
            Inv(q, lim) && RepeatsCrowded(q.log, q.times, lim)
    decreases |calls|
  {
    hide Inv, RepeatsCrowded, After;
    if calls != [] {
      CallKeepsInv(r, lim, calls[0]);
      CallKeepsCrowded(r, lim, calls[0]);
      ClockAfter(r, lim, calls[0]);
      RunKeeps(After(r, lim, calls[0]), lim, calls[1..]);
    }
  }

  lemma ClockAfter(r: Run, lim: Limits, c: Call)
    requires Numbered(r.state.seen)
    ensures After(r, lim, c).clock == c.now
  {
  }

  lemma BegunInv(lim: Limits)
    requires lim.Proper()
    ensures Inv(BEGUN, lim)
  {
    EmptyCoherent<Nonce>(0.0);
    hide Coherent, Others;
  }

  ghost predicate Reached(lim: Limits, calls: seq<Call>, r: Run) {
    && lim.Proper() && Ordered(calls, BEGUN.clock)
    && (BegunInv(lim); RunOn(BEGUN, lim, calls) == r)
  }

  /** Over every run from an empty registry: the table stays within its cap and its index exact, and a nonce is
      accepted again within the time to live only when at least `max - 1` others were accepted in between. */
  lemma ReplayWindowHolds(lim: Limits, calls: seq<Call>, r: Run)
    requires Reached(lim, calls, r)
    ensures Inv(r, lim) && |r.state.seen| <= lim.max && RepeatsCrowded(r.log, r.times, lim)
  {
    hide RunOn;
    BegunInv(lim);
    assert RepeatsCrowded(BEGUN.log, BEGUN.times, lim);
    RunKeeps(BEGUN, lim, calls);
  }

  /** While the clock is below the time to live the window is lost: the same nonce is accepted at 0 and at 1. */
  lemma EarlyReplayAccepted(n: Nonce)
    ensures var r := BEGUN;
            && Numbered(r.state.seen) && !Rejects(r, LIMITS, Call(n, 0.0))
            && var r1 := After(r, LIMITS, Call(n, 0.0));
            Numbered(r1.state.seen) && !Rejects(r1, LIMITS, Call(n, 1.0))
  {
    var r := BEGUN;
    var s1 := Inserted(EMPTY, n, 0.0);
    assert Room(EMPTY, LIMITS, n) == EMPTY;
    assert Swept(EMPTY, 0.0) == EMPTY;
    assert After(r, LIMITS, Call(n, 0.0)).state == s1;
    assert n !in Swept(s1, 1.0).seen;
  }
}
