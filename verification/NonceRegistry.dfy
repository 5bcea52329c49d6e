/** The TEE's registry of attestation nonces: a nonce is refused while an earlier acceptance of it is younger than
    the time to live, within a bounded table. Instants are non-negative reals. */
module NonceRegistry {
  import opened Bytes
  import opened Lru

  const NONCE_TTL: real := 60.0
  const MAX_TRACKED_NONCES: nat := 131072

  datatype Nonce = Nonce(bytes: seq<Byte>)

  /** The time to live and the cap; the TEE uses `LIMITS`. */
  datatype Limits = Limits(ttl: real, max: nat) {
    predicate Proper() { ttl > 0.0 && max > 0 }
  }

  const LIMITS := Limits(NONCE_TTL, MAX_TRACKED_NONCES)

  datatype State = State(seen: map<Nonce, Stamp>, lru: set<Row<Nonce>>, next: nat)

  const EMPTY := State(map[], {}, 0)

  ghost predicate Valid(s: State, now: real) {
    Coherent(s.seen, s.lru, s.next, now)
  }

  // ---------------------------------------------------------------- one call, on values

  /** The sweep's bound: the clock minus the time to live, or the clock itself while it is younger than that. */
  function Cutoff(lim: Limits, now: real): real {
    if now >= lim.ttl then now - lim.ttl else now
  }

  function Swept(s: State, cutoff: real): State {
    s.(seen := map k | k in s.seen && s.seen[k].at >= cutoff :: s.seen[k],
       lru := set r | r in s.lru && r.stamp.at >= cutoff)
  }

  function Without(s: State, n: Nonce): State {
    if n in s.seen then s.(seen := s.seen - {n}, lru := s.lru - {Row(s.seen[n], n)}) else s
  }

  predicate Replayed(s: State, lim: Limits, n: Nonce, now: real) {
    n in s.seen && now - s.seen[n].at < lim.ttl
  }

  ghost function FirstDropped(s: State): State
    requires Numbered(s.seen)
  {
    if s.seen == map[] then s
    else
      LeastRecentExists(s.seen);
      Without(s, Victim(s.seen))
  }

  /** Make room for the nonce: its own stale row goes, and at the cap the least recent of the others too. */
  ghost function Room(s: State, lim: Limits, n: Nonce): State
    requires Numbered(s.seen)
  {
    if |s.seen| >= lim.max then FirstDropped(Without(s, n)) else Without(s, n)
  }

  function Inserted(s: State, n: Nonce, now: real): State {
    State(s.seen[n := Stamp(now, s.next)], s.lru + {Row(Stamp(now, s.next), n)}, s.next + 1)
  }

  /** The state after observing the nonce, and whether it was accepted. */
  ghost function Observed(s: State, lim: Limits, n: Nonce, now: real): (State, bool)
    requires Numbered(s.seen)
  {
    var swept := Swept(s, Cutoff(lim, now));
    if Replayed(swept, lim, n, now) then (swept, false)
    else (Inserted(Room(swept, lim, n), n, now), true)
  }

  // ---------------------------------------------------------------- the index stays exact

  lemma SweptValid(s: State, cutoff: real, now: real)
    requires Valid(s, now)
    ensures Valid(Swept(s, cutoff), now)
  {
    var t := Swept(s, cutoff);
    forall r | r in t.lru ensures r in RowsOf(t.seen) {
      assert r.key in t.seen;
    }
    forall r | r in RowsOf(t.seen) ensures r in t.lru {
      assert r == Row(s.seen[r.key], r.key);
    }
  }

  lemma WithoutValid(s: State, n: Nonce, now: real)
    requires Valid(s, now)
    ensures Valid(Without(s, n), now)
  {
    if n in s.seen {
      DropKeepsCoherent(s.seen, s.lru, s.next, now, n);
    }
  }

  lemma RoomValid(s: State, lim: Limits, n: Nonce, now: real)
    requires Valid(s, now)
    ensures Valid(Room(s, lim, n), now) && n !in Room(s, lim, n).seen
  {
    hide Coherent;
    WithoutValid(s, n, now);
    var others := Without(s, n);
    NumberedIfValid(others, now);
    if others.seen != map[] {
      LeastRecentExists(others.seen);
      WithoutValid(others, Victim(others.seen), now);
    }
  }

  lemma NumberedIfValid(s: State, now: real)
    requires Valid(s, now)
    ensures Numbered(s.seen)
  {
  }

  lemma ObservedValid(s: State, lim: Limits, n: Nonce, now: real)
    requires Valid(s, now)
    ensures Valid(Observed(s, lim, n, now).0, now)
  {
    hide Coherent, Room, Swept;
    NumberedIfValid(s, now);
    SweptValid(s, Cutoff(lim, now), now);
    var swept := Swept(s, Cutoff(lim, now));
    NumberedIfValid(swept, now);
    RoomValid(swept, lim, n, now);
    var room := Room(swept, lim, n);
    StampKeepsCoherent(room.seen, room.lru, room.next, now, n);
    assert room.lru - {} == room.lru;
  }

  // ---------------------------------------------------------------- steps of the methods

  /** The state without some rows and their nonces. */
  ghost function Dropped(s: State, rows: set<Row<Nonce>>): State {
    s.(seen := map k | k in s.seen && Row(s.seen[k], k) !in rows :: s.seen[k], lru := s.lru - rows)
  }

  lemma DroppedNone(s: State)
    ensures Dropped(s, {}) == s
  {
  }

  lemma DroppedOne(s: State, now: real, rows: set<Row<Nonce>>, r: Row<Nonce>)
    requires Valid(s, now) && r in s.lru
    ensures var d := Dropped(s, rows);
            Dropped(s, rows + {r}) == d.(seen := d.seen - {r.key}, lru := d.lru - {r})
  {
    assert r == Row(s.seen[r.key], r.key);
  }

  lemma DroppedExpired(s: State, now: real, cutoff: real, rows: set<Row<Nonce>>)
    requires Valid(s, now) && rows == set r | r in s.lru && r.stamp.at < cutoff
    ensures Dropped(s, rows) == Swept(s, cutoff)
  {
    hide Earlier, Numbered;
    forall k | k in s.seen ensures Row(s.seen[k], k) in rows <==> s.seen[k].at < cutoff {
      assert Row(s.seen[k], k) in s.lru;
    }
  }

  lemma WithoutShape(s: State, n: Nonce)
    ensures Without(s, n) == State(s.seen - {n}, if n in s.seen then s.lru - {Row(s.seen[n], n)} else s.lru, s.next)
  {
    assert n !in s.seen ==> s.seen - {n} == s.seen;
  }

  lemma PutBack(seen: map<Nonce, Stamp>, n: Nonce, stamp: Stamp)
    ensures (seen - {n})[n := stamp] == seen[n := stamp]
  {
  }

  // ---------------------------------------------------------------- the registry

  class NonceRegistry {
    const lim: Limits
    var seen: map<Nonce, Stamp>
    var lru: set<Row<Nonce>>
    var nextLruSeq: nat

    function Value(): State
      reads this
    {
      State(seen, lru, nextLruSeq)
    }

    constructor (lim: Limits)
      ensures this.lim == lim && Value() == EMPTY
    {
      this.lim, seen, lru, nextLruSeq := lim, map[], {}, 0;
    }

    /** Walk the expired rows; drop each with its nonce. */
    method Sweep(cutoff: real, ghost now: real)
      requires Valid(Value(), now)
      modifies this
      ensures Value() == Swept(old(Value()), cutoff)
    {
      hide Dropped, Swept;
      var expired := set r | r in lru && r.stamp.at < cutoff;
      var todo := expired;
      ghost var before := Value();
      DroppedNone(before);
      assert expired - todo == {};
      while todo != {}
        invariant todo <= expired <= before.lru && Value() == Dropped(before, expired - todo)
        decreases |todo|
      {
        var row :| row in todo;
        DroppedOne(before, now, expired - todo, row);
        assert expired - (todo - {row}) == expired - todo + {row};
        lru := lru - {row};
        seen := seen - {row.key};
        todo := todo - {row};
      }
      assert expired - todo == expired;
      DroppedExpired(before, now, cutoff, expired);
    }

    /** Drop the first row of the index, if there is one, with its nonce. The nonce being observed is still in the
        map here, its row already gone. */
    method EvictFirst(n: Nonce, ghost now: real)
      requires Valid(State(seen - {n}, lru, nextLruSeq), now)
      modifies this
      ensures Numbered(old(seen) - {n})
      ensures State(seen - {n}, lru, nextLruSeq) == FirstDropped(State(old(seen) - {n}, old(lru), old(nextLruSeq)))
    {
      ghost var others := State(seen - {n}, lru, nextLruSeq);
      NumberedIfValid(others, now);
      NoRowsNoKeys(others.seen, others.lru, others.next, now);
      if lru != {} {
        var oldest := OldestRow(others.seen, lru, nextLruSeq, now, (a: Nonce, b: Nonce) => false);
        hide Coherent, LeastRecent;
        ghost var v := oldest.key;
        assert seen - {oldest.key} - {n} == others.seen - {v};
        lru := lru - {oldest};
        seen := seen - {oldest.key};
      }
    }

    /** Make room, then insert. */
    method Record(n: Nonce, now: real)
      requires Valid(Value(), now)
      modifies this
      ensures Numbered(old(seen)) && Value() == Inserted(Room(old(Value()), lim, n), n, now)
    {
      hide Valid, FirstDropped, Without, Numbered;
      NumberedIfValid(Value(), now);
      WithoutValid(Value(), n, now);
      ghost var before := Value();
      WithoutShape(before, n);
      if n in seen {
        lru := lru - {Row(seen[n], n)};
      }
      if |seen| >= lim.max {
        EvictFirst(n, now);
      }
      assert State(seen - {n}, lru, nextLruSeq) == Room(before, lim, n);
      PutBack(seen, n, Stamp(now, nextLruSeq));
      seen := seen[n := Stamp(now, nextLruSeq)];
      lru := lru + {Row(Stamp(now, nextLruSeq), n)};
      nextLruSeq := nextLruSeq + 1;
    }

    method Observe(n: Nonce, now: real) returns (ok: bool)
      requires Valid(Value(), now)
      modifies this
      ensures Numbered(old(seen)) && (Value(), ok) == Observed(old(Value()), lim, n, now)
      ensures Valid(Value(), now)
    {
      hide Coherent, Room, Swept;
      NumberedIfValid(Value(), now);
      ObservedValid(Value(), lim, n, now);
      var cutoff := if now >= lim.ttl then now - lim.ttl else now;
      SweptValid(Value(), cutoff, now);
      Sweep(cutoff, now);
      if n in seen && now - seen[n].at < lim.ttl {
        return false;
      }
      Record(n, now);
      ok := true;
    }
  }
}
