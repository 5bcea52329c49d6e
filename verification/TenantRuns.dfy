/** Whole runs of the tenant pool against an unbounded log of its lookups. */
module TenantRuns {
  import opened Keys
  import opened Lru
  import opened Recency
  import opened Residency
  import opened TenantPool

  datatype Lookup = Lookup(tenant: string, drawn: Kek, now: real)

  /** The pool, the tenants looked up so far with the sealing key each lookup returned, and the last instant. */
  datatype Run = Run(pool: Pool, log: seq<string>, keks: seq<Kek>, clock: real)

  function Begun(clock: real): Run {
    Run(EMPTY_POOL, [], [], clock)
  }

  ghost function After(r: Run, master: Term, max: nat, l: Lookup): Run
    requires CanAdmit(r.pool, max)
  {
    var p := Looked(r.pool, master, max, l.tenant, l.drawn, l.now);
    Run(p, r.log + [l.tenant], r.keks + [p.tenants[l.tenant].value.kek], l.now)
  }

  // ---------------------------------------------------------------- the invariant

  /** The resident tenant's entry: its last lookup, the key that lookup returned, the derived salt. */
  ghost predicate LinkedTo(r: Run, master: Term, k: string)
    requires |r.log| == |r.keks| && k in r.pool.tenants
  {
    var t := r.pool.tenants[k];
    && IsLast(r.log, t.stamp.order) && r.log[t.stamp.order] == k && r.keks[t.stamp.order] == t.value.kek
    && t.value.salt == Salt(master, k)
  }

  ghost predicate Inv(r: Run, master: Term, max: nat) {
    && Valid(r.pool, r.clock) && |r.pool.tenants| <= max
    && r.pool.next == |r.log| == |r.keks|
    && (forall k :: k in r.pool.tenants ==> LinkedTo(r, master, k))
    && Tracks(Stamps(r.pool.tenants), r.log, max)
  }

  // ---------------------------------------------------------------- one lookup

  /** What a lookup does to every other tenant: nothing, or the least recent one goes. */
  lemma LookedShape(p: Pool, master: Term, max: nat, l: Lookup, k: string)
    requires CanAdmit(p, max)
    ensures var q := Looked(p, master, max, l.tenant, l.drawn, l.now);
            && q.next == p.next + 1 && l.tenant in q.tenants && q.tenants[l.tenant].stamp.order == p.next
            && (k != l.tenant && k in q.tenants ==> k in p.tenants && q.tenants[k] == p.tenants[k])
            && (k != l.tenant && k in p.tenants && k !in q.tenants
                ==> l.tenant !in p.tenants && |p.tenants| >= max && LeastRecent(Stamps(p.tenants), k))
  {
    if l.tenant !in p.tenants && |p.tenants| >= max {
      EvictedShape(p, k);
    }
  }

  lemma LookedSize(p: Pool, master: Term, max: nat, l: Lookup)
    requires CanAdmit(p, max) && |p.tenants| <= max && max > 0
    ensures |p.tenants| <= |Looked(p, master, max, l.tenant, l.drawn, l.now).tenants| <= max
  {
    var q := Looked(p, master, max, l.tenant, l.drawn, l.now);
    if l.tenant in p.tenants {
      assert q.tenants.Keys == p.tenants.Keys;
    } else if |p.tenants| >= max {
      var v := Victim(Stamps(p.tenants));
      StampAt(p.tenants, v);
      assert q.tenants.Keys == p.tenants.Keys - {v} + {l.tenant};
    } else {
      assert q.tenants.Keys == p.tenants.Keys + {l.tenant};
    }
  }

  lemma StampBelow(p: Pool, now: real, k: string)
    requires Valid(p, now) && k in p.tenants
    ensures p.tenants[k].stamp.order < p.next
  {
    assert Stamps(p.tenants)[k] == p.tenants[k].stamp;
  }

  lemma StampsSize(tenants: map<string, Stamped<Secrets>>)
    ensures |Stamps(tenants)| == |tenants|
  {
    assert Stamps(tenants).Keys == tenants.Keys;
  }

  lemma LookupUses(p: Pool, master: Term, max: nat, l: Lookup)
    requires Valid(p, l.now) && CanAdmit(p, max) && |p.tenants| <= max && max > 0
    ensures Uses(Stamps(p.tenants), Stamps(Looked(p, master, max, l.tenant, l.drawn, l.now).tenants), l.tenant, max)
  {
    hide Valid, Looked, LeastRecent;
    var q := Looked(p, master, max, l.tenant, l.drawn, l.now);
    var before, after := Stamps(p.tenants), Stamps(q.tenants);
    LookedShape(p, master, max, l, l.tenant);
    LookedSize(p, master, max, l);
    StampsSize(p.tenants);
    StampsSize(q.tenants);
    forall k | k in after && k != l.tenant
      ensures k in before && after[k] == before[k] && before[k].order < after[l.tenant].order
    {
      LookedShape(p, master, max, l, k);
      StampBelow(p, l.now, k);
    }
    forall k | k in before && k != l.tenant && k !in after
      ensures l.tenant !in before && |before| >= max && LeastRecent(before, k)
    {
      LookedShape(p, master, max, l, k);
    }
  }

  lemma LookupLinks(r: Run, master: Term, max: nat, l: Lookup, k: string)
    requires Inv(r, master, max) && CanAdmit(r.pool, max) && k in After(r, master, max, l).pool.tenants
    ensures LinkedTo(After(r, master, max, l), master, k)
  {
    hide Valid, Tracks, Salt, LeastRecent;
    LookedShape(r.pool, master, max, l, k);
    if k == l.tenant && k in r.pool.tenants {
      assert LinkedTo(r, master, k);
    }
  }

  lemma LookupKeepsInv(r: Run, master: Term, max: nat, l: Lookup)
    requires Inv(r, master, max) && r.clock <= l.now && max > 0
    ensures CanAdmit(r.pool, max) && Inv(After(r, master, max, l), master, max)
  {
    hide Tracks, Uses;
    LaterKeepsCoherent(Stamps(r.pool.tenants), r.pool.lru, r.pool.next, r.clock, l.now);
    ValidCanAdmit(r.pool, max, l.now);
    LookedValid(r.pool, master, max, l.tenant, l.drawn, l.now);
    LookedSize(r.pool, master, max, l);
    LookupUses(r.pool, master, max, l);
    UseKeepsTracks(Stamps(r.pool.tenants), Stamps(After(r, master, max, l).pool.tenants), r.log, l.tenant, max);
    LookedShape(r.pool, master, max, l, l.tenant);
    forall k | k in After(r, master, max, l).pool.tenants ensures LinkedTo(After(r, master, max, l), master, k) {
      LookupLinks(r, master, max, l, k);
    }
    hide Coherent, Looked, LinkedTo;
  }

  // ---------------------------------------------------------------- what a lookup returns

  /** A tenant looked up before gets back the key of its last lookup if fewer than `max` other tenants were looked up
      since, and the newly drawn one otherwise. */
  lemma KekStableIff(r: Run, master: Term, max: nat, l: Lookup, i: nat)
    requires Inv(r, master, max) && CanAdmit(r.pool, max) && IsLast(r.log, i) && r.log[i] == l.tenant
    ensures After(r, master, max, l).keks[|r.log|] == if |Others(r.log, i)| < max then r.keks[i] else l.drawn
  {
    hide Valid, LeastRecent, Tracks, Others;
    HeldIffRecent(Stamps(r.pool.tenants), r.log, l.tenant, max);
    forall j: nat | IsLast(r.log, j) && r.log[j] == l.tenant ensures j == i {
      SameLast(r.log, i, j);
    }
    if l.tenant in r.pool.tenants {
      assert LinkedTo(r, master, l.tenant);
    }
  }

  /** A tenant never looked up before gets the newly drawn key. */
  lemma FirstKekIsDrawn(r: Run, master: Term, max: nat, l: Lookup)
    requires Inv(r, master, max) && CanAdmit(r.pool, max) && l.tenant !in r.log
    ensures After(r, master, max, l).keks[|r.log|] == l.drawn
  {
    hide Valid, LeastRecent, Tracks;
    assert l.tenant in r.pool.tenants ==> LinkedTo(r, master, l.tenant);
  }

  // ---------------------------------------------------------------- whole runs

  predicate Ordered(calls: seq<Lookup>, clock: real) {
    calls == [] || (clock <= calls[0].now && Ordered(calls[1..], calls[0].now))
  }

  ghost function RunOn(r: Run, master: Term, max: nat, calls: seq<Lookup>): Run
    requires Inv(r, master, max) && Ordered(calls, r.clock) && max > 0
    decreases |calls|
  {
    if calls == [] then r
    else
      LookupKeepsInv(r, master, max, calls[0]);
      RunOn(After(r, master, max, calls[0]), master, max, calls[1..])
  }

  lemma {:induction false} RunKeepsInv(r: Run, master: Term, max: nat, calls: seq<Lookup>)
    requires Inv(r, master, max) && Ordered(calls, r.clock) && max > 0
    ensures Inv(RunOn(r, master, max, calls), master, max)
    decreases |calls|
  {
    hide Inv;
    if calls != [] {
      LookupKeepsInv(r, master, max, calls[0]);
      RunKeepsInv(After(r, master, max, calls[0]), master, max, calls[1..]);
    }
  }

  lemma BegunInv(master: Term, max: nat, clock: real)
    ensures Inv(Begun(clock), master, max)
  {
    EmptyCoherent<string>(clock);
    EmptyTracks<string>(max);
    assert Stamps<string, Secrets>(map[]) == map[];
    hide Coherent, Tracks;
  }

  ghost predicate Reached(master: Term, max: nat, start: real, calls: seq<Lookup>, r: Run) {
    && max > 0 && Ordered(calls, start)
    && (BegunInv(master, max, start); RunOn(Begun(start), master, max, calls) == r)
  }

  /** After every run from an empty pool: the table is within its cap, its index is exact, and every resident tenant
      has the salt its name derives, however often it was evicted and admitted again. */
  lemma PoolRuns(master: Term, max: nat, start: real, calls: seq<Lookup>, r: Run)
    requires Reached(master, max, start, calls, r)
    ensures Inv(r, master, max)
    ensures |r.pool.tenants| <= max && forall k :: k in r.pool.tenants ==> r.pool.tenants[k].value.salt == Salt(master, k)
  {
    BegunInv(master, max, start);
    hide RunOn, Tracks, Valid;
    RunKeepsInv(Begun(start), master, max, calls);
    forall k | k in r.pool.tenants ensures r.pool.tenants[k].value.salt == Salt(master, k) {
      assert LinkedTo(r, master, k);
    }
  }
}
