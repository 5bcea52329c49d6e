/** A call the rate limiter refuses takes nothing: leaving it out changes no other verdict, as long as nobody is evicted. */
module RefusedCalls {
  import opened Lru
  import opened Recency
  import opened Residency
  import opened RateLimiter
  import opened RateBounds
  import opened LimiterLaw

  /** What `k` could be granted at once, if the table has room for it. */
  ghost function Standing(t: Table, cfg: Config, k: string, at: real): real {
    if k in t.buckets then Refilled(t.buckets[k], cfg, at) else cfg.Burst()
  }

  ghost predicate SameStanding(t: Table, u: Table, cfg: Config, at: real) {
    forall k :: Standing(t, cfg, k, at) == Standing(u, cfg, k, at)
  }

  function Capped(cfg: Config, x: real): real {
    if x < cfg.Burst() then x else cfg.Burst()
  }

  lemma StandingLater(t: Table, cfg: Config, k: string, at: real, later: real)
    requires at <= later
    ensures Standing(t, cfg, k, later) == Capped(cfg, Standing(t, cfg, k, at) + Accrued(cfg, at, later))
  {
    hide Accrued;
    AccruedAdds(cfg, at, later, later);
    if k in t.buckets {
      AccruedAdds(cfg, t.buckets[k].stamp.at, at, later);
    }
  }

  /** A call that evicts nobody compares its bytes with the caller's standing, takes what it grants, and touches nobody
      else. */
  lemma CallByStanding(t: Table, cfg: Config, c: Call, k: string)
    requires Sound(t, cfg, c.now) && !Evicts(t, cfg, c.tenant)
    ensures var r := TryCharged(t, cfg, c.tenant, c.bytes, c.now);
            && (r.1 <==> c.bytes as real <= Standing(t, cfg, c.tenant, c.now))
            && Standing(r.0, cfg, k, c.now)
               == Standing(t, cfg, k, c.now) - (if k == c.tenant && r.1 then c.bytes as real else 0.0)
  {
    hide Coherent, TokensInRange, Accrued;
    PressureIffFull(t, cfg, c.now, c.now);
    AccruedAdds(cfg, c.now, c.now, c.now);
  }

  lemma SameCallAt(t: Table, u: Table, cfg: Config, at: real, c: Call, k: string)
    requires SameStanding(t, u, cfg, at) && at <= c.now && Sound(t, cfg, c.now) && Sound(u, cfg, c.now)
    requires !Evicts(t, cfg, c.tenant) && !Evicts(u, cfg, c.tenant)
    ensures var r, q := TryCharged(t, cfg, c.tenant, c.bytes, c.now), TryCharged(u, cfg, c.tenant, c.bytes, c.now);
            r.1 == q.1 && Standing(r.0, cfg, k, c.now) == Standing(q.0, cfg, k, c.now)
  {
    StandingLater(t, cfg, k, at, c.now);
    StandingLater(u, cfg, k, at, c.now);
    StandingLater(t, cfg, c.tenant, at, c.now);
    StandingLater(u, cfg, c.tenant, at, c.now);
    CallByStanding(t, cfg, c, k);
    CallByStanding(u, cfg, c, k);
    hide Valid, TokensInRange, TryCharged, Standing, Accrued, Capped, Evicts;
  }

  lemma SameCall(t: Table, u: Table, cfg: Config, at: real, c: Call)
    requires SameStanding(t, u, cfg, at) && at <= c.now && Sound(t, cfg, c.now) && Sound(u, cfg, c.now)
    requires !Evicts(t, cfg, c.tenant) && !Evicts(u, cfg, c.tenant)
    ensures var r, q := TryCharged(t, cfg, c.tenant, c.bytes, c.now), TryCharged(u, cfg, c.tenant, c.bytes, c.now);
            r.1 == q.1 && SameStanding(r.0, q.0, cfg, c.now)
  {
    hide Valid, TokensInRange, TryCharged, Standing, Evicts;
    SameCallAt(t, u, cfg, at, c, c.tenant);
    forall k
      ensures Standing(TryCharged(t, cfg, c.tenant, c.bytes, c.now).0, cfg, k, c.now)
              == Standing(TryCharged(u, cfg, c.tenant, c.bytes, c.now).0, cfg, k, c.now)
    {
      SameCallAt(t, u, cfg, at, c, k);
    }
  }

  lemma RefusedSame(t: Table, cfg: Config, c: Call)
    requires Sound(t, cfg, c.now) && !Evicts(t, cfg, c.tenant) && !TryCharged(t, cfg, c.tenant, c.bytes, c.now).1
    ensures SameStanding(TryCharged(t, cfg, c.tenant, c.bytes, c.now).0, t, cfg, c.now)
  {
    hide Valid, TokensInRange, TryCharged, Standing, Evicts;
    var q := TryCharged(t, cfg, c.tenant, c.bytes, c.now).0;
    forall k ensures Standing(q, cfg, k, c.now) == Standing(t, cfg, k, c.now) {
      CallByStanding(t, cfg, c, k);
    }
  }

  // ---------------------------------------------------------------- room for everyone

  /** The table has a slot for every tenant that calls. */
  predicate Roomy(cfg: Config, calls: seq<Call>) {
    cfg.maxTenants == 0 || |Users(Names(calls, |calls|))| <= cfg.maxTenants
  }

  lemma NoEviction(cfg: Config, start: real, calls: seq<Call>, n: nat)
    requires Ordered(calls, start) && n < |calls| && Roomy(cfg, calls)
    ensures !Evicts(TableAt(cfg, start, calls, n), cfg, calls[n].tenant)
  {
    hide TableAt, Sound, InUseOrder, Together, Remembers;
    var t, k := TableAt(cfg, start, calls, n), calls[n].tenant;
    TableTracks(cfg, start, calls, n);
    forall x | x in t.buckets ensures x in Users(Names(calls, |calls|)) {
      assert x in Stamps(t.buckets);
      NamedEarlier(calls, n, x);
    }
    assert Names(calls, |calls|)[n] == k;
    hide Names, Tracks, Stamps, Users;
    if Evicts(t, cfg, k) {
      SubsetSize(t.buckets.Keys + {k}, Users(Names(calls, |calls|)));
    }
  }

  lemma NamedEarlier(calls: seq<Call>, n: nat, x: string)
    requires n <= |calls| && x in Names(calls, n)
    ensures x in Names(calls, |calls|)
  {
    var i: nat :| i < n && Names(calls, n)[i] == x;
    assert Names(calls, |calls|)[i] == x;
  }

  function Without(calls: seq<Call>, d: nat): seq<Call>
    requires d < |calls|
  {
    calls[..d] + calls[d + 1..]
  }

  lemma WithoutRoomy(cfg: Config, calls: seq<Call>, d: nat)
    requires d < |calls| && Roomy(cfg, calls)
    ensures Roomy(cfg, Without(calls, d))
  {
    var less := Without(calls, d);
    forall x | x in Names(less, |less|) ensures x in Names(calls, |calls|) {
      var i: nat :| i < |less| && Names(less, |less|)[i] == x;
      assert Names(calls, |calls|)[if i < d then i else i + 1] == x;
    }
    SubsetSize(Users(Names(less, |less|)), Users(Names(calls, |calls|)));
  }

  lemma {:induction false} WithoutOrdered(calls: seq<Call>, clock: real, d: nat)
    requires Ordered(calls, clock) && d < |calls|
    ensures Ordered(Without(calls, d), clock)
    decreases |calls|
  {
    if d == 0 {
      assert Without(calls, d) == calls[1..];
      OrderedEarlier(calls[1..], calls[0].now, clock);
    } else {
      WithoutOrdered(calls[1..], calls[0].now, d - 1);
      assert Without(calls, d)[1..] == Without(calls[1..], d - 1);
    }
  }

  lemma OrderedEarlier(calls: seq<Call>, clock: real, earlier: real)
    requires Ordered(calls, clock) && earlier <= clock
    ensures Ordered(calls, earlier)
  {
  }

  // ---------------------------------------------------------------- the run without the call

  /** A table depends on the calls before it only. */
  lemma {:induction false} TablePrefix(cfg: Config, start: real, calls: seq<Call>, others: seq<Call>, n: nat)
    requires Ordered(calls, start) && Ordered(others, start) && n <= |calls| && n <= |others| && calls[..n] == others[..n]
    ensures TableAt(cfg, start, calls, n) == TableAt(cfg, start, others, n)
  {
    hide Sound, TryCharged;
    if n > 0 {
      assert calls[n - 1] == calls[..n][n - 1] == others[n - 1];
      assert calls[..n - 1] == calls[..n][..n - 1] == others[..n - 1];
      TablePrefix(cfg, start, calls, others, n - 1);
    }
  }

  lemma {:induction false} SameWithout(cfg: Config, start: real, calls: seq<Call>, d: nat, n: nat)
    requires Ordered(calls, start) && d <= n < |calls| && Roomy(cfg, calls) && !Allows(cfg, start, calls, d)
    requires Ordered(Without(calls, d), start)
    ensures SameStanding(TableAt(cfg, start, calls, n + 1), TableAt(cfg, start, Without(calls, d), n), cfg, calls[n].now)
    decreases n
  {
    hide Sound, TryCharged, TableAt, SameStanding, Roomy, Evicts;
    var less := Without(calls, d);
    TableSteps(cfg, start, calls, n);
    NoEviction(cfg, start, calls, n);
    if n == d {
      assert calls[..n] == less[..n];
      TablePrefix(cfg, start, calls, less, n);
      RefusedSame(TableAt(cfg, start, calls, n), cfg, calls[n]);
    } else {
      SameWithout(cfg, start, calls, d, n - 1);
      assert less[n - 1] == calls[n];
      TableSteps(cfg, start, less, n - 1);
      WithoutRoomy(cfg, calls, d);
      NoEviction(cfg, start, less, n - 1);
      OrderedAt(calls, start, n);
      SameCall(TableAt(cfg, start, calls, n), TableAt(cfg, start, less, n - 1), cfg, calls[n - 1].now, calls[n]);
    }
  }

  lemma AllowsSame(cfg: Config, start: real, calls: seq<Call>, d: nat, j: nat)
    requires Ordered(calls, start) && d < j < |calls| && Roomy(cfg, calls)
    requires Ordered(Without(calls, d), start)
    requires SameStanding(TableAt(cfg, start, calls, j), TableAt(cfg, start, Without(calls, d), j - 1), cfg, calls[j - 1].now)
    ensures Allows(cfg, start, Without(calls, d), j - 1) <==> Allows(cfg, start, calls, j)
  {
    hide Sound, TryCharged, TableAt, SameStanding, Roomy, Evicts, Ordered, Allows;
    var less := Without(calls, d);
    assert less[j - 1] == calls[j];
    OrderedAt(calls, start, j);
    NoEviction(cfg, start, calls, j);
    WithoutRoomy(cfg, calls, d);
    NoEviction(cfg, start, less, j - 1);
    AllowsIs(cfg, start, calls, j);
    AllowsIs(cfg, start, less, j - 1);
    SameCall(TableAt(cfg, start, calls, j), TableAt(cfg, start, less, j - 1), cfg, calls[j - 1].now, calls[j]);
  }

  lemma AllowsIs(cfg: Config, start: real, calls: seq<Call>, n: nat)
    requires Ordered(calls, start) && n < |calls|
    ensures var t, c := TableAt(cfg, start, calls, n), calls[n];
            Sound(t, cfg, c.now) && (Allows(cfg, start, calls, n) <==> TryCharged(t, cfg, c.tenant, c.bytes, c.now).1)
  {
    hide Sound, TryCharged, TableAt;
    TableValid(cfg, start, calls, n);
  }

  /** Leaving out a refused call changes no other verdict, in every run with a slot for every tenant. */
  lemma RefusedCallIsFree(cfg: Config, start: real, calls: seq<Call>, d: nat, j: nat)
    requires Ordered(calls, start) && d < |calls| && j < |calls| && j != d
    requires Roomy(cfg, calls) && !Allows(cfg, start, calls, d)
    ensures Ordered(Without(calls, d), start)
    ensures Allows(cfg, start, Without(calls, d), if j < d then j else j - 1) <==> Allows(cfg, start, calls, j)
  {
    hide Sound, TryCharged, TableAt, SameStanding, Roomy, Evicts, Ordered, Allows;
    WithoutOrdered(calls, start, d);
    var less := Without(calls, d);
    if j < d {
      assert calls[..j] == less[..j] && calls[j] == less[j];
      TablePrefix(cfg, start, calls, less, j);
      AllowsIs(cfg, start, calls, j);
      AllowsIs(cfg, start, less, j);
    } else {
      SameWithout(cfg, start, calls, d, j - 1);
      AllowsSame(cfg, start, calls, d, j);
    }
  }

  lemma OneLog(a: string)
    ensures Recent([a], a, 1)
  {
    assert IsLast([a], 0) && Others([a], 0) == {};
  }

  lemma TwoLog(a: string, b: string)
    requires a != b
    ensures !Recent([b, a], b, 1) && |Users([b, a])| == 2
  {
    var log := [b, a];
    assert log[1] == a && Others(log, 0) == {a};
    assert Users(log) == {a, b};
    forall i: nat | IsLast(log, i) && log[i] == b ensures |Others(log, i)| == 1 {
      assert i == 0;
    }
  }

  lemma FirstIsFull(cfg: Config, start: real, calls: seq<Call>)
    requires Ordered(calls, start) && calls != [] && calls[0].bytes as real <= cfg.Burst()
    ensures Allows(cfg, start, calls, 0)
  {
    hide Allows, Earned;
    NobodyFirst(cfg, calls, calls[0].tenant);
    EarnedAdds(cfg, calls[0].now, calls[0].now, calls[0].now);
    assert Users(Names(calls, 0)) == {};
    GrantedIff(cfg, start, calls, 0, 0);
  }

  const ONE_SLOT := Config(0, 8, 1)
  const WITH_REFUSED := [Call("b", 1, 0.0), Call("a", 9, 0.0), Call("b", 7, 0.0)]
  const WITHOUT_REFUSED := [Call("b", 1, 0.0), Call("b", 7, 0.0)]

  lemma BothOrdered()
    ensures Ordered(WITH_REFUSED, 0.0) && Ordered(WITHOUT_REFUSED, 0.0) && Without(WITH_REFUSED, 1) == WITHOUT_REFUSED
  {
    assert Ordered(WITH_REFUSED[1..][1..][1..], 0.0) && Ordered(WITH_REFUSED[1..][1..], 0.0) && Ordered(WITH_REFUSED[1..], 0.0);
    assert Ordered(WITHOUT_REFUSED[1..][1..], 0.0) && Ordered(WITHOUT_REFUSED[1..], 0.0);
  }

  lemma RefusedWith()
    ensures (BothOrdered(); !Allows(ONE_SLOT, 0.0, WITH_REFUSED, 1) && !Allows(ONE_SLOT, 0.0, WITH_REFUSED, 2))
  {
    hide Allows, Recent, Users, Ordered, Earned;
    BothOrdered();
    var s := AdmissionOf(ONE_SLOT, 0.0, WITH_REFUSED, 1);
    GrantedIff(ONE_SLOT, 0.0, WITH_REFUSED, s, 1);
    assert Names(WITH_REFUSED, 2) == ["b", "a"];
    TwoLog("a", "b");
    EarnedAdds(ONE_SLOT, 0.0, 0.0, 0.0);
    GrantedIff(ONE_SLOT, 0.0, WITH_REFUSED, 2, 2);
  }

  lemma GrantedWithout()
    ensures (BothOrdered(); Allows(ONE_SLOT, 0.0, WITHOUT_REFUSED, 1))
  {
    assert Users(Names(WITHOUT_REFUSED, 0)) == {};
    hide Allows, Recent, Users, Ordered, Earned;
    BothOrdered();
    assert Names(WITHOUT_REFUSED, 1) == ["b"];
    OneLog("b");
    NobodyFirst(ONE_SLOT, WITHOUT_REFUSED, "b");
    FirstIsFull(ONE_SLOT, 0.0, WITHOUT_REFUSED);
    EarnedAdds(ONE_SLOT, 0.0, 0.0, 0.0);
    GrantedIff(ONE_SLOT, 0.0, WITHOUT_REFUSED, 0, 1);
  }

  /** With evictions it does: a table of one slot, where the refused call of `a` takes the slot of `b`. */
  lemma RefusedCallEvicts()
    ensures && Ordered(WITH_REFUSED, 0.0) && Ordered(Without(WITH_REFUSED, 1), 0.0)
            && !Allows(ONE_SLOT, 0.0, WITH_REFUSED, 1) && !Allows(ONE_SLOT, 0.0, WITH_REFUSED, 2)
            && Allows(ONE_SLOT, 0.0, Without(WITH_REFUSED, 1), 1)
  {
    hide Allows, Ordered;
    BothOrdered();
    RefusedWith();
    GrantedWithout();
  }
}
