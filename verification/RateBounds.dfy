/** What the rate limiter grants over whole runs, to all tenants together and to each of them. */
module RateBounds {
  import opened Lru
  import opened RateLimiter

  // ---------------------------------------------------------------- worth of a table

  lemma AccruedAdds(cfg: Config, a: real, b: real, c: real)
    ensures Accrued(cfg, a, c) == Accrued(cfg, a, b) + Accrued(cfg, b, c)
    ensures a <= b ==> Accrued(cfg, a, b) >= 0.0
    ensures Accrued(cfg, a, a) == 0.0
  {
  }

  /** `n * x` */
  function Times(n: nat, x: real): real {
    n as real * x
  }

  lemma TimesSteps(n: nat, m: nat, x: real)
    ensures Times(n + 1, x) == Times(n, x) + x && Times(0, x) == 0.0
    ensures x >= 0.0 && n <= m ==> Times(n, x) <= Times(m, x)
  {
  }

  /** The tokens a bucket would hold at `at` if refills were not capped. */
  function Worth(b: Bucket, cfg: Config, at: real): real {
    b.value + Accrued(cfg, b.stamp.at, at)
  }

  ghost function Total(buckets: map<string, Bucket>, cfg: Config, at: real): real
    decreases |buckets|
  {
    if buckets == map[] then 0.0
    else
      var k :| k in buckets;
      Worth(buckets[k], cfg, at) + Total(buckets - {k}, cfg, at)
  }

  lemma {:induction false} TotalSplit(buckets: map<string, Bucket>, cfg: Config, at: real, k: string)
    requires k in buckets
    ensures Total(buckets, cfg, at) == Worth(buckets[k], cfg, at) + Total(buckets - {k}, cfg, at)
    decreases |buckets|
  {
    hide Worth;
    var j :| j in buckets && Total(buckets, cfg, at) == Worth(buckets[j], cfg, at) + Total(buckets - {j}, cfg, at);
    if j != k {
      TotalSplit(buckets - {j}, cfg, at, k);
      TotalSplit(buckets - {k}, cfg, at, j);
      assert buckets - {j} - {k} == buckets - {k} - {j};
    }
  }

  lemma TotalUpdate(buckets: map<string, Bucket>, cfg: Config, at: real, k: string, b: Bucket)
    ensures Total(buckets[k := b], cfg, at) == Worth(b, cfg, at) + Total(buckets - {k}, cfg, at)
  {
    hide Worth;
    TotalSplit(buckets[k := b], cfg, at, k);
    assert buckets[k := b] - {k} == buckets - {k};
  }

  /** Time adds the rate once per bucket. */
  lemma {:induction false} TotalLater(buckets: map<string, Bucket>, cfg: Config, at: real, later: real)
    ensures Total(buckets, cfg, later) == Total(buckets, cfg, at) + Times(|buckets|, Accrued(cfg, at, later))
    decreases |buckets|
  {
    hide Accrued, Times;
    var gain := Accrued(cfg, at, later);
    TimesSteps(0, 0, gain);
    if buckets != map[] {
      var k :| k in buckets;
      TotalSplit(buckets, cfg, at, k);
      TotalSplit(buckets, cfg, later, k);
      TotalLater(buckets - {k}, cfg, at, later);
      AccruedAdds(cfg, buckets[k].stamp.at, at, later);
      assert |buckets| == |buckets - {k}| + 1;
      TimesSteps(|buckets - {k}|, 0, gain);
    }
  }

  lemma {:induction false} TotalNotNegative(buckets: map<string, Bucket>, cfg: Config, at: real)
    requires forall k :: k in buckets ==> buckets[k].value >= 0.0 && buckets[k].stamp.at <= at
    ensures Total(buckets, cfg, at) >= 0.0
    decreases |buckets|
  {
    hide Accrued;
    if buckets != map[] {
      var k :| k in buckets;
      TotalSplit(buckets, cfg, at, k);
      AccruedAdds(cfg, buckets[k].stamp.at, at, at);
      TotalNotNegative(buckets - {k}, cfg, at);
    }
  }

  // ---------------------------------------------------------------- runs

  datatype Call = Call(tenant: string, bytes: nat, now: real)

  /** A limiter with the counts of its run: bytes granted, evictions, full and cold seeds. */
  datatype Run = Run(table: Table, clock: real, granted: real, evictions: nat, fullSeeds: nat, coldSeeds: nat)

  function Begun(now: real): Run {
    Run(EMPTY_TABLE, now, 0.0, 0, 0, 0)
  }

  predicate Evicts(t: Table, cfg: Config, tenant: string) {
    tenant !in t.buckets && Full(t, cfg)
  }

  ghost function After(r: Run, cfg: Config, c: Call): Run
    requires Valid(r.table, c.now)
  {
    var t := r.table;
    var done := TryCharged(t, cfg, c.tenant, c.bytes, c.now);
    var fresh' := c.tenant !in t.buckets;
    Run(done.0, c.now,
        r.granted + (if done.1 then c.bytes as real else 0.0),
        r.evictions + (if Evicts(t, cfg, c.tenant) then 1 else 0),
        r.fullSeeds + (if fresh' && !UnderPressure(t, cfg, c.now) then 1 else 0),
        r.coldSeeds + (if fresh' && UnderPressure(t, cfg, c.now) then 1 else 0))
  }

  /** Tokens stay between zero and the burst. */
  predicate TokensInRange(t: Table, cfg: Config) {
    forall k :: k in t.buckets ==> 0.0 <= t.buckets[k].value <= cfg.Burst()
  }

  /** The index is exact, tokens are in range, the table is within its cap, and once something was evicted
      the table is full. */
  ghost predicate Sound(t: Table, cfg: Config, clock: real) {
    && Valid(t, clock)
    && TokensInRange(t, cfg)
    && (cfg.maxTenants > 0 ==> |t.buckets| <= cfg.maxTenants)
    && (t.lastEviction.Some? ==> Full(t, cfg))
  }

  /** The cold seed is given exactly on inserts that evict: the cooldown never outlives the pressure. */
  lemma PressureIffFull(t: Table, cfg: Config, clock: real, now: real)
    requires Sound(t, cfg, clock)
    ensures UnderPressure(t, cfg, now) <==> Full(t, cfg)
  {
  }

  lemma AdmittedBuckets(t: Table, cfg: Config, tenant: string, now: real)
    requires Valid(t, now) && CanAdmit(t, cfg) && tenant !in t.buckets
    ensures var a := Admitted(t, cfg, tenant, now); var b := Stamped(Seed(t, cfg, now), Stamp(now, t.next));
            if Full(t, cfg) then
              exists v :: v in t.buckets && v != tenant && LeastRecent(Stamps(t.buckets), v)
                          && a.buckets == (t.buckets - {v})[tenant := b] && |a.buckets| == |t.buckets|
            else a.buckets == t.buckets[tenant := b] && |a.buckets| == |t.buckets| + 1
  {
    hide Coherent;
    if Full(t, cfg) {
      var v := Victim(Stamps(t.buckets));
      StampAt(t.buckets, v);
      assert |t.buckets - {v}| == |t.buckets| - 1;
    }
  }

  lemma AdmittedSound(t: Table, cfg: Config, tenant: string, now: real)
    requires Sound(t, cfg, now) && CanAdmit(t, cfg)
    ensures Sound(Admitted(t, cfg, tenant, now), cfg, now)
  {
    hide Coherent, LeastRecent;
    AdmittedValid(t, cfg, tenant, now);
    if tenant !in t.buckets {
      AdmittedBuckets(t, cfg, tenant, now);
    }
  }

  lemma ChargedSound(t: Table, cfg: Config, tenant: string, bytes: nat, now: real)
    requires Sound(t, cfg, now) && tenant in t.buckets
    ensures Sound(Charged(t, cfg, tenant, bytes, now).0, cfg, now)
  {
    ChargedValid(t, cfg, tenant, bytes, now);
    StampInPast(t, tenant, now);
    hide Coherent, Accrued;
    AccruedAdds(cfg, t.buckets[tenant].stamp.at, now, now);
    assert |Charged(t, cfg, tenant, bytes, now).0.buckets| == |t.buckets|;
  }

  lemma StampInPast(t: Table, k: string, now: real)
    requires Valid(t, now) && k in t.buckets
    ensures t.buckets[k].stamp.at <= now
  {
    assert Stamps(t.buckets)[k] == t.buckets[k].stamp;
  }

  lemma CallKeepsSound(t: Table, cfg: Config, clock: real, c: Call)
    requires Sound(t, cfg, clock) && clock <= c.now
    ensures Valid(t, c.now) && Sound(TryCharged(t, cfg, c.tenant, c.bytes, c.now).0, cfg, c.now)
  {
    LaterKeepsCoherent(Stamps(t.buckets), t.index, t.next, clock, c.now);
    ValidCanAdmit(t, cfg, c.now);
    AdmittedValid(t, cfg, c.tenant, c.now);
    AdmittedSound(t, cfg, c.tenant, c.now);
    ChargedSound(Admitted(t, cfg, c.tenant, c.now), cfg, c.tenant, c.bytes, c.now);
  }

  // ---------------------------------------------------------------- the total

  /** A charge takes from the bucket what it grants, and a capped refill only loses worth. */
  lemma ChargeCosts(t: Table, cfg: Config, tenant: string, bytes: nat, now: real)
    requires tenant in t.buckets
    ensures var r := Charged(t, cfg, tenant, bytes, now);
            Total(r.0.buckets, cfg, now) + (if r.1 then bytes as real else 0.0) <= Total(t.buckets, cfg, now)
  {
    hide Accrued, Total;
    var r := Charged(t, cfg, tenant, bytes, now);
    AccruedAdds(cfg, now, now, now);
    TotalSplit(t.buckets, cfg, now, tenant);
    TotalUpdate(t.buckets, cfg, now, tenant, r.0.buckets[tenant]);
  }

  /** Admission adds the seed; an eviction only removes worth. */
  lemma AdmissionCosts(t: Table, cfg: Config, tenant: string, now: real)
    requires Sound(t, cfg, now) && CanAdmit(t, cfg) && tenant !in t.buckets
    ensures Total(Admitted(t, cfg, tenant, now).buckets, cfg, now) <= Total(t.buckets, cfg, now) + Seed(t, cfg, now)
  {
    hide Accrued, Total, Coherent, Admitted, Seed, LeastRecent;
    AdmittedBuckets(t, cfg, tenant, now);
    var b := Stamped(Seed(t, cfg, now), Stamp(now, t.next));
    AccruedAdds(cfg, now, now, now);
    if Full(t, cfg) {
      var v :| v in t.buckets && v != tenant && Admitted(t, cfg, tenant, now).buckets == (t.buckets - {v})[tenant := b];
      StampInPast(t, v, now);
      AccruedAdds(cfg, t.buckets[v].stamp.at, now, now);
      TotalSplit(t.buckets, cfg, now, v);
      TotalUpdate(t.buckets - {v}, cfg, now, tenant, b);
      assert t.buckets - {v} - {tenant} == t.buckets - {v};
    } else {
      TotalUpdate(t.buckets, cfg, now, tenant, b);
      assert t.buckets - {tenant} == t.buckets;
    }
  }

  /** Burst times the cold fraction. */
  function ColdSeed(cfg: Config): real {
    cfg.Burst() * COLD_BURST_FRACTION
  }

  /** What the run may have granted: a burst per full seed, an eighth per eviction, and the rate per slot. */
  function Allowance(r: Run, cfg: Config, start: real): real {
    Times(r.fullSeeds, cfg.Burst()) + Times(r.evictions, ColdSeed(cfg)) + Times(cfg.maxTenants, Accrued(cfg, start, r.clock))
  }

  /** The invariant of a run: the table never shrinks, every slot got one full seed and every eviction one cold
      seed, and what was granted together with what the buckets are worth stays within the allowance. */
  ghost predicate Balanced(r: Run, cfg: Config, start: real) {
    && Sound(r.table, cfg, r.clock)
    && start <= r.clock
    && r.fullSeeds == |r.table.buckets|
    && r.coldSeeds == r.evictions
    && r.granted + Total(r.table.buckets, cfg, r.clock) <= Allowance(r, cfg, start)
  }

  lemma TimesSplits(n: nat, x: real, y: real)
    ensures Times(n, x + y) == Times(n, x) + Times(n, y)
  {
  }

  /** Waiting until the next call. */
  lemma WaitCosts(r: Run, cfg: Config, start: real, now: real)
    requires Balanced(r, cfg, start) && cfg.maxTenants > 0 && r.clock <= now
    ensures r.granted + Total(r.table.buckets, cfg, now) <= Allowance(r.(clock := now), cfg, start)
  {
    hide Accrued, Times, Total, Valid, TokensInRange;
    TotalLater(r.table.buckets, cfg, r.clock, now);
    AccruedAdds(cfg, start, r.clock, now);
    AccruedAdds(cfg, r.clock, now, now);
    TimesSteps(|r.table.buckets|, cfg.maxTenants, Accrued(cfg, r.clock, now));
    TimesSplits(cfg.maxTenants, Accrued(cfg, start, r.clock), Accrued(cfg, r.clock, now));
  }

  lemma TotalAfterCall(t: Table, cfg: Config, clock: real, c: Call)
    requires Sound(t, cfg, clock) && clock <= c.now && Valid(t, c.now)
    ensures var done := TryCharged(t, cfg, c.tenant, c.bytes, c.now);
            && Total(done.0.buckets, cfg, c.now) + (if done.1 then c.bytes as real else 0.0)
               <= Total(t.buckets, cfg, c.now) + (if c.tenant in t.buckets then 0.0 else Seed(t, cfg, c.now))
            && |done.0.buckets| == |t.buckets| + (if c.tenant in t.buckets || Full(t, cfg) then 0 else 1)
  {
    hide Accrued, Total, Coherent, Seed, LeastRecent, TokensInRange;
    ValidCanAdmit(t, cfg, c.now);
    AdmittedValid(t, cfg, c.tenant, c.now);
    var a := Admitted(t, cfg, c.tenant, c.now);
    if c.tenant !in t.buckets {
      AdmissionCosts(t, cfg, c.tenant, c.now);
      AdmittedBuckets(t, cfg, c.tenant, c.now);
    }
    ChargeCosts(a, cfg, c.tenant, c.bytes, c.now);
    var b := Charged(a, cfg, c.tenant, c.bytes, c.now).0.buckets;
    assert b.Keys == a.buckets.Keys;
    assert |b| == |b.Keys| && |a.buckets| == |a.buckets.Keys|;
  }

  lemma CallKeepsBalance(r: Run, cfg: Config, start: real, c: Call)
    requires Balanced(r, cfg, start) && cfg.maxTenants > 0 && r.clock <= c.now
    ensures Valid(r.table, c.now) && Balanced(After(r, cfg, c), cfg, start)
  {
    hide Accrued, Times, Total, Valid, TokensInRange, TryCharged;
    CallKeepsSound(r.table, cfg, r.clock, c);
    WaitCosts(r, cfg, start, c.now);
    TotalAfterCall(r.table, cfg, r.clock, c);
    PressureIffFull(r.table, cfg, r.clock, c.now);
    TimesSteps(r.fullSeeds, 0, cfg.Burst());
    TimesSteps(r.evictions, 0, ColdSeed(cfg));
  }

  /** Calls at instants that never go back. */
  predicate Ordered(calls: seq<Call>, clock: real)
    decreases |calls|
  {
    calls == [] || (clock <= calls[0].now && Ordered(calls[1..], calls[0].now))
  }

  ghost function RunOn(r: Run, cfg: Config, calls: seq<Call>): Run
    requires Sound(r.table, cfg, r.clock) && Ordered(calls, r.clock)
    decreases |calls|
  {
    if calls == [] then r
    else
      CallKeepsSound(r.table, cfg, r.clock, calls[0]);
      RunOn(After(r, cfg, calls[0]), cfg, calls[1..])
  }

  /** Every reachable table, with a cap or without one. */
  lemma {:induction false} RunKeepsSound(r: Run, cfg: Config, calls: seq<Call>)
    requires Sound(r.table, cfg, r.clock) && Ordered(calls, r.clock)
    ensures Sound(RunOn(r, cfg, calls).table, cfg, RunOn(r, cfg, calls).clock)
    decreases |calls|
  {
    hide Sound, TryCharged;
    if calls != [] {
      CallKeepsSound(r.table, cfg, r.clock, calls[0]);
      RunKeepsSound(After(r, cfg, calls[0]), cfg, calls[1..]);
    }
  }

  lemma {:induction false} RunKeepsBalance(r: Run, cfg: Config, start: real, calls: seq<Call>)
    requires Balanced(r, cfg, start) && cfg.maxTenants > 0 && Ordered(calls, r.clock)
    ensures Balanced(RunOn(r, cfg, calls), cfg, start)
    decreases |calls|
  {
    hide Total, Allowance, Sound, TryCharged;
    if calls != [] {
      CallKeepsBalance(r, cfg, start, calls[0]);
      RunKeepsBalance(After(r, cfg, calls[0]), cfg, start, calls[1..]);
    }
  }

  lemma BegunSound(cfg: Config, start: real)
    ensures Sound(EMPTY_TABLE, cfg, start)
  {
    assert Stamps<string, real>(map[]) == map[];
    assert RowsOf<string>(map[]) == {};
  }

  lemma BegunBalanced(cfg: Config, start: real)
    ensures Balanced(Begun(start), cfg, start)
  {
    BegunSound(cfg, start);
    hide Sound;
    AccruedAdds(cfg, start, start, start);
  }

  /** The state a run from an empty table leads to. */
  ghost predicate Reached(cfg: Config, start: real, calls: seq<Call>, r: Run) {
    && Ordered(calls, start)
    && (BegunSound(cfg, start); RunOn(Begun(start), cfg, calls) == r)
  }

  /** Over every run of a limiter with a cap: the bytes granted to all tenants together are at most a burst for
      each of the `M` slots, an eighth of a burst per eviction, and `M` times the refill rate. Full seeds number
      at most `M`; cold seeds are exactly as many as evictions. */
  lemma TotalGrantBounded(cfg: Config, start: real, calls: seq<Call>, r: Run)
    requires cfg.maxTenants > 0 && Reached(cfg, start, calls, r)
    ensures r.fullSeeds == |r.table.buckets| <= cfg.maxTenants && r.coldSeeds == r.evictions
    ensures r.granted <= cfg.maxTenants as real * cfg.Burst() + r.evictions as real * (cfg.Burst() * 0.125)
                         + cfg.maxTenants as real * ((r.clock - start) * cfg.Rate())
  {
    hide RunOn, Total, TokensInRange, Valid;
    BegunBalanced(cfg, start);
    RunKeepsBalance(Begun(start), cfg, start, calls);
    FinalBound(r, cfg, start);
  }

  lemma FinalBound(r: Run, cfg: Config, start: real)
    requires Balanced(r, cfg, start) && cfg.maxTenants > 0
    ensures r.granted <= Times(cfg.maxTenants, cfg.Burst()) + Times(r.evictions, ColdSeed(cfg))
                         + Times(cfg.maxTenants, Accrued(cfg, start, r.clock))
  {
    forall k | k in r.table.buckets ensures r.table.buckets[k].stamp.at <= r.clock {
      StampInPast(r.table, k, r.clock);
    }
    TotalNotNegative(r.table.buckets, cfg, r.clock);
    TimesSteps(r.fullSeeds, cfg.maxTenants, cfg.Burst());
    hide Times, Total;
  }

  // ---------------------------------------------------------------- each tenant

  /** What tenant `k` could still be granted at `at` without waiting or being readmitted. */
  ghost function Credit(t: Table, cfg: Config, k: string, at: real): real {
    if k in t.buckets then Refilled(t.buckets[k], cfg, at)
    else if Full(t, cfg) then 0.0
    else cfg.Burst()
  }

  /** The bytes a call grants to `k`. */
  ghost function GrantTo(t: Table, cfg: Config, k: string, c: Call): real
    requires Valid(t, c.now)
  {
    if c.tenant == k && TryCharged(t, cfg, c.tenant, c.bytes, c.now).1 then c.bytes as real else 0.0
  }

  /** The call readmits `k` into a full table. */
  predicate Readmits(t: Table, cfg: Config, k: string, c: Call) {
    c.tenant == k && Evicts(t, cfg, k)
  }

  lemma CreditInRange(t: Table, cfg: Config, k: string, clock: real)
    requires Sound(t, cfg, clock)
    ensures 0.0 <= Credit(t, cfg, k, clock) <= cfg.Burst()
  {
    hide Accrued;
    if k in t.buckets {
      StampInPast(t, k, clock);
      AccruedAdds(cfg, t.buckets[k].stamp.at, clock, clock);
    }
  }

  lemma CreditLater(t: Table, cfg: Config, k: string, clock: real, now: real)
    requires Sound(t, cfg, clock) && clock <= now
    ensures Credit(t, cfg, k, now) <= Credit(t, cfg, k, clock) + Accrued(cfg, clock, now)
  {
    hide Accrued, Coherent;
    AccruedAdds(cfg, clock, now, now);
    if k in t.buckets {
      AccruedAdds(cfg, t.buckets[k].stamp.at, clock, now);
    }
  }

  /** Admission gives `k` nothing beyond its credit, except a cold seed when it is readmitted. */
  lemma CreditAfterAdmission(t: Table, cfg: Config, k: string, tenant: string, now: real)
    requires Sound(t, cfg, now) && CanAdmit(t, cfg)
    ensures Credit(Admitted(t, cfg, tenant, now), cfg, k, now)
            <= Credit(t, cfg, k, now) + (if tenant == k && Evicts(t, cfg, k) then ColdSeed(cfg) else 0.0)
  {
    hide Accrued, Coherent, LeastRecent, Admitted;
    AccruedAdds(cfg, now, now, now);
    CreditInRange(t, cfg, k, now);
    AdmissionShape(t, cfg, tenant, now);
    PressureIffFull(t, cfg, now, now);
  }

  lemma AdmissionShape(t: Table, cfg: Config, tenant: string, now: real)
    requires Sound(t, cfg, now) && CanAdmit(t, cfg)
    ensures var a := Admitted(t, cfg, tenant, now);
            && (tenant in t.buckets ==> a == t)
            && (tenant !in t.buckets ==> tenant in a.buckets && a.buckets[tenant] == Stamped(Seed(t, cfg, now), Stamp(now, t.next)))
            && (forall k :: k != tenant && k in a.buckets ==> k in t.buckets && a.buckets[k] == t.buckets[k])
            && (forall k :: k != tenant && k in t.buckets && k !in a.buckets ==> Full(a, cfg))
            && (Full(t, cfg) ==> Full(a, cfg))
  {
    hide Coherent, LeastRecent, Seed;
    if tenant !in t.buckets {
      AdmittedBuckets(t, cfg, tenant, now);
    }
  }

  /** Charging takes from the credit what it grants. */
  lemma CreditAfterCharge(t: Table, cfg: Config, k: string, tenant: string, bytes: nat, now: real)
    requires Sound(t, cfg, now) && tenant in t.buckets
    ensures var r := Charged(t, cfg, tenant, bytes, now);
            Credit(r.0, cfg, k, now) + (if tenant == k && r.1 then bytes as real else 0.0) <= Credit(t, cfg, k, now)
  {
    hide Accrued, Coherent;
    AccruedAdds(cfg, now, now, now);
    var r := Charged(t, cfg, tenant, bytes, now);
    assert r.0.buckets.Keys == t.buckets.Keys;
    assert |r.0.buckets| == |r.0.buckets.Keys| && |t.buckets| == |t.buckets.Keys|;
  }

  lemma CreditAfterCall(t: Table, cfg: Config, k: string, clock: real, c: Call)
    requires Sound(t, cfg, clock) && clock <= c.now && Valid(t, c.now)
    ensures GrantTo(t, cfg, k, c) + Credit(TryCharged(t, cfg, c.tenant, c.bytes, c.now).0, cfg, k, c.now)
            <= Credit(t, cfg, k, clock) + Accrued(cfg, clock, c.now) + (if Readmits(t, cfg, k, c) then ColdSeed(cfg) else 0.0)
  {
    hide Accrued, Coherent, Credit, Admitted, Charged, TokensInRange;
    ValidCanAdmit(t, cfg, c.now);
    AdmittedValid(t, cfg, c.tenant, c.now);
    AdmittedSound(t, cfg, c.tenant, c.now);
    CreditLater(t, cfg, k, clock, c.now);
    CreditAfterAdmission(t, cfg, k, c.tenant, c.now);
    CreditAfterCharge(Admitted(t, cfg, c.tenant, c.now), cfg, k, c.tenant, c.bytes, c.now);
  }

  /** Bytes granted to `k` over a sequence of calls, and how often it was readmitted. */
  ghost function Granted(t: Table, cfg: Config, clock: real, k: string, calls: seq<Call>): (real, nat)
    requires Sound(t, cfg, clock) && Ordered(calls, clock)
    decreases |calls|
  {
    if calls == [] then (0.0, 0)
    else
      var c := calls[0];
      CallKeepsSound(t, cfg, clock, c);
      var rest := Granted(TryCharged(t, cfg, c.tenant, c.bytes, c.now).0, cfg, c.now, k, calls[1..]);
      (GrantTo(t, cfg, k, c) + rest.0, (if Readmits(t, cfg, k, c) then 1 else 0) + rest.1)
  }

  function LastInstant(clock: real, calls: seq<Call>): real {
    if calls == [] then clock else calls[|calls| - 1].now
  }

  lemma {:induction false} GrantWithinCredit(t: Table, cfg: Config, clock: real, k: string, calls: seq<Call>)
    requires Sound(t, cfg, clock) && Ordered(calls, clock)
    ensures var g := Granted(t, cfg, clock, k, calls);
            g.0 <= Credit(t, cfg, k, clock) + Accrued(cfg, clock, LastInstant(clock, calls)) + Times(g.1, ColdSeed(cfg))
    decreases |calls|
  {
    hide Accrued, Times, Credit, TryCharged, Valid, TokensInRange, ColdSeed;
    if calls == [] {
      CreditInRange(t, cfg, k, clock);
      AccruedAdds(cfg, clock, clock, clock);
      TimesSteps(0, 0, ColdSeed(cfg));
    } else {
      var c := calls[0];
      CallKeepsSound(t, cfg, clock, c);
      CreditAfterCall(t, cfg, k, clock, c);
      var t' := TryCharged(t, cfg, c.tenant, c.bytes, c.now).0;
      GrantWithinCredit(t', cfg, c.now, k, calls[1..]);
      AccruedAdds(cfg, clock, c.now, LastInstant(clock, calls));
      TimesSteps(Granted(t', cfg, c.now, k, calls[1..]).1, 0, ColdSeed(cfg));
    }
  }

  /** From any sound state, whoever else calls: one tenant is granted at most a burst, the refill of the elapsed
      time, and an eighth of a burst per readmission. */
  lemma TenantGrantBounded(t: Table, cfg: Config, from: real, k: string, calls: seq<Call>)
    requires Sound(t, cfg, from) && Ordered(calls, from)
    ensures var g := Granted(t, cfg, from, k, calls);
            g.0 <= cfg.Burst() + (LastInstant(from, calls) - from) * cfg.Rate() + g.1 as real * (cfg.Burst() * 0.125)
  {
    hide Granted, Credit, Sound;
    CreditInRange(t, cfg, k, from);
    GrantWithinCredit(t, cfg, from, k, calls);
  }
}
