/** The gateway's token buckets: a bounded table with least-recently-used eviction and a cold seed under
    eviction pressure. Instants and tokens are reals. */
module RateLimiter {
  import opened Options
  import opened Lru

  const EVICTION_COOLDOWN_SECS: real := 60.0
  const COLD_BURST_FRACTION: real := 0.125

  datatype Config = Config(bytesPerSec: nat, burstBytes: nat, maxTenants: nat) {
    function Rate(): real { bytesPerSec as real }
    function Burst(): real { burstBytes as real }
  }

  /** Tokens, stamped with the last refill. */
  type Bucket = Stamped<real>

  datatype Table = Table(buckets: map<string, Bucket>, index: set<Row<string>>, next: nat, lastEviction: Option<real>)

  const EMPTY_TABLE := Table(map[], {}, 0, None)

  predicate Full(t: Table, cfg: Config) {
    cfg.maxTenants > 0 && |t.buckets| >= cfg.maxTenants
  }

  /** Index and map agree, and no stamp lies after `now`. */
  ghost predicate Valid(t: Table, now: real) {
    Coherent(Stamps(t.buckets), t.index, t.next, now)
  }

  // ---------------------------------------------------------------- one call, on values

  /** The table without its least recently stamped bucket. */
  ghost function Evicted(t: Table): Table
    requires exists k :: LeastRecent(Stamps(t.buckets), k)
  {
    var v := Victim(Stamps(t.buckets));
    t.(buckets := t.buckets - {v}, index := t.index - {Row(t.buckets[v].stamp, v)})
  }

  predicate UnderPressure(t: Table, cfg: Config, now: real) {
    Full(t, cfg) || (t.lastEviction.Some? && now - t.lastEviction.value < EVICTION_COOLDOWN_SECS)
  }

  function Seed(t: Table, cfg: Config, now: real): real {
    if UnderPressure(t, cfg, now) then cfg.Burst() * COLD_BURST_FRACTION else cfg.Burst()
  }

  function Inserted(t: Table, tenant: string, seed: real, now: real): Table {
    t.(buckets := t.buckets[tenant := Stamped(seed, Stamp(now, t.next))],
       index := t.index + {Row(Stamp(now, t.next), tenant)}, next := t.next + 1)
  }

  ghost predicate CanAdmit(t: Table, cfg: Config) {
    Full(t, cfg) ==> exists k :: LeastRecent(Stamps(t.buckets), k)
  }

  /** A table that has a bucket for the tenant: evict when full, seed, insert. */
  ghost function Admitted(t: Table, cfg: Config, tenant: string, now: real): Table
    requires CanAdmit(t, cfg)
  {
    if tenant in t.buckets then t
    else if Full(t, cfg) then Inserted(Evicted(t), tenant, Seed(t, cfg, now), now).(lastEviction := Some(now))
    else Inserted(t, tenant, Seed(t, cfg, now), now)
  }

  /** Tokens that accrue between two instants. */
  function Accrued(cfg: Config, from: real, to: real): real {
    (to - from) * cfg.Rate()
  }

  function Refilled(b: Bucket, cfg: Config, now: real): real {
    var tokens := b.value + Accrued(cfg, b.stamp.at, now);
    if tokens < cfg.Burst() then tokens else cfg.Burst()
  }

  /** Refill the tenant's bucket, stamp it, and take the bytes if they are there. */
  function Charged(t: Table, cfg: Config, tenant: string, bytes: nat, now: real): (Table, bool)
    requires tenant in t.buckets
  {
    var b := t.buckets[tenant];
    var tokens := Refilled(b, cfg, now);
    var ok := tokens >= bytes as real;
    (t.(buckets := t.buckets[tenant := Stamped(if ok then tokens - bytes as real else tokens, Stamp(now, t.next))],
        index := t.index - {Row(b.stamp, tenant)} + {Row(Stamp(now, t.next), tenant)}, next := t.next + 1), ok)
  }

  // ---------------------------------------------------------------- the index stays exact

  lemma ValidCanAdmit(t: Table, cfg: Config, now: real)
    requires Valid(t, now)
    ensures CanAdmit(t, cfg)
  {
    if Full(t, cfg) {
      assert t.buckets.Keys != {};
      assert Stamps(t.buckets).Keys == t.buckets.Keys;
      LeastRecentExists(Stamps(t.buckets));
    }
  }

  lemma AdmittedValid(t: Table, cfg: Config, tenant: string, now: real)
    requires Valid(t, now) && CanAdmit(t, cfg)
    ensures Valid(Admitted(t, cfg, tenant, now), now) && tenant in Admitted(t, cfg, tenant, now).buckets
  {
    hide Coherent, Stamps;
    var t1 := t;
    if tenant !in t.buckets {
      if Full(t, cfg) {
        var v := Victim(Stamps(t.buckets));
        StampsUpdate(t.buckets, v, Stamped(0.0, Stamp(now, 0)));
        StampAt(t.buckets, v);
        DropKeepsCoherent(Stamps(t.buckets), t.index, t.next, now, v);
        t1 := Evicted(t);
      }
      StampsUpdate(t1.buckets, tenant, Stamped(Seed(t, cfg, now), Stamp(now, t1.next)));
      StampKeepsCoherent(Stamps(t1.buckets), t1.index, t1.next, now, tenant);
      assert tenant !in Stamps(t1.buckets);
      assert t1.index - {} == t1.index;
    }
  }

  lemma ChargedValid(t: Table, cfg: Config, tenant: string, bytes: nat, now: real)
    requires Valid(t, now) && tenant in t.buckets
    ensures Valid(Charged(t, cfg, tenant, bytes, now).0, now)
  {
    hide Coherent, Refilled;
    var t' := Charged(t, cfg, tenant, bytes, now).0;
    StampsUpdate(t.buckets, tenant, t'.buckets[tenant]);
    StampKeepsCoherent(Stamps(t.buckets), t.index, t.next, now, tenant);
  }

  // ---------------------------------------------------------------- the limiter

  ghost function TryCharged(t: Table, cfg: Config, tenant: string, bytes: nat, now: real): (Table, bool)
    requires Valid(t, now)
  {
    ValidCanAdmit(t, cfg, now);
    AdmittedValid(t, cfg, tenant, now);
    Charged(Admitted(t, cfg, tenant, now), cfg, tenant, bytes, now)
  }

  class RateLimiter {
    const cfg: Config
    var buckets: map<string, Bucket>
    var lruIndex: set<Row<string>>
    var nextLruSeq: nat
    var lastEviction: Option<real>

    function Value(): Table
      reads this
    {
      Table(buckets, lruIndex, nextLruSeq, lastEviction)
    }

    constructor (cfg: Config)
      ensures this.cfg == cfg && Value() == EMPTY_TABLE
    {
      this.cfg, buckets, lruIndex, nextLruSeq, lastEviction := cfg, map[], {}, 0, None;
    }

    /** Remove the first row of the index and its bucket. */
    method EvictFirst(ghost now: real)
      requires Valid(Value(), now) && exists k :: LeastRecent(Stamps(buckets), k)
      modifies this
      ensures Value() == Evicted(old(Value()))
    {
      NoRowsNoKeys(Stamps(buckets), lruIndex, nextLruSeq, now);
      var victim := OldestRow(Stamps(buckets), lruIndex, nextLruSeq, now, (a: string, b: string) => false);
      StampAt(buckets, victim.key);
      buckets := buckets - {victim.key};
      lruIndex := lruIndex - {victim};
    }

    /** Make sure the tenant has a bucket. */
    method Admit(tenant: string, now: real)
      requires Valid(Value(), now)
      modifies this
      ensures CanAdmit(old(Value()), cfg) && Value() == Admitted(old(Value()), cfg, tenant, now)
    {
      ValidCanAdmit(Value(), cfg, now);
      hide Coherent, Stamps;
      if tenant in buckets {
        return;
      }
      var evictedNow := false;
      var startingTokens := Seed(Value(), cfg, now);
      if cfg.maxTenants > 0 && |buckets| >= cfg.maxTenants {
        EvictFirst(now);
        evictedNow := true;
      }
      if evictedNow {
        lastEviction := Some(now);
      }
      buckets := buckets[tenant := Stamped(startingTokens, Stamp(now, nextLruSeq))];
      lruIndex := lruIndex + {Row(Stamp(now, nextLruSeq), tenant)};
      nextLruSeq := nextLruSeq + 1;
    }

    /** Refill, stamp and charge the tenant's bucket. */
    method Charge(tenant: string, bytes: nat, now: real) returns (ok: bool)
      requires tenant in buckets
      modifies this
      ensures (Value(), ok) == Charged(old(Value()), cfg, tenant, bytes, now)
    {
      var bucket := buckets[tenant];
      lruIndex := lruIndex - {Row(bucket.stamp, tenant)} + {Row(Stamp(now, nextLruSeq), tenant)};
      var elapsed := now - bucket.stamp.at;
      var tokens := bucket.value + elapsed * cfg.Rate();
      if tokens >= cfg.Burst() {
        tokens := cfg.Burst();
      }
      assert tokens == Refilled(bucket, cfg, now);
      ok := tokens >= bytes as real;
      if ok {
        tokens := tokens - bytes as real;
      }
      buckets := buckets[tenant := Stamped(tokens, Stamp(now, nextLruSeq))];
      nextLruSeq := nextLruSeq + 1;
      assert Value() == Charged(old(Value()), cfg, tenant, bytes, now).0;
    }

    method TryCharge(tenant: string, bytes: nat, now: real) returns (ok: bool)
      requires Valid(Value(), now)
      modifies this
      ensures (Value(), ok) == TryCharged(old(Value()), cfg, tenant, bytes, now)
      ensures Valid(Value(), now)
    {
      hide Valid, Admitted, Charged;
      Admit(tenant, now);
      AdmittedValid(old(Value()), cfg, tenant, now);
      ChargedValid(Value(), cfg, tenant, bytes, now);
      ok := Charge(tenant, bytes, now);
    }
  }
}
