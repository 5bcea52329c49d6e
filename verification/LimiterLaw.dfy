/** The exact law of the rate limiter: which calls it grants, told from the calls alone. */
module LimiterLaw {
  import opened Lru
  import opened Residency
  import opened RateLimiter
  import opened RateBounds

  // ---------------------------------------------------------------- the run, call by call

  function ClockAt(start: real, calls: seq<Call>, n: nat): real
    requires n <= |calls|
  {
    if n == 0 then start else calls[n - 1].now
  }

  lemma {:induction false} OrderedAt(calls: seq<Call>, clock: real, n: nat)
    requires Ordered(calls, clock) && n < |calls|
    ensures ClockAt(clock, calls, n) <= calls[n].now
    decreases n
  {
    if n > 0 {
      OrderedAt(calls[1..], calls[0].now, n - 1);
    }
  }

  /** The table before call `n` of a run from an empty one. */
  ghost function TableAt(cfg: Config, start: real, calls: seq<Call>, n: nat): (t: Table)
    requires Ordered(calls, start) && n <= |calls|
    ensures Sound(t, cfg, ClockAt(start, calls, n))
  {
    if n == 0 then
      BegunSound(cfg, start);
      EMPTY_TABLE
    else
      OrderedAt(calls, start, n - 1);
      CallKeepsSound(TableAt(cfg, start, calls, n - 1), cfg, ClockAt(start, calls, n - 1), calls[n - 1]);
      TryCharged(TableAt(cfg, start, calls, n - 1), cfg, calls[n - 1].tenant, calls[n - 1].bytes, calls[n - 1].now).0
  }

  lemma TableValid(cfg: Config, start: real, calls: seq<Call>, n: nat)
    requires Ordered(calls, start) && n < |calls|
    ensures Sound(TableAt(cfg, start, calls, n), cfg, calls[n].now)
  {
    hide Coherent, TableAt;
    OrderedAt(calls, start, n);
    var t := TableAt(cfg, start, calls, n);
    LaterKeepsCoherent(Stamps(t.buckets), t.index, t.next, ClockAt(start, calls, n), calls[n].now);
  }

  /** Call `n` is granted. */
  ghost predicate Allows(cfg: Config, start: real, calls: seq<Call>, n: nat)
    requires Ordered(calls, start) && n < |calls|
  {
    TableValid(cfg, start, calls, n);
    TryCharged(TableAt(cfg, start, calls, n), cfg, calls[n].tenant, calls[n].bytes, calls[n].now).1
  }

  lemma {:induction false} TableAtIsRun(cfg: Config, start: real, calls: seq<Call>, n: nat, r: Run)
    requires Ordered(calls, start) && n <= |calls|
    requires r.table == TableAt(cfg, start, calls, n) && r.clock == ClockAt(start, calls, n) && Ordered(calls[n..], r.clock)
    ensures RunOn(r, cfg, calls[n..]).table == TableAt(cfg, start, calls, |calls|)
    decreases |calls| - n
  {
    hide Sound, TryCharged;
    if n < |calls| {
      OrderedAt(calls, start, n);
      CallKeepsSound(r.table, cfg, r.clock, calls[n]);
      assert calls[n..][1..] == calls[n + 1..];
      TableAtIsRun(cfg, start, calls, n + 1, After(r, cfg, calls[n]));
    }
  }

  /** These are the tables of the runs from an empty one. */
  lemma ReachedTable(cfg: Config, start: real, calls: seq<Call>, r: Run)
    requires Reached(cfg, start, calls, r)
    ensures r.table == TableAt(cfg, start, calls, |calls|)
  {
    hide RunOn, Sound;
    BegunSound(cfg, start);
    assert calls[0..] == calls;
    TableAtIsRun(cfg, start, calls, 0, Begun(start));
  }

  // ---------------------------------------------------------------- who has a bucket

  function Names(calls: seq<Call>, n: nat): (log: seq<string>)
    requires n <= |calls|
    ensures |log| == n
  {
    seq(n, i requires 0 <= i < n => calls[i].tenant)
  }

  lemma NamesGrow(calls: seq<Call>, n: nat)
    requires n < |calls|
    ensures Names(calls, n + 1) == Names(calls, n) + [calls[n].tenant]
  {
  }

  lemma StampsSize(buckets: map<string, Bucket>)
    ensures |Stamps(buckets)| == |buckets|
  {
    assert Stamps(buckets).Keys == buckets.Keys;
  }

  /** What a call does to the buckets: the caller's is charged; another's stays, or is the least recent and goes. */
  lemma CallShape(t: Table, cfg: Config, c: Call, k: string)
    requires Sound(t, cfg, c.now)
    ensures var q := TryCharged(t, cfg, c.tenant, c.bytes, c.now).0;
            && c.tenant in q.buckets && q.buckets[c.tenant].stamp.order >= t.next
            && (k != c.tenant && k in q.buckets ==> k in t.buckets && q.buckets[k] == t.buckets[k])
            && (k != c.tenant && k in t.buckets && k !in q.buckets
                ==> c.tenant !in t.buckets && Full(t, cfg) && LeastRecent(Stamps(t.buckets), k))
  {
    hide Coherent, Seed, LeastRecent, Refilled;
    ValidCanAdmit(t, cfg, c.now);
    if c.tenant !in t.buckets {
      AdmittedBuckets(t, cfg, c.tenant, c.now);
    }
  }

  lemma CallSizes(t: Table, cfg: Config, c: Call)
    requires Sound(t, cfg, c.now)
    ensures var q := TryCharged(t, cfg, c.tenant, c.bytes, c.now).0;
            |t.buckets| <= |q.buckets| && (cfg.maxTenants > 0 ==> |q.buckets| <= cfg.maxTenants)
  {
    hide Valid, TokensInRange, TryCharged, Total, Seed;
    CallKeepsSound(t, cfg, c.now, c);
    TotalAfterCall(t, cfg, c.now, c);
  }

  lemma StampBelow(t: Table, now: real, k: string)
    requires Valid(t, now) && k in t.buckets
    ensures t.buckets[k].stamp.order < t.next
  {
    assert Stamps(t.buckets)[k] == t.buckets[k].stamp;
  }

  lemma CallUses(t: Table, cfg: Config, c: Call)
    requires Sound(t, cfg, c.now)
    ensures var q := TryCharged(t, cfg, c.tenant, c.bytes, c.now).0;
            Uses(Stamps(t.buckets), Stamps(q.buckets), c.tenant, cfg.maxTenants)
  {
    hide Valid, TokensInRange, TryCharged, LeastRecent;
    var q := TryCharged(t, cfg, c.tenant, c.bytes, c.now).0;
    var before, after := Stamps(t.buckets), Stamps(q.buckets);
    CallShape(t, cfg, c, c.tenant);
    CallSizes(t, cfg, c);
    StampsSize(t.buckets);
    StampsSize(q.buckets);
    forall k | k in after && k != c.tenant
      ensures k in before && after[k] == before[k] && before[k].order < after[c.tenant].order
    {
      CallShape(t, cfg, c, k);
      StampBelow(t, c.now, k);
    }
    forall k | k in before && k != c.tenant && k !in after
      ensures c.tenant !in before && Full(t, cfg) && LeastRecent(before, k)
    {
      CallShape(t, cfg, c, k);
    }
  }

  lemma TableSteps(cfg: Config, start: real, calls: seq<Call>, n: nat)
    requires Ordered(calls, start) && n < |calls|
    ensures var t, c := TableAt(cfg, start, calls, n), calls[n];
            Sound(t, cfg, c.now) && TableAt(cfg, start, calls, n + 1) == TryCharged(t, cfg, c.tenant, c.bytes, c.now).0
  {
    hide Sound, TryCharged;
    TableValid(cfg, start, calls, n);
  }

  lemma {:induction false} TableTracks(cfg: Config, start: real, calls: seq<Call>, n: nat)
    requires Ordered(calls, start) && n <= |calls|
    ensures Tracks(Stamps(TableAt(cfg, start, calls, n).buckets), Names(calls, n), cfg.maxTenants)
  {
    hide Sound, TryCharged, Tracks, Uses;
    if n == 0 {
      EmptyTracks<string>(cfg.maxTenants);
      assert Stamps<string, real>(map[]) == map[];
    } else {
      TableTracks(cfg, start, calls, n - 1);
      TableSteps(cfg, start, calls, n - 1);
      NamesGrow(calls, n - 1);
      hide TableAt, Stamps;
      var t, c := TableAt(cfg, start, calls, n - 1), calls[n - 1];
      CallUses(t, cfg, c);
      UseKeepsTracks(Stamps(t.buckets), Stamps(TableAt(cfg, start, calls, n).buckets), Names(calls, n - 1), c.tenant,
                     cfg.maxTenants);
    }
  }

  /** Before call `n` the tenant has a bucket: it called, and fewer than `maxTenants` others did since. */
  ghost predicate Resident(cfg: Config, calls: seq<Call>, n: nat, k: string)
    requires n <= |calls|
  {
    Recent(Names(calls, n), k, cfg.maxTenants)
  }

  lemma ResidentIff(cfg: Config, start: real, calls: seq<Call>, n: nat, k: string)
    requires Ordered(calls, start) && n <= |calls|
    ensures k in TableAt(cfg, start, calls, n).buckets <==> Resident(cfg, calls, n, k)
  {
    TableTracks(cfg, start, calls, n);
    hide TableAt, Tracks, Recent;
    HeldIffRecent(Stamps(TableAt(cfg, start, calls, n).buckets), Names(calls, n), k, cfg.maxTenants);
  }

  /** Call `s` admits its tenant. */
  ghost predicate Admits(cfg: Config, calls: seq<Call>, s: nat)
    requires s < |calls|
  {
    !Resident(cfg, calls, s, calls[s].tenant)
  }

  /** The seed of an admission: an eighth of the burst once as many tenants called as the table has slots. */
  function SeedOf(cfg: Config, calls: seq<Call>, s: nat): real
    requires s < |calls|
  {
    if cfg.maxTenants > 0 && |Users(Names(calls, s))| >= cfg.maxTenants then cfg.Burst() * 0.125 else cfg.Burst()
  }

  lemma SeedIs(cfg: Config, start: real, calls: seq<Call>, s: nat)
    requires Ordered(calls, start) && s < |calls|
    ensures Seed(TableAt(cfg, start, calls, s), cfg, calls[s].now) == SeedOf(cfg, calls, s)
  {
    TableTracks(cfg, start, calls, s);
    TableValid(cfg, start, calls, s);
    var t := TableAt(cfg, start, calls, s);
    hide TableAt, Tracks, Valid;
    HeldCount(Stamps(t.buckets), Names(calls, s), cfg.maxTenants);
    StampsSize(t.buckets);
    PressureIffFull(t, cfg, calls[s].now, calls[s].now);
  }

  // ---------------------------------------------------------------- what a bucket holds

  /** The rate times the time that passed. */
  function Earned(cfg: Config, from: real, to: real): real {
    cfg.bytesPerSec as real * (to - from)
  }

  lemma EarnedIs(cfg: Config, a: real, b: real)
    ensures Earned(cfg, a, b) == Accrued(cfg, a, b)
  {
  }

  lemma EarnedAdds(cfg: Config, a: real, b: real, c: real)
    ensures Earned(cfg, a, c) == Earned(cfg, a, b) + Earned(cfg, b, c)
    ensures Earned(cfg, a, a) == 0.0
  {
  }

  /** Bytes granted to `k` by the calls from `i` up to `j`. */
  ghost function GrantedBytes(cfg: Config, start: real, calls: seq<Call>, k: string, i: nat, j: nat): real
    requires Ordered(calls, start) && j <= |calls|
    decreases j
  {
    if j <= i then 0.0
    else GrantedBytes(cfg, start, calls, k, i, j - 1)
         + if calls[j - 1].tenant == k && Allows(cfg, start, calls, j - 1) then calls[j - 1].bytes as real else 0.0
  }

  /** In the window from call `i` there is room for `x` more at `at`. */
  ghost predicate WindowFits(cfg: Config, start: real, calls: seq<Call>, k: string, i: nat, n: nat, x: real, at: real)
    requires Ordered(calls, start) && i < n <= |calls|
  {
    x + GrantedBytes(cfg, start, calls, k, i, n) <= cfg.Burst() + Earned(cfg, calls[i].now, at)
  }

  /** The token-bucket law: `x` more fits a burst, fits the seed and refill since the admission at `s`, and fits a burst
      and refill since each call of the tenant in between. */
  ghost predicate Affords(cfg: Config, start: real, calls: seq<Call>, k: string, s: nat, n: nat, x: real, at: real)
    requires Ordered(calls, start) && s <= n <= |calls| && s < |calls|
  {
    && x <= cfg.Burst()
    && x + GrantedBytes(cfg, start, calls, k, s, n) <= SeedOf(cfg, calls, s) + Earned(cfg, calls[s].now, at)
    && forall i: nat :: s <= i < n && calls[i].tenant == k ==> WindowFits(cfg, start, calls, k, i, n, x, at)
  }

  /** The tenant's bucket was admitted at `s` and is there up to `n`. */
  ghost predicate Keeps(cfg: Config, calls: seq<Call>, s: nat, n: nat) {
    && s <= n <= |calls| && s < |calls| && Admits(cfg, calls, s)
    && forall m: nat :: s < m <= n ==> Resident(cfg, calls, m, calls[s].tenant)
  }

  /** A charge: more is left in the new bucket by `x` at `at` exactly when it would have fit on top of the grant. */
  lemma ChargeIff(t: Table, cfg: Config, tenant: string, bytes: nat, now: real, x: real, at: real)
    requires tenant in t.buckets
    ensures var r := Charged(t, cfg, tenant, bytes, now); var g := if r.1 then bytes as real else 0.0;
            && (r.1 <==> bytes as real <= Refilled(t.buckets[tenant], cfg, now))
            && (x <= Refilled(r.0.buckets[tenant], cfg, at)
                <==> x <= cfg.Burst() && x + g - Earned(cfg, now, at) <= Refilled(t.buckets[tenant], cfg, now))
  {
    EarnedIs(cfg, now, at);
    hide Accrued, Earned;
  }

  /** The bucket call `n` is charged to: the tenant's own, or a seeded one. */
  ghost function BucketAt(cfg: Config, start: real, calls: seq<Call>, n: nat): Bucket
    requires Ordered(calls, start) && n < |calls|
  {
    var t := TableAt(cfg, start, calls, n);
    if calls[n].tenant in t.buckets then t.buckets[calls[n].tenant]
    else Stamped(SeedOf(cfg, calls, n), Stamp(calls[n].now, 0))
  }

  lemma CallCharges(cfg: Config, start: real, calls: seq<Call>, n: nat, x: real, at: real)
    requires Ordered(calls, start) && n < |calls|
    ensures var c := calls[n]; var b := BucketAt(cfg, start, calls, n); var after := TableAt(cfg, start, calls, n + 1).buckets;
            var g := if Allows(cfg, start, calls, n) then c.bytes as real else 0.0;
            && (Allows(cfg, start, calls, n) <==> c.bytes as real <= Refilled(b, cfg, c.now))
            && c.tenant in after
            && (x <= Refilled(after[c.tenant], cfg, at)
                <==> x <= cfg.Burst() && x + g - Earned(cfg, c.now, at) <= Refilled(b, cfg, c.now))
  {
    TableSteps(cfg, start, calls, n);
    var t, c := TableAt(cfg, start, calls, n), calls[n];
    SeedIs(cfg, start, calls, n);
    hide Valid, TableAt, Seed, SeedOf, Accrued, Earned, Charged;
    ValidCanAdmit(t, cfg, c.now);
    AdmittedValid(t, cfg, c.tenant, c.now);
    AdmissionShape(t, cfg, c.tenant, c.now);
    ChargeIff(Admitted(t, cfg, c.tenant, c.now), cfg, c.tenant, c.bytes, c.now, x, at);
  }

  // ---------------------------------------------------------------- the law

  lemma AffordsAfterOther(cfg: Config, start: real, calls: seq<Call>, k: string, s: nat, n: nat, x: real, at: real)
    requires Ordered(calls, start) && s <= n < |calls| && calls[n].tenant != k
    ensures Affords(cfg, start, calls, k, s, n + 1, x, at) <==> Affords(cfg, start, calls, k, s, n, x, at)
  {
    hide Allows, Earned, SeedOf;
    assert forall i: nat | s <= i < n && calls[i].tenant == k ::
        WindowFits(cfg, start, calls, k, i, n + 1, x, at) <==> WindowFits(cfg, start, calls, k, i, n, x, at);
  }

  lemma WindowAfterOwn(cfg: Config, start: real, calls: seq<Call>, n: nat, i: nat, x: real, at: real)
    requires Ordered(calls, start) && i < n < |calls|
    ensures var k, g := calls[n].tenant, if Allows(cfg, start, calls, n) then calls[n].bytes as real else 0.0;
            WindowFits(cfg, start, calls, k, i, n + 1, x, at)
            <==> WindowFits(cfg, start, calls, k, i, n, x + g - Earned(cfg, calls[n].now, at), calls[n].now)
  {
    hide Allows, Earned;
    EarnedAdds(cfg, calls[i].now, calls[n].now, at);
  }

  lemma AffordsAfterOwn(cfg: Config, start: real, calls: seq<Call>, s: nat, n: nat, x: real, at: real)
    requires Ordered(calls, start) && s <= n < |calls|
    ensures var k, g := calls[n].tenant, if Allows(cfg, start, calls, n) then calls[n].bytes as real else 0.0;
            Affords(cfg, start, calls, k, s, n + 1, x, at)
            <==> && x <= cfg.Burst()
                 && Affords(cfg, start, calls, k, s, n, x + g - Earned(cfg, calls[n].now, at), calls[n].now)
  {
    hide Allows, Earned, SeedOf;
    var k, g := calls[n].tenant, if Allows(cfg, start, calls, n) then calls[n].bytes as real else 0.0;
    var y := x + g - Earned(cfg, calls[n].now, at);
    assert GrantedBytes(cfg, start, calls, k, s, n + 1) == GrantedBytes(cfg, start, calls, k, s, n) + g;
    assert GrantedBytes(cfg, start, calls, k, n, n + 1) == g;
    EarnedAdds(cfg, calls[s].now, calls[n].now, at);
    assert WindowFits(cfg, start, calls, k, n, n + 1, x, at) <==> y <= cfg.Burst();
    hide GrantedBytes;
    forall i: nat | s <= i < n && calls[i].tenant == k
      ensures WindowFits(cfg, start, calls, k, i, n + 1, x, at) <==> WindowFits(cfg, start, calls, k, i, n, y, calls[n].now)
    {
      WindowAfterOwn(cfg, start, calls, n, i, x, at);
    }
    hide WindowFits;
  }

  /** Between its own calls a tenant's bucket does not change. */
  lemma OtherCallKeeps(cfg: Config, start: real, calls: seq<Call>, n: nat, k: string)
    requires Ordered(calls, start) && n < |calls| && calls[n].tenant != k
    requires k in TableAt(cfg, start, calls, n + 1).buckets
    ensures k in TableAt(cfg, start, calls, n).buckets
    ensures TableAt(cfg, start, calls, n + 1).buckets[k] == TableAt(cfg, start, calls, n).buckets[k]
  {
    hide Sound, TableAt, TryCharged;
    TableSteps(cfg, start, calls, n);
    CallShape(TableAt(cfg, start, calls, n), cfg, calls[n], k);
  }

  /** What is in the bucket is what the law says, at every later instant. */
  lemma {:induction false} RefillIff(cfg: Config, start: real, calls: seq<Call>, s: nat, n: nat, x: real, at: real)
    requires Ordered(calls, start) && s < n && Keeps(cfg, calls, s, n)
    ensures var k := calls[s].tenant;
            && k in TableAt(cfg, start, calls, n).buckets
            && (x <= Refilled(TableAt(cfg, start, calls, n).buckets[k], cfg, at) <==> Affords(cfg, start, calls, k, s, n, x, at))
    decreases n, 0
  {
    hide TableAt, Resident, Affords, Earned, Refilled;
    var k := calls[s].tenant;
    ResidentIff(cfg, start, calls, n, k);
    if calls[n - 1].tenant == k {
      var c := calls[n - 1];
      CallCharges(cfg, start, calls, n - 1, x, at);
      AffordsAfterOwn(cfg, start, calls, s, n - 1, x, at);
      var g := if Allows(cfg, start, calls, n - 1) then c.bytes as real else 0.0;
      HeldIff(cfg, start, calls, s, n - 1, x + g - Earned(cfg, c.now, at));
    } else {
      OtherCallKeeps(cfg, start, calls, n - 1, k);
      AffordsAfterOther(cfg, start, calls, k, s, n - 1, x, at);
      RefillIff(cfg, start, calls, s, n - 1, x, at);
    }
  }

  /** In particular just before the tenant's next call, or at the admission itself. */
  lemma {:induction false} HeldIff(cfg: Config, start: real, calls: seq<Call>, s: nat, n: nat, x: real)
    requires Ordered(calls, start) && Keeps(cfg, calls, s, n) && n < |calls| && calls[n].tenant == calls[s].tenant
    ensures x <= Refilled(BucketAt(cfg, start, calls, n), cfg, calls[n].now)
            <==> Affords(cfg, start, calls, calls[s].tenant, s, n, x, calls[n].now)
    decreases n, 1
  {
    hide TableAt, Resident, Accrued, Earned;
    if n == s {
      ResidentIff(cfg, start, calls, n, calls[s].tenant);
      EarnedAdds(cfg, calls[n].now, calls[n].now, calls[n].now);
      EarnedIs(cfg, calls[n].now, calls[n].now);
    } else {
      hide Refilled, Affords;
      RefillIff(cfg, start, calls, s, n, x, calls[n].now);
    }
  }

  /** Every call has an admission of its tenant at or before it, after which the tenant keeps its bucket. */
  lemma {:induction false} AdmissionOf(cfg: Config, start: real, calls: seq<Call>, j: nat) returns (s: nat)
    requires Ordered(calls, start) && j < |calls|
    ensures s <= j && calls[s].tenant == calls[j].tenant && Keeps(cfg, calls, s, j)
  {
    hide Resident;
    s := KeptFrom(cfg, start, calls, j, j, calls[j].tenant);
  }

  lemma {:induction false} KeptFrom(cfg: Config, start: real, calls: seq<Call>, m: nat, j: nat, k: string) returns (s: nat)
    requires Ordered(calls, start) && m <= j < |calls| && calls[j].tenant == k
    requires forall n: nat :: m < n <= j ==> Resident(cfg, calls, n, k)
    ensures s <= j && calls[s].tenant == k && Keeps(cfg, calls, s, j)
    decreases m
  {
    hide TableAt, Resident;
    ResidentIff(cfg, start, calls, m, k);
    if !Resident(cfg, calls, m, k) {
      s := m;
      if m < j && calls[m].tenant != k {
        ResidentIff(cfg, start, calls, m + 1, k);
        OtherCallKeeps(cfg, start, calls, m, k);
      }
    } else {
      NobodyFirst(cfg, calls, k);
      s := KeptFrom(cfg, start, calls, m - 1, j, k);
    }
  }

  lemma NobodyFirst(cfg: Config, calls: seq<Call>, k: string)
    ensures !Resident(cfg, calls, 0, k)
  {
  }

  /** The exact law. Let `s` be the call at which the tenant of call `j` got its bucket. Call `j` is granted exactly when
      its bytes fit a burst, fit with all grants since `s` the seed and the refill since `s`, and fit with the grants
      since each of the tenant's calls a burst and the refill since that call. */
  lemma GrantedIff(cfg: Config, start: real, calls: seq<Call>, s: nat, j: nat)
    requires Ordered(calls, start) && j < |calls| && Keeps(cfg, calls, s, j) && calls[s].tenant == calls[j].tenant
    ensures Allows(cfg, start, calls, j)
            <==> Affords(cfg, start, calls, calls[j].tenant, s, j, calls[j].bytes as real, calls[j].now)
  {
    hide Allows, BucketAt, Refilled, Keeps, Affords, Earned, TableAt;
    CallCharges(cfg, start, calls, j, 0.0, 0.0);
    HeldIff(cfg, start, calls, s, j, calls[j].bytes as real);
  }

  /** Bytes that `k` asked for in the calls from `i` up to `j`. */
  function AskedBytes(calls: seq<Call>, k: string, i: nat, j: nat): real
    requires j <= |calls|
    decreases j
  {
    if j <= i then 0.0
    else AskedBytes(calls, k, i, j - 1) + if calls[j - 1].tenant == k then calls[j - 1].bytes as real else 0.0
  }

  /** From call `i` to call `j`, both included, the tenant asks for no more than a burst and the refill in between. */
  predicate Within(cfg: Config, calls: seq<Call>, k: string, i: nat, j: nat)
    requires i <= j < |calls|
  {
    AskedBytes(calls, k, i, j + 1) <= cfg.Burst() + Earned(cfg, calls[i].now, calls[j].now)
  }

  ghost predicate AllAllowed(cfg: Config, start: real, calls: seq<Call>, k: string, s: nat, n: nat)
    requires Ordered(calls, start) && n <= |calls|
  {
    forall j: nat :: s <= j < n && calls[j].tenant == k ==> Allows(cfg, start, calls, j)
  }

  predicate AllWithin(cfg: Config, calls: seq<Call>, k: string, s: nat, n: nat)
    requires n <= |calls|
  {
    forall i: nat, j: nat :: s <= i <= j < n && calls[i].tenant == calls[j].tenant == k ==> Within(cfg, calls, k, i, j)
  }

  lemma {:induction false} AllAllowedBytes(cfg: Config, start: real, calls: seq<Call>, k: string, i: nat, j: nat)
    requires Ordered(calls, start) && j <= |calls| && AllAllowed(cfg, start, calls, k, i, j)
    ensures GrantedBytes(cfg, start, calls, k, i, j) == AskedBytes(calls, k, i, j)
    decreases j
  {
    hide Allows;
    if i < j {
      AllAllowedBytes(cfg, start, calls, k, i, j - 1);
    }
  }

  /** With everything granted so far, the law for the next call speaks of what was asked for. */
  lemma AffordsIsWithin(cfg: Config, start: real, calls: seq<Call>, s: nat, j: nat)
    requires Ordered(calls, start) && s <= j < |calls| && calls[s].tenant == calls[j].tenant
    requires SeedOf(cfg, calls, s) == cfg.Burst() && AllAllowed(cfg, start, calls, calls[j].tenant, s, j)
    ensures Affords(cfg, start, calls, calls[j].tenant, s, j, calls[j].bytes as real, calls[j].now)
            <==> forall i: nat :: s <= i <= j && calls[i].tenant == calls[j].tenant ==> Within(cfg, calls, calls[j].tenant, i, j)
  {
    hide Allows, SeedOf, AskedBytes, Earned;
    var k, x, at := calls[j].tenant, calls[j].bytes as real, calls[j].now;
    forall i: nat | s <= i < j && calls[i].tenant == k
      ensures WindowFits(cfg, start, calls, k, i, j, x, at) <==> Within(cfg, calls, k, i, j)
    {
      AllAllowedBytes(cfg, start, calls, k, i, j);
      AskedStep(cfg, calls, i, j);
    }
    AskedStep(cfg, calls, j, j);
    AllAllowedBytes(cfg, start, calls, k, s, j);
    AskedStep(cfg, calls, s, j);
    EarnedAdds(cfg, at, at, at);
    hide WindowFits, Within, GrantedBytes;
  }

  lemma AskedStep(cfg: Config, calls: seq<Call>, i: nat, j: nat)
    requires i <= j < |calls|
    ensures Within(cfg, calls, calls[j].tenant, i, j)
            <==> AskedBytes(calls, calls[j].tenant, i, j) + calls[j].bytes as real <= cfg.Burst() + Earned(cfg, calls[i].now, calls[j].now)
    ensures AskedBytes(calls, calls[j].tenant, j, j) == 0.0
  {
    hide Accrued, Earned;
  }

  /** A tenant admitted with a full seed at `s` that keeps its bucket: all its calls are granted exactly when over every
      stretch of them it asks for no more than a burst and the refill of that time. */
  lemma {:induction false} AllGrantedIff(cfg: Config, start: real, calls: seq<Call>, s: nat, n: nat)
    requires Ordered(calls, start) && Keeps(cfg, calls, s, n) && SeedOf(cfg, calls, s) == cfg.Burst()
    ensures AllAllowed(cfg, start, calls, calls[s].tenant, s, n) <==> AllWithin(cfg, calls, calls[s].tenant, s, n)
    decreases n
  {
    hide Allows, SeedOf, Affords, Within, Resident;
    var k := calls[s].tenant;
    if s < n {
      AllGrantedIff(cfg, start, calls, s, n - 1);
      if calls[n - 1].tenant == k && AllAllowed(cfg, start, calls, k, s, n - 1) {
        GrantedIff(cfg, start, calls, s, n - 1);
        AffordsIsWithin(cfg, start, calls, s, n - 1);
      }
    }
  }
}
