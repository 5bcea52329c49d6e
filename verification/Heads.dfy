/** Signed tree heads served by the gateway, fresh or from the cache, and how long they stay true. */
module Heads {
  import opened Options
  import opened Merkle
  import opened Inclusion
  import opened LogLine
  import opened LogFile
  import opened Durability
  import Audit

  /** Seconds a signed head is served from the cache. */
  const STH_CACHE_TTL: nat := 1

  /** The endpoint, its cache and the log behind it. */
  class HeadService {
    var cache: Option<(Audit.SignedTreeHead, nat)>
    const log: TransparencyLog
    const key: Audit.PublicKey
    const logId: string

    constructor (log: TransparencyLog, key: Audit.PublicKey, logId: string)
      ensures cache == None && this.log == log && this.key == key && this.logId == logId
    {
      this.log, this.key, this.logId, cache := log, key, logId, None;
    }

    /** A fresh enough head from the cache, or else a flush, a new signature and a new cache. */
    method TransparencyHead(now: nat, unixNow: nat) returns (sth: Audit.SignedTreeHead)
      modifies this, log
      ensures var fresh' := old(cache).Some? && now < old(cache).value.1 + STH_CACHE_TTL;
              if fresh' then sth == old(cache).value.0 && cache == old(cache) && log.Value() == old(log.Value())
              else && sth == Audit.Sign(Audit.TreeHead(|log.entries|, Encoded(MerkleRoot(log.entries)), unixNow, logId), key)
                   && cache == Some((sth, now)) && log.Value() == Flushed(old(log.Value()))
    {
      if cache.Some? && now < cache.value.1 + STH_CACHE_TTL {
        return cache.value.0;
      }
      log.Flush();
      var size, root := log.Status();
      var head := Audit.TreeHead(size, Encoded(root), unixNow, logId);
      sth := Audit.Sign(head, key);
      cache := Some((sth, now));
    }
  }

  // ---------------------------------------------------------------- interleavings

  datatype Head = Head(size: nat, root: Hash)

  /** The gateway with every head it ever served. */
  datatype World = World(run: Run, served: seq<Head>, cache: Option<(Head, nat)>)

  /** The endpoint takes the log's lock twice, for the flush and for the status, so its parts interleave with
      everything else that happens to the log. A crash empties the cache. */
  datatype Act = OnLog(ev: Event) | SignHead(now: nat) | ServeCached(now: nat)

  const START := World(FRESH, [], None)

  predicate Allowed(w: World, a: Act) {
    a.OnLog? ==> Possible(w.run.log, a.ev)
  }

  function HeadNow(w: World): Head {
    Head(|w.run.log.entries|, MerkleRoot(w.run.log.entries))
  }

  predicate IsCrash(ev: Event) {
    ev.Crash? || ev.CrashInAppend?
  }

  function Do(w: World, a: Act): World
    requires Allowed(w, a)
  {
    match a
    case OnLog(ev) => World(After(w.run, ev), w.served, if IsCrash(ev) then None else w.cache)
    case SignHead(now) => World(w.run, w.served + [HeadNow(w)], Some((HeadNow(w), now)))
    case ServeCached(now) =>
      if w.cache.Some? && now < w.cache.value.1 + STH_CACHE_TTL then w.(served := w.served + [w.cache.value.0]) else w
  }

  /** The head commits to the first `size` entries of the log. */
  predicate Holds(h: Head, entries: seq<Entry>) {
    h.size <= |entries| && h.root == MerkleRoot(entries[..h.size])
  }

  ghost predicate AllHold(w: World) {
    && (forall k :: 0 <= k < |w.served| ==> Holds(w.served[k], w.run.log.entries))
    && (w.cache.Some? ==> Holds(w.cache.value.0, w.run.log.entries))
  }

  lemma HoldsOnExtension(h: Head, a: seq<Entry>, b: seq<Entry>)
    requires Holds(h, a) && a <= b
    ensures Holds(h, b)
  {
    hide MerkleRoot;
    assert b[..h.size] == a[..h.size];
  }

  /** The log only grows, unless a crash loses unsynced entries. */
  lemma LogGrows(r: Run, ev: Event)
    requires Inv(r) && Possible(r.log, ev) && (IsCrash(ev) ==> r.durable == |r.log.entries|)
    ensures r.log.entries <= After(r, ev).log.entries
  {
    hide Format, Lines, ReopenFile, WellFormed;
    if IsCrash(ev) {
      var m := CrashRecovers(r, ev);
    }
  }

  lemma ActKeepsHeads(w: World, a: Act)
    requires Inv(w.run) && AllHold(w) && Allowed(w, a)
    requires a.OnLog? && IsCrash(a.ev) ==> w.run.durable == |w.run.log.entries|
    ensures Inv(Do(w, a).run) && AllHold(Do(w, a))
  {
    hide Inv, MerkleRoot, After, Possible;
    if a.OnLog? {
      StepKeepsInv(w.run, a.ev);
      LogGrows(w.run, a.ev);
      var before, after := w.run.log.entries, After(w.run, a.ev).log.entries;
      forall h: Head | Holds(h, before) ensures Holds(h, after) {
        HoldsOnExtension(h, before, after);
      }
    } else {
      assert w.run.log.entries[..|w.run.log.entries|] == w.run.log.entries;
    }
  }

  ghost predicate AllowedAll(w: World, acts: seq<Act>)
    decreases |acts|
  {
    acts == [] || (Allowed(w, acts[0]) && AllowedAll(Do(w, acts[0]), acts[1..]))
  }

  ghost function DoAll(w: World, acts: seq<Act>): World
    requires AllowedAll(w, acts)
    decreases |acts|
  {
    if acts == [] then w else DoAll(Do(w, acts[0]), acts[1..])
  }

  predicate NoCrash(acts: seq<Act>) {
    forall k :: 0 <= k < |acts| && acts[k].OnLog? ==> !IsCrash(acts[k].ev)
  }

  predicate AlwaysOnly(acts: seq<Act>) {
    forall k :: 0 <= k < |acts| && acts[k].OnLog? && acts[k].ev.Switch? ==> acts[k].ev.policy == Always
  }

  /** Under `Always`, nothing ever waits for an fsync. */
  lemma AlwaysIsDurable(r: Run, ev: Event)
    requires Inv(r) && Possible(r.log, ev) && r.log.policy == Always && r.carried == 0
    requires ev.Switch? ==> ev.policy == Always
    ensures After(r, ev).log.policy == Always && After(r, ev).carried == 0
    ensures r.durable == |r.log.entries|
  {
    hide Format, Lines, ReopenFile, WellFormed, HexEncode;
  }

  lemma {:induction false} HeadsKept(w: World, acts: seq<Act>)
    requires Inv(w.run) && AllHold(w) && AllowedAll(w, acts)
    requires NoCrash(acts) || (AlwaysOnly(acts) && w.run.log.policy == Always && w.run.carried == 0)
    ensures AllHold(DoAll(w, acts))
    decreases |acts|
  {
    hide Inv, AllHold, After, Possible;
    if acts != [] {
      var a := acts[0];
      if a.OnLog? && w.run.log.policy == Always && w.run.carried == 0 && (a.ev.Switch? ==> a.ev.policy == Always) {
        AlwaysIsDurable(w.run, a.ev);
      }
      ActKeepsHeads(w, a);
      HeadsKept(Do(w, a), acts[1..]);
    }
  }

  /** Every head ever served, fresh or cached, is the root of the first `size` entries in every later state: in
      every run without crashes, and under `Always` through any number of crashes and reopens. */
  lemma ServedHeadsStayTrue(acts: seq<Act>)
    requires AllowedAll(START, acts) && (NoCrash(acts) || AlwaysOnly(acts))
    ensures AllHold(DoAll(START, acts))
  {
    hide DoAll, AllowedAll, Inv, AllHold, NoCrash, AlwaysOnly;
    StartHolds();
    HeadsKept(START, acts);
  }

  lemma StartHolds()
    ensures Inv(START.run) && AllHold(START)
  {
    hide Inv;
    FreshInv();
  }

  // ---------------------------------------------------------------- batched fsync

  /** Exactly which heads no crash can falsify: those that cover synced entries only. */
  lemma HeadSurvivesEveryCrashIff(r: Run, h: Head)
    requires Inv(r) && Holds(h, r.log.entries)
    ensures h.size <= r.durable
            <==> forall cut :: Possible(r.log, Crash(cut)) ==> Holds(h, After(r, Crash(cut)).log.entries)
  {
    hide Format, Lines, ReopenFile, WellFormed, MerkleRoot;
    CrashAtMarkLosesUnsynced(r);
    if h.size <= r.durable {
      forall cut | Possible(r.log, Crash(cut)) ensures Holds(h, After(r, Crash(cut)).log.entries) {
        var m := CrashRecovers(r, Crash(cut));
        assert r.log.entries[..m][..h.size] == r.log.entries[..h.size];
      }
    }
  }

  /** What is synced is never lost, whatever happens. */
  lemma DurableStays(r: Run, ev: Event)
    requires Inv(r) && Possible(r.log, ev)
    ensures r.durable <= |r.log.entries| && r.durable <= After(r, ev).durable
    ensures r.log.entries[..r.durable] <= After(r, ev).log.entries
  {
    hide Format, Lines, ReopenFile, WellFormed, HexEncode;
    if IsCrash(ev) {
      var m := CrashRecovers(r, ev);
    }
  }

  /** The head is true and covers synced entries only. */
  ghost predicate Settled(w: World, h: Head) {
    Holds(h, w.run.log.entries) && h.size <= w.run.durable
  }

  lemma ActKeepsSettled(w: World, a: Act, h: Head)
    requires Inv(w.run) && Allowed(w, a) && Settled(w, h)
    ensures Inv(Do(w, a).run) && Settled(Do(w, a), h)
  {
    hide Inv, MerkleRoot, After, Possible;
    if a.OnLog? {
      StepKeepsInv(w.run, a.ev);
      DurableStays(w.run, a.ev);
      var before, after := w.run.log.entries, After(w.run, a.ev).log.entries;
      assert before[..w.run.durable][..h.size] == before[..h.size];
      HoldsOnExtension(h, before[..w.run.durable], after);
    }
  }

  lemma {:induction false} SettledStays(w: World, acts: seq<Act>, h: Head)
    requires Inv(w.run) && AllowedAll(w, acts) && Settled(w, h)
    ensures Settled(DoAll(w, acts), h)
    decreases |acts|
  {
    hide Inv, Settled, Do;
    if acts != [] {
      ActKeepsSettled(w, acts[0], h);
      SettledStays(Do(w, acts[0]), acts[1..], h);
    }
  }

  /** The cached head is true of the log; a crash empties the cache. */
  ghost predicate CacheHolds(w: World) {
    w.cache.Some? ==> Holds(w.cache.value.0, w.run.log.entries)
  }

  lemma {:induction false} CacheStaysTrue(w: World, acts: seq<Act>)
    requires Inv(w.run) && AllowedAll(w, acts) && CacheHolds(w)
    ensures Inv(DoAll(w, acts).run) && CacheHolds(DoAll(w, acts))
    decreases |acts|
  {
    hide Inv, CacheHolds, Do;
    if acts != [] {
      ActKeepsCache(w, acts[0]);
      CacheStaysTrue(Do(w, acts[0]), acts[1..]);
    }
  }

  lemma ActKeepsCache(w: World, a: Act)
    requires Inv(w.run) && Allowed(w, a) && CacheHolds(w)
    ensures Inv(Do(w, a).run) && CacheHolds(Do(w, a))
  {
    hide Inv, MerkleRoot, After, Possible;
    if a.OnLog? {
      StepKeepsInv(w.run, a.ev);
      if !IsCrash(a.ev) {
        LogGrows(w.run, a.ev);
        if w.cache.Some? {
          HoldsOnExtension(w.cache.value.0, w.run.log.entries, After(w.run, a.ev).log.entries);
        }
      }
    } else {
      assert w.run.log.entries[..|w.run.log.entries|] == w.run.log.entries;
    }
  }

  predicate IsCrashAct(a: Act) {
    a.OnLog? && IsCrash(a.ev)
  }

  /** Act `j` signed the cached head, and nothing has crashed since. */
  ghost predicate SignedAt(w: World, acts: seq<Act>, j: nat, cached: (Head, nat)) {
    && j < |acts| && acts[j] == SignHead(cached.1)
    && AllowedAll(w, acts[..j]) && HeadNow(DoAll(w, acts[..j])) == cached.0
    && forall k :: j < k < |acts| ==> !IsCrashAct(acts[k])
  }

  lemma SignedLater(w: World, acts: seq<Act>, j: nat, cached: (Head, nat))
    requires acts != [] && Allowed(w, acts[0]) && SignedAt(Do(w, acts[0]), acts[1..], j, cached)
    ensures SignedAt(w, acts, j + 1, cached)
  {
    hide Do, MerkleRoot, Allowed;
    assert acts[..j + 1][0] == acts[0] && acts[..j + 1][1..] == acts[1..][..j];
    forall k | j + 1 < k < |acts| ensures !IsCrashAct(acts[k]) {
      assert acts[k] == acts[1..][k - 1];
    }
  }

  /** What is in the cache was there before and nothing has crashed, or some act signed it. */
  lemma {:induction false} CacheWasSigned(w: World, acts: seq<Act>)
    requires AllowedAll(w, acts) && DoAll(w, acts).cache.Some?
    ensures var c := DoAll(w, acts).cache;
            || (c == w.cache && forall k :: 0 <= k < |acts| ==> !IsCrashAct(acts[k]))
            || exists j: nat :: SignedAt(w, acts, j, c.value)
    decreases |acts|
  {
    hide MerkleRoot, After, Possible;
    if acts != [] {
      var w', rest := Do(w, acts[0]), acts[1..];
      CacheWasSigned(w', rest);
      var c := DoAll(w, acts).cache;
      if j: nat :| SignedAt(w', rest, j, c.value) {
        SignedLater(w, acts, j, c.value);
      } else {
        forall k | 0 < k < |acts| ensures !IsCrashAct(acts[k]) {
          assert acts[k] == rest[k - 1];
        }
        if acts[0].SignHead? {
          assert acts[..0] == [];
          assert SignedAt(w, acts, 0, c.value);
        }
      }
    }
  }

  /** A head served from the cache was signed within the last second by an earlier act of the run, was the log's head
      then, and nothing has crashed since. */
  lemma CachedHeadIsRecent(acts: seq<Act>, w: World, now: nat)
    requires AllowedAll(START, acts) && DoAll(START, acts) == w && Serves(w, ServeCached(now))
    ensures exists j: nat, t: nat :: now < t + 1 && SignedAt(START, acts, j, (ServedBy(w, ServeCached(now)), t))
  {
    hide MerkleRoot, After, Possible, SignedAt, DoAll, AllowedAll;
    var c := w.cache;
    CacheWasSigned(START, acts);
    var j: nat :| SignedAt(START, acts, j, c.value);
    assert c.value == (ServedBy(w, ServeCached(now)), c.value.1);
  }

  /** The act serves a head, newly signed or from the cache. */
  predicate Serves(w: World, a: Act)
    requires Allowed(w, a)
  {
    |Do(w, a).served| == |w.served| + 1
  }

  function ServedBy(w: World, a: Act): Head
    requires Allowed(w, a) && Serves(w, a)
  {
    Do(w, a).served[|w.served|]
  }

  /** After every run, with any policies, crashes and reopens: a head that is served stays true in every later state
      exactly when the entries it covers were synced when it was served. */
  lemma ServedHeadStaysTrueIff(acts: seq<Act>, w: World, a: Act)
    requires AllowedAll(START, acts) && DoAll(START, acts) == w && Allowed(w, a) && Serves(w, a)
    ensures ServedBy(w, a).size <= w.run.durable
            <==> forall later :: AllowedAll(Do(w, a), later) ==>
                                   Holds(ServedBy(w, a), DoAll(Do(w, a), later).run.log.entries)
  {
    StartHolds();
    hide Inv, MerkleRoot, Possible, After;
    CacheStaysTrue(START, acts);
    var w', h := Do(w, a), ServedBy(w, a);
    assert w.run.log.entries[..|w.run.log.entries|] == w.run.log.entries;
    assert w'.run == w.run && Holds(h, w.run.log.entries);
    hide DoAll, AllowedAll, Do, Holds;
    if h.size <= w.run.durable {
      forall later | AllowedAll(w', later) ensures Holds(h, DoAll(w', later).run.log.entries) {
        SettledStays(w', later, h);
      }
    } else {
      UnsettledIsLost(w', h);
    }
  }

  lemma UnsettledIsLost(w: World, h: Head)
    requires Inv(w.run) && h.size > w.run.durable
    ensures exists later :: AllowedAll(w, later) && !Holds(h, DoAll(w, later).run.log.entries)
  {
    hide Inv;
    var crash := OnLog(Crash(w.run.log.disk.synced));
    CrashAtMarkLosesUnsynced(w.run);
    var later := [crash];
    assert later[1..] == [];
    hide After, MerkleRoot;
    assert AllowedAll(w, later);
    assert DoAll(w, later) == Do(w, crash);
  }

  /** A head signed right after its flush stays true in every later state, whatever the policies and crashes. */
  lemma FlushedHeadSurvives(w: World, now: nat, later: seq<Act>)
    requires Inv(w.run) && AllowedAll(Do(Do(w, OnLog(Flush)), SignHead(now)), later)
    ensures var f := Do(w, OnLog(Flush));
            Holds(HeadNow(f), DoAll(Do(f, SignHead(now)), later).run.log.entries)
  {
    StepKeepsInv(w.run, Flush);
    hide Inv, MerkleRoot, DoAll, AllowedAll;
    var f := Do(w, OnLog(Flush));
    assert f.run.log.entries[..|f.run.log.entries|] == f.run.log.entries;
    SettledStays(Do(f, SignHead(now)), later, HeadNow(f));
  }

  /** But an append between the flush and the status read breaks it: whatever the log, under `Periodic{n}` with
      `n` at least 2 there is then a crash that leaves the signed head without the entry it covers. */
  lemma InterleavedHeadIsLost(r: Run, a: Event, n: nat)
    requires Inv(r) && r.log.policy == Periodic(n) && n >= 2 && a.Append? && Possible(r.log, a)
    ensures var r' := After(After(r, Flush), a);
            var h := Head(|r'.log.entries|, MerkleRoot(r'.log.entries));
            && Holds(h, r'.log.entries)
            && Possible(r'.log, Crash(r'.log.disk.synced))
            && !Holds(h, After(r', Crash(r'.log.disk.synced)).log.entries)
  {
    hide Format, Lines, ReopenFile, WellFormed, MerkleRoot, HexEncode;
    StepKeepsInv(r, Flush);
    var r1 := After(r, Flush);
    StepKeepsInv(r1, a);
    var r' := After(r1, a);
    assert r'.log.entries[..|r'.log.entries|] == r'.log.entries;
    CrashAtMarkLosesUnsynced(r');
  }
}
