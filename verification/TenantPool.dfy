/** The TEE's per-tenant pool: a salt derived from the master secret, a sealing key drawn at admission, and a
    bounded table (16384 tenants in the source) with least-recently-used eviction. Drawn keys are parameters. */
module TenantPool {
  import opened Keys
  import opened Lru

  const INFO_TENANT_SALT := "ULLM-v1 tenant cache salt"
  const INFO_CLOAK_TRANSFORM := "ULLM-v1 cloak transform"
  const INFO_CLOAK_PERMUTE := "ULLM-v1 cloak permute"
  const INFO_CLOAK_NONCE := "ULLM-v1 cloak nonce"

  type Kek = nat

  datatype Secrets = Secrets(salt: Term, kek: Kek)

  /** A tenant's secrets, stamped with its last lookup. */
  type Tenant = Stamped<Secrets>

  datatype Pool = Pool(tenants: map<string, Tenant>, lru: set<Row<string>>, next: nat)

  const EMPTY_POOL := Pool(map[], {}, 0)

  ghost predicate Valid(p: Pool, now: real) {
    Coherent(Stamps(p.tenants), p.lru, p.next, now)
  }

  // ---------------------------------------------------------------- derived keys

  /** The tenant's salt: a function of the master secret and the tenant alone. */
  function Salt(master: Term, tenant: string): Term {
    Expand(Extract(Info(INFO_TENANT_SALT), master), tenant)
  }

  datatype Part = Transform | Permute | SessionNonce

  function PartInfo(part: Part): string {
    match part
    case Transform => INFO_CLOAK_TRANSFORM
    case Permute => INFO_CLOAK_PERMUTE
    case SessionNonce => INFO_CLOAK_NONCE
  }

  /** One part of a session's cloak key. */
  function CloakPart(master: Term, salt: Term, session: string, part: Part): Term {
    Expand(Extract(salt, master), PartInfo(part) + session)
  }

  /** Cloak keys of different tenants, sessions (16 bytes) or parts are different keys. */
  lemma CloakKeysDistinct(master: Term, t: string, s: string, a: Part, t': string, s': string, a': Part)
    requires |s| == |s'| == 16
    ensures CloakPart(master, Salt(master, t), s, a) == CloakPart(master, Salt(master, t'), s', a')
            <==> t == t' && s == s' && a == a'
  {
    var i, i' := PartInfo(a), PartInfo(a');
    assert |INFO_CLOAK_TRANSFORM| == 23 && |INFO_CLOAK_PERMUTE| == 21 && |INFO_CLOAK_NONCE| == 19;
    if i + s == i' + s' {
      assert |i| == |i'|;
      assert s == (i + s)[|i|..] == (i' + s')[|i|..] == s';
    }
  }

  /** The labels, character by character. */
  lemma CloakLabels(master: Term, salt: Term, session: string)
    ensures CloakPart(master, salt, session, Transform) == Expand(Extract(salt, master), "ULLM-v1 cloak transform" + session)
    ensures CloakPart(master, salt, session, Permute) == Expand(Extract(salt, master), "ULLM-v1 cloak permute" + session)
    ensures CloakPart(master, salt, session, SessionNonce) == Expand(Extract(salt, master), "ULLM-v1 cloak nonce" + session)
    ensures Salt(master, session) == Expand(Extract(Info("ULLM-v1 tenant cache salt"), master), session)
  {
  }

  function Size(t: Term): nat {
    match t
    case Concat(l, r) => 1 + Size(l) + Size(r)
    case Extract(salt, ikm) => 1 + Size(salt) + Size(ikm)
    case Expand(prk, _) => 1 + Size(prk)
    case _ => 1
  }

  /** A leak of something larger than a term is no help for it. */
  lemma {:induction false} LargerLeakIsNoHelp(t: Term, adv: Adversary, leak: Term)
    requires Size(t) < Size(leak)
    ensures Knows(t, adv, {leak}) <==> Derivable(t, adv)
  {
    match t
    case Concat(l, r) =>
      LargerLeakIsNoHelp(l, adv, leak);
      LargerLeakIsNoHelp(r, adv, leak);
    case Extract(salt, ikm) =>
      LargerLeakIsNoHelp(salt, adv, leak);
      LargerLeakIsNoHelp(ikm, adv, leak);
    case Expand(prk, _) => LargerLeakIsNoHelp(prk, adv, leak);
    case _ =>
  }

  /** Salts and cloak keys can be computed exactly with the master secret. */
  lemma TenantKeysNeedMaster(master: Term, t: string, s: string, a: Part, adv: Adversary)
    ensures Derivable(Salt(master, t), adv) <==> Derivable(master, adv)
    ensures Derivable(CloakPart(master, Salt(master, t), s, a), adv) <==> Derivable(master, adv)
  {
    hide PartInfo;
    var label' := Info(INFO_TENANT_SALT);
    assert Knows(label', adv, {});
    KnowsExtract(label', master, adv, {});
    KnowsExpand(Extract(label', master), t, adv, {});
    KnowsExtract(Salt(master, t), master, adv, {});
    KnowsExpand(Extract(Salt(master, t), master), PartInfo(a) + s, adv, {});
    hide Knows;
  }

  /** A leaked salt, of any tenant, does not replace it. */
  lemma SaltLeakIsNoHelp(master: Term, leaked: string, t: string, s: string, a: Part, adv: Adversary)
    ensures Knows(CloakPart(master, Salt(master, t), s, a), adv, {Salt(master, leaked)}) <==> Derivable(master, adv)
    ensures Knows(Salt(master, t), adv, {Salt(master, leaked)}) <==> t == leaked || Derivable(master, adv)
  {
    hide PartInfo;
    var leak := Salt(master, leaked);
    var prk := Extract(Info(INFO_TENANT_SALT), master);
    LargerLeakIsNoHelp(master, adv, leak);
    LargerLeakIsNoHelp(prk, adv, leak);
    assert Knows(Info(INFO_TENANT_SALT), adv, {});
    KnowsExtract(Info(INFO_TENANT_SALT), master, adv, {});
    var cloak := Extract(Salt(master, t), master);
    assert cloak != leak;
    KnowsExtract(Salt(master, t), master, adv, {leak});
    assert Expand(cloak, PartInfo(a) + s) != leak;
    KnowsExpand(cloak, PartInfo(a) + s, adv, {leak});
    if t != leaked {
      KnowsExpand(prk, t, adv, {leak});
    }
    hide Knows;
  }

  // ---------------------------------------------------------------- one lookup, on values

  ghost function Evicted(p: Pool): Pool
    requires exists k :: LeastRecent(Stamps(p.tenants), k)
  {
    var v := Victim(Stamps(p.tenants));
    p.(tenants := p.tenants - {v}, lru := p.lru - {Row(p.tenants[v].stamp, v)})
  }

  ghost predicate CanAdmit(p: Pool, max: nat) {
    |p.tenants| >= max ==> exists k :: LeastRecent(Stamps(p.tenants), k)
  }

  function Put(p: Pool, tenant: string, salt: Term, kek: Kek, now: real): Pool {
    Pool(p.tenants[tenant := Stamped(Secrets(salt, kek), Stamp(now, p.next))], p.lru + {Row(Stamp(now, p.next), tenant)}, p.next + 1)
  }

  /** The pool after a lookup: a known tenant is stamped again and keeps its keys; a new one gets the derived salt
      and the drawn key, after an eviction when the table is full. */
  ghost function Looked(p: Pool, master: Term, max: nat, tenant: string, drawn: Kek, now: real): Pool
    requires CanAdmit(p, max)
  {
    if tenant in p.tenants then
      var t := p.tenants[tenant];
      Put(p.(lru := p.lru - {Row(t.stamp, tenant)}), tenant, t.value.salt, t.value.kek, now)
    else
      Put(if |p.tenants| >= max then Evicted(p) else p, tenant, Salt(master, tenant), drawn, now)
  }

  // ---------------------------------------------------------------- the index stays exact

  lemma ValidCanAdmit(p: Pool, max: nat, now: real)
    requires Valid(p, now) && max > 0
    ensures CanAdmit(p, max)
  {
    if |p.tenants| >= max {
      assert p.tenants.Keys != {};
      assert Stamps(p.tenants).Keys == p.tenants.Keys;
      LeastRecentExists(Stamps(p.tenants));
    }
  }

  lemma EvictedValid(p: Pool, now: real)
    requires Valid(p, now) && exists k :: LeastRecent(Stamps(p.tenants), k)
    ensures Valid(Evicted(p), now)
  {
    var v := Victim(Stamps(p.tenants));
    StampAt(p.tenants, v);
    StampsUpdate(p.tenants, v, p.tenants[v]);
    hide Coherent, Stamps;
    DropKeepsCoherent(Stamps(p.tenants), p.lru, p.next, now, v);
  }

  lemma PutValid(p: Pool, tenant: string, salt: Term, kek: Kek, now: real)
    requires Valid(p, now) && tenant !in p.tenants
    ensures Valid(Put(p, tenant, salt, kek, now), now)
  {
    StampsUpdate(p.tenants, tenant, Stamped(Secrets(salt, kek), Stamp(now, p.next)));
    hide Coherent, Stamps;
    StampKeepsCoherent(Stamps(p.tenants), p.lru, p.next, now, tenant);
    assert p.lru - {} == p.lru;
  }

  lemma StampedAgainValid(p: Pool, tenant: string, now: real)
    requires Valid(p, now) && tenant in p.tenants
    ensures var t := p.tenants[tenant];
            Valid(Put(p.(lru := p.lru - {Row(t.stamp, tenant)}), tenant, t.value.salt, t.value.kek, now), now)
  {
    var t := p.tenants[tenant];
    StampAt(p.tenants, tenant);
    StampsUpdate(p.tenants, tenant, Stamped(t.value, Stamp(now, p.next)));
    hide Coherent, Stamps;
    StampKeepsCoherent(Stamps(p.tenants), p.lru, p.next, now, tenant);
  }

  lemma LookedValid(p: Pool, master: Term, max: nat, tenant: string, drawn: Kek, now: real)
    requires Valid(p, now) && CanAdmit(p, max)
    ensures Valid(Looked(p, master, max, tenant, drawn, now), now)
  {
    hide Valid, Put, Evicted;
    if tenant in p.tenants {
      StampedAgainValid(p, tenant, now);
    } else if |p.tenants| >= max {
      EvictedValid(p, now);
      EvictedShape(p, tenant);
      PutValid(Evicted(p), tenant, Salt(master, tenant), drawn, now);
    } else {
      PutValid(p, tenant, Salt(master, tenant), drawn, now);
    }
  }

  lemma EvictedShape(p: Pool, k: string)
    requires exists k :: LeastRecent(Stamps(p.tenants), k)
    ensures var e := Evicted(p);
            && e.next == p.next
            && (k in e.tenants ==> k in p.tenants && e.tenants[k] == p.tenants[k])
            && (k in p.tenants && k !in e.tenants ==> LeastRecent(Stamps(p.tenants), k))
  {
  }

  // ---------------------------------------------------------------- the pool

  class TenantPool {
    const master: Term
    const max: nat
    var tenants: map<string, Tenant>
    var lru: set<Row<string>>
    var nextLruSeq: nat

    function Value(): Pool
      reads this
    {
      Pool(tenants, lru, nextLruSeq)
    }

    constructor (master: Term, max: nat)
      ensures this.master == master && this.max == max && Value() == EMPTY_POOL
    {
      this.master, this.max, tenants, lru, nextLruSeq := master, max, map[], {}, 0;
    }

    /** Remove the first row of the index and its tenant. */
    method EvictFirst(ghost now: real)
      requires Valid(Value(), now) && exists k :: LeastRecent(Stamps(tenants), k)
      modifies this
      ensures Value() == Evicted(old(Value()))
    {
      NoRowsNoKeys(Stamps(tenants), lru, nextLruSeq, now);
      var oldest := OldestRow(Stamps(tenants), lru, nextLruSeq, now, (a: string, b: string) => false);
      StampAt(tenants, oldest.key);
      lru := lru - {oldest};
      tenants := tenants - {oldest.key};
    }

    method StateFor(tenant: string, drawn: Kek, now: real) returns (state: Tenant)
      requires Valid(Value(), now) && max > 0
      modifies this
      ensures CanAdmit(old(Value()), max) && Value() == Looked(old(Value()), master, max, tenant, drawn, now)
      ensures Valid(Value(), now) && tenant in tenants && state == tenants[tenant]
    {
      ValidCanAdmit(Value(), max, now);
      LookedValid(Value(), master, max, tenant, drawn, now);
      hide Valid, Stamps, Evicted, LeastRecent;
      if tenant in tenants {
        var s := tenants[tenant];
        var newSeq := nextLruSeq;
        nextLruSeq := nextLruSeq + 1;
        state := s.(stamp := Stamp(now, newSeq));
        tenants := tenants[tenant := state];
        lru := lru - {Row(s.stamp, tenant)};
        lru := lru + {Row(Stamp(now, newSeq), tenant)};
        return;
      }
      if |tenants| >= max {
        EvictFirst(now);
      }
      var newSeq := nextLruSeq;
      nextLruSeq := nextLruSeq + 1;
      state := Stamped(Secrets(Salt(master, tenant), drawn), Stamp(now, newSeq));
      tenants := tenants[tenant := state];
      lru := lru + {Row(Stamp(now, newSeq), tenant)};
    }

    /** The slot's cloak key and sealing key. */
    method Allocate(tenant: string, session: string, drawn: Kek, now: real) returns (cloak: map<Part, Term>, kek: Kek)
      requires Valid(Value(), now) && max > 0
      modifies this
      ensures CanAdmit(old(Value()), max) && Value() == Looked(old(Value()), master, max, tenant, drawn, now)
      ensures Valid(Value(), now) && tenant in tenants && kek == tenants[tenant].value.kek
      ensures forall a :: a in cloak && cloak[a] == CloakPart(master, tenants[tenant].value.salt, session, a)
    {
      hide Valid, Looked;
      var state := StateFor(tenant, drawn, now);
      cloak := map a: Part | true :: CloakPart(master, state.value.salt, session, a);
      kek := state.value.kek;
    }
  }
}
