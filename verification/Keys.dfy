/** Key material as free terms, and the ratchets built from it.
    `Extract` and `Expand` are the two HKDF steps of sections 2.2 and 2.3 of RFC 5869. An X25519 secret
    is named by its public point, so a shared secret is an unordered pair of points (section 6.1 of
    RFC 7748). Two terms are equal only when they were derived in the same way. */
module Keys {
  import opened Bytes

  type Point = seq<Byte>

  const PROTOCOL_VERSION: Byte := 3
  const POINT_LEN: nat := 32
  const TAG_LEN: nat := 16

  type KemKey = seq<Byte>

  /** `KemSecret` is what ML-KEM decapsulation gives for a ciphertext under a key, implicit rejection included. */
  datatype Term =
    | KemSecret(to: KemKey, ct: seq<Byte>)
    | Shared(points: multiset<Point>)
    | TranscriptHash(bytes: seq<Byte>)
    | Info(text: string)
    | Concat(left: Term, right: Term)
    | Extract(salt: Term, ikm: Term)
    | Expand(prk: Term, info: string)

  const INFO_RECORD_C2S := "ULLM-v1 record c2s"
  const INFO_RECORD_S2C := "ULLM-v1 record s2c"
  const INFO_NONCE_SALT := "ULLM-v1 nonce salt"
  const INFO_CHAIN := "ULLM-v1 chain"
  const INFO_MSG := "ULLM-v1 msg"
  const INFO_TURN_RATCHET := "ULLM-v1 turn ratchet"

  datatype Direction = C2S | S2C

  /** Distinct labels, told apart by one character or by length. */
  function RecordInfo(d: Direction): (info: string)
    ensures |info| == 18 && info[15] == (if d == C2S then 'c' else 's')
    ensures info != INFO_NONCE_SALT && info != INFO_CHAIN && info != INFO_MSG
  {
    assert |INFO_CHAIN| == 13 && |INFO_MSG| == 11 && INFO_NONCE_SALT[15] == 'a';
    if d == C2S then INFO_RECORD_C2S else INFO_RECORD_S2C
  }

  // ---------------------------------------------------------------- ratchets

  function DiffieHellman(ours: Point, theirs: Point): Term {
    Shared(multiset{ours, theirs})
  }

  datatype InitialKeys = InitialKeys(c2s: Term, s2c: Term, salt: Term)

  function DeriveInitialKeys(root: Term): InitialKeys {
    InitialKeys(Expand(root, RecordInfo(C2S)), Expand(root, RecordInfo(S2C)), Expand(root, INFO_NONCE_SALT))
  }

  /** `ChainKey::ratchet`: the next chain and the message key. */
  function Ratchet(chain: Term): (Term, Term) {
    (Expand(chain, INFO_CHAIN), Expand(chain, INFO_MSG))
  }

  /** `DhRatchet::step` */
  function DhStep(root: Term, ours: Point, theirs: Point): (r: (Term, InitialKeys))
    ensures r.0.Extract? && r.0.salt == root
  {
    var next := Extract(root, Concat(DiffieHellman(ours, theirs), Info(INFO_TURN_RATCHET)));
    (next, DeriveInitialKeys(next))
  }

  /** Both ends of the ratchet reach the same root, whichever secret they hold. */
  lemma DhStepAgrees(root: Term, a: Point, b: Point)
    ensures DhStep(root, a, b) == DhStep(root, b, a)
  {
    assert multiset{a, b} == multiset{b, a};
  }

  // ---------------------------------------------------------------- the whole key schedule

  /** What fixes every key of a session: the handshake root, the client's ratchet point, and the server
      point drawn for each key update. */
  datatype KeySchedule = KeySchedule(root: Term, clientPk: Point, newPk: nat -> Point)

  /** The root of epoch `n`: the handshake root stepped once per server point. */
  function RootAt(ks: KeySchedule, n: nat): Term {
    if n == 0 then ks.root
    else DhStep(RootAt(ks, n - 1), ks.newPk(n - 1), ks.clientPk).0
  }

  function ChainAt(chain: Term, i: nat): Term {
    if i == 0 then chain else Ratchet(ChainAt(chain, i - 1)).0
  }

  /** The `i`-th one-shot key of one direction under a root. */
  function RecordKey(root: Term, d: Direction, i: nat): Term {
    Ratchet(ChainAt(Expand(root, RecordInfo(d)), i)).1
  }

  function ExtractDepth(t: Term): nat {
    match t
    case Extract(salt, _) => 1 + ExtractDepth(salt)
    case _ => 0
  }

  /** A root as the handshake derives it: transcript hash as salt, KEM and ECDH secret as key material. */
  predicate HandshakeRoot(t: Term) {
    t.Extract? && t.salt.TranscriptHash? && t.ikm.Concat? && t.ikm.left.KemSecret? && t.ikm.right.Shared?
  }

  lemma {:induction false} RootDepth(ks: KeySchedule, n: nat)
    ensures ExtractDepth(RootAt(ks, n)) == n + ExtractDepth(ks.root)
  {
    hide RootAt, UpdateSecret;
    RootSteps(ks, n);
    if n > 0 {
      RootDepth(ks, n - 1);
    }
  }

  lemma {:induction false} SameRoot(ks: KeySchedule, ls: KeySchedule, n: nat)
    requires RootAt(ks, n) == RootAt(ls, n)
    ensures ks.root == ls.root
  {
    hide RootAt, UpdateSecret;
    RootSteps(ks, n);
    RootSteps(ls, n);
    if n > 0 {
      SameRoot(ks, ls, n - 1);
    }
  }

  /** Roots of two sessions, or of two epochs, are equal only for one handshake root and one epoch. */
  lemma RootsDistinct(ks: KeySchedule, n: nat, ls: KeySchedule, m: nat)
    requires HandshakeRoot(ks.root) && HandshakeRoot(ls.root) && RootAt(ks, n) == RootAt(ls, m)
    ensures n == m && ks.root == ls.root
  {
    RootDepth(ks, n);
    RootDepth(ls, m);
    SameRoot(ks, ls, n);
  }

  lemma {:induction false} ChainInjective(a: Term, d: Direction, i: nat, b: Term, e: Direction, j: nat)
    requires a.Extract? && b.Extract?
    requires ChainAt(Expand(a, RecordInfo(d)), i) == ChainAt(Expand(b, RecordInfo(e)), j)
    ensures a == b && d == e && i == j
    decreases i
  {
    if i > 0 && j > 0 {
      ChainInjective(a, d, i - 1, b, e, j - 1);
    } else if i == 0 && j == 0 {
      assert RecordInfo(d)[15] == RecordInfo(e)[15];
    }
  }

  lemma {:induction false} RootIsExtract(ks: KeySchedule, n: nat)
    requires ks.root.Extract?
    ensures RootAt(ks, n).Extract?
  {
  }

  /** No two places share a record key: not two frames of one direction and epoch, not the two directions, not two
      epochs, not two sessions. The server points may repeat. */
  lemma RecordKeysDistinct(ks: KeySchedule, n: nat, d: Direction, i: nat, ls: KeySchedule, m: nat, e: Direction, j: nat)
    requires HandshakeRoot(ks.root) && HandshakeRoot(ls.root)
    requires RecordKey(RootAt(ks, n), d, i) == RecordKey(RootAt(ls, m), e, j)
    ensures ks.root == ls.root && n == m && d == e && i == j
  {
    RootIsExtract(ks, n);
    RootIsExtract(ls, m);
    ChainInjective(RootAt(ks, n), d, i, RootAt(ls, m), e, j);
    RootsDistinct(ks, n, ls, m);
  }

  // ---------------------------------------------------------------- what the network can compute

  /** An active network: the X25519 and ML-KEM secrets it holds and the ciphertexts it made itself. */
  datatype Adversary = Adversary(points: set<Point>, kemKeys: set<KemKey>, encapsulated: set<(KemKey, seq<Byte>)>)

  /** The terms such a network can compute once some terms have leaked; labels and hellos are public. */
  ghost predicate Knows(t: Term, adv: Adversary, leaked: set<Term>) {
    || t in leaked
    || match t
       case KemSecret(to, ct) => to in adv.kemKeys || (to, ct) in adv.encapsulated
       case Shared(points) => exists p :: p in points && p in adv.points
       case TranscriptHash(_) => true
       case Info(_) => true
       case Concat(l, r) => Knows(l, adv, leaked) && Knows(r, adv, leaked)
       case Extract(salt, ikm) => Knows(salt, adv, leaked) && Knows(ikm, adv, leaked)
       case Expand(prk, _) => Knows(prk, adv, leaked)
  }

  ghost predicate Derivable(t: Term, adv: Adversary) {
    Knows(t, adv, {})
  }

  lemma KnowsExtract(salt: Term, ikm: Term, adv: Adversary, leaked: set<Term>)
    requires Extract(salt, ikm) !in leaked
    ensures Knows(Extract(salt, ikm), adv, leaked) <==> Knows(salt, adv, leaked) && Knows(ikm, adv, leaked)
  {
  }

  lemma KnowsExpand(prk: Term, info: string, adv: Adversary, leaked: set<Term>)
    requires Expand(prk, info) !in leaked
    ensures Knows(Expand(prk, info), adv, leaked) <==> Knows(prk, adv, leaked)
  {
  }

  lemma KnowsConcat(l: Term, r: Term, adv: Adversary, leaked: set<Term>)
    requires Concat(l, r) !in leaked
    ensures Knows(Concat(l, r), adv, leaked) <==> Knows(l, adv, leaked) && Knows(r, adv, leaked)
  {
  }

  lemma KnowsShared(a: Point, b: Point, adv: Adversary, leaked: set<Term>)
    requires DiffieHellman(a, b) !in leaked
    ensures Knows(DiffieHellman(a, b), adv, leaked) <==> a in adv.points || b in adv.points
  {
    var dh := DiffieHellman(a, b);
    assert a in dh.points && b in dh.points;
    assert forall q :: q in dh.points ==> q == a || q == b;
  }

  /** What the update from epoch `n` mixes in. */
  function UpdateSecret(ks: KeySchedule, n: nat): Term {
    Concat(DiffieHellman(ks.newPk(n), ks.clientPk), Info(INFO_TURN_RATCHET))
  }

  lemma RootSteps(ks: KeySchedule, n: nat)
    ensures RootAt(ks, n) == if n == 0 then ks.root else Extract(RootAt(ks, n - 1), UpdateSecret(ks, n - 1))
  {
  }

  lemma KnowsUpdate(ks: KeySchedule, n: nat, adv: Adversary, leaked: set<Term>)
    requires forall t :: t in leaked ==> t.Extract? || t.Expand?
    ensures Knows(UpdateSecret(ks, n), adv, leaked) <==> Broken(ks, n, adv)
  {
    var dh, label' := DiffieHellman(ks.newPk(n), ks.clientPk), Info(INFO_TURN_RATCHET);
    KnowsShared(ks.newPk(n), ks.clientPk, adv, leaked);
    KnowsConcat(dh, label', adv, leaked);
    assert Knows(label', adv, leaked);
  }

  /** The update from epoch `k` mixes in a secret the network has. */
  predicate Broken(ks: KeySchedule, k: nat, adv: Adversary) {
    ks.newPk(k) in adv.points || ks.clientPk in adv.points
  }

  /** A handshake root has no chain or root inside, so leaks of those tell nothing about it. */
  lemma RootKnownAlike(root: Term, adv: Adversary, leaked: set<Term>)
    requires HandshakeRoot(root) && root !in leaked
    requires forall t :: t in leaked ==> t.Extract? || t.Expand?
    ensures Knows(root, adv, leaked) <==> Derivable(root, adv)
  {
    var ikm := root.ikm;
    KnowsConcat(ikm.left, ikm.right, adv, leaked);
    KnowsConcat(ikm.left, ikm.right, adv, {});
    KnowsExtract(root.salt, ikm, adv, leaked);
    KnowsExtract(root.salt, ikm, adv, {});
    assert Knows(root.salt, adv, leaked) && Knows(root.salt, adv, {});
    assert Knows(ikm.left, adv, leaked) <==> Knows(ikm.left, adv, {});
    assert Knows(ikm.right, adv, leaked) <==> Knows(ikm.right, adv, {});
  }

  /** A root the network cannot compute stays hidden through every epoch, whatever ratchet points the
      network learns the secrets of later. */
  lemma {:induction false} RootStaysHidden(ks: KeySchedule, n: nat, adv: Adversary)
    requires !Derivable(ks.root, adv)
    ensures !Derivable(RootAt(ks, n), adv)
  {
    hide RootAt, UpdateSecret, Knows;
    RootSteps(ks, n);
    if n > 0 {
      RootStaysHidden(ks, n - 1, adv);
      KnowsExtract(RootAt(ks, n - 1), UpdateSecret(ks, n - 1), adv, {});
    }
  }

  lemma {:induction false} ChainStaysHidden(chain: Term, i: nat, adv: Adversary)
    requires !Derivable(chain, adv)
    ensures !Derivable(ChainAt(chain, i), adv)
  {
    if i > 0 {
      ChainStaysHidden(chain, i - 1, adv);
    }
  }

  /** Under such a root no record key of any epoch, direction or frame can be computed. */
  lemma RecordKeysHidden(ks: KeySchedule, n: nat, d: Direction, i: nat, adv: Adversary)
    requires !Derivable(ks.root, adv)
    ensures !Derivable(RecordKey(RootAt(ks, n), d, i), adv)
  {
    RootStaysHidden(ks, n, adv);
    ChainStaysHidden(Expand(RootAt(ks, n), RecordInfo(d)), i, adv);
  }

  // ---------------------------------------------------------------- what a leak gives away

  /** The chain of direction `d` in epoch `n` after `i` frames. */
  function SessionChain(ks: KeySchedule, n: nat, d: Direction, i: nat): Term {
    ChainAt(Expand(RootAt(ks, n), RecordInfo(d)), i)
  }

  lemma ChainIsExpand(base: Term, i: nat)
    requires base.Expand?
    ensures ChainAt(base, i).Expand?
  {
  }

  lemma {:induction false} RootsHiddenFromChainLeak(ks: KeySchedule, m: nat, adv: Adversary, leak: Term)
    requires HandshakeRoot(ks.root) && !Derivable(ks.root, adv) && leak.Expand?
    ensures !Knows(RootAt(ks, m), adv, {leak})
  {
    hide RootAt, UpdateSecret, Knows;
    RootSteps(ks, m);
    if m == 0 {
      RootKnownAlike(ks.root, adv, {leak});
    } else {
      RootsHiddenFromChainLeak(ks, m - 1, adv, leak);
      KnowsExtract(RootAt(ks, m - 1), UpdateSecret(ks, m - 1), adv, {leak});
    }
  }

  lemma {:induction false} ChainsKnownFromChainLeak(ks: KeySchedule, n: nat, d: Direction, i: nat, m: nat, e: Direction, j: nat,
                                                    adv: Adversary)
    requires HandshakeRoot(ks.root) && !Derivable(ks.root, adv)
    ensures Knows(SessionChain(ks, m, e, j), adv, {SessionChain(ks, n, d, i)}) <==> m == n && e == d && j >= i
    decreases j
  {
    var leak, chain := SessionChain(ks, n, d, i), SessionChain(ks, m, e, j);
    ChainIsExpand(Expand(RootAt(ks, n), RecordInfo(d)), i);
    assert chain == leak <==> m == n && e == d && j == i by {
      if chain == leak {
        RootIsExtract(ks, n);
        RootIsExtract(ks, m);
        ChainInjective(RootAt(ks, n), d, i, RootAt(ks, m), e, j);
        RootsDistinct(ks, n, ks, m);
      }
    }
    hide RootAt, RecordInfo;
    if j == 0 {
      RootsHiddenFromChainLeak(ks, m, adv, leak);
    } else {
      ChainsKnownFromChainLeak(ks, n, d, i, m, e, j - 1, adv);
    }
  }

  /** Forward secrecy, frame by frame: a leaked chain gives away exactly the keys of its own epoch and direction from
      its position on; every earlier one, the other direction and every other epoch stay hidden. */
  lemma ChainLeakReveals(ks: KeySchedule, n: nat, d: Direction, i: nat, m: nat, e: Direction, j: nat, adv: Adversary)
    requires HandshakeRoot(ks.root) && !Derivable(ks.root, adv)
    ensures Knows(RecordKey(RootAt(ks, m), e, j), adv, {SessionChain(ks, n, d, i)}) <==> m == n && e == d && j >= i
  {
    ChainsKnownFromChainLeak(ks, n, d, i, m, e, j, adv);
    NotAMessageKey(RootAt(ks, n), d, i, SessionChain(ks, m, e, j));
    hide RootAt, RecordInfo, ChainAt, Knows;
    KnowsExpand(SessionChain(ks, m, e, j), INFO_MSG, adv, {SessionChain(ks, n, d, i)});
  }

  lemma NotAMessageKey(root: Term, d: Direction, i: nat, chain: Term)
    ensures Expand(chain, INFO_MSG) != ChainAt(Expand(root, RecordInfo(d)), i)
  {
    assert |INFO_CHAIN| == 13 && |INFO_MSG| == 11;
  }

  /** Recovery from a leak: a leaked root gives away exactly the roots from its own epoch up to the first update whose
      points are both unbroken. */
  lemma {:induction false} RootLeakReveals(ks: KeySchedule, n: nat, m: nat, adv: Adversary)
    requires HandshakeRoot(ks.root) && !Derivable(ks.root, adv)
    ensures Knows(RootAt(ks, m), adv, {RootAt(ks, n)}) <==> n <= m && forall k :: n <= k < m ==> Broken(ks, k, adv)
    decreases m
  {
    hide RootAt, UpdateSecret, Knows, Broken;
    var leak := RootAt(ks, n);
    RootIsExtract(ks, n);
    RootSteps(ks, m);
    if RootAt(ks, m) == leak {
      RootsDistinct(ks, n, ks, m);
      LeakedIsKnown(leak, adv);
    } else if m == 0 {
      RootKnownAlike(ks.root, adv, {leak});
    } else {
      RootLeakReveals(ks, n, m - 1, adv);
      KnowsExtract(RootAt(ks, m - 1), UpdateSecret(ks, m - 1), adv, {leak});
      KnowsUpdate(ks, m - 1, adv, {leak});
    }
  }

  lemma LeakedIsKnown(t: Term, adv: Adversary)
    ensures Knows(t, adv, {t})
  {
  }

  lemma {:induction false} ChainKnownFromRootLeak(ks: KeySchedule, n: nat, m: nat, d: Direction, j: nat, adv: Adversary)
    requires HandshakeRoot(ks.root)
    ensures Knows(SessionChain(ks, m, d, j), adv, {RootAt(ks, n)}) <==> Knows(RootAt(ks, m), adv, {RootAt(ks, n)})
    decreases j
  {
    RootIsExtract(ks, n);
    hide RootAt, RecordInfo, Knows;
    if j == 0 {
      KnowsExpand(RootAt(ks, m), RecordInfo(d), adv, {RootAt(ks, n)});
    } else {
      ChainKnownFromRootLeak(ks, n, m, d, j - 1, adv);
      KnowsExpand(SessionChain(ks, m, d, j - 1), INFO_CHAIN, adv, {RootAt(ks, n)});
    }
  }

  /** So record keys after such an update are hidden again, and those of earlier epochs always were. */
  lemma RootLeakRevealsKeys(ks: KeySchedule, n: nat, m: nat, d: Direction, j: nat, adv: Adversary)
    requires HandshakeRoot(ks.root) && !Derivable(ks.root, adv)
    ensures Knows(RecordKey(RootAt(ks, m), d, j), adv, {RootAt(ks, n)})
            <==> n <= m && forall k :: n <= k < m ==> Broken(ks, k, adv)
  {
    RootLeakReveals(ks, n, m, adv);
    ChainKnownFromRootLeak(ks, n, m, d, j, adv);
    RootIsExtract(ks, n);
    hide RootAt, RecordInfo, ChainAt, Knows;
    KnowsExpand(SessionChain(ks, m, d, j), INFO_MSG, adv, {RootAt(ks, n)});
  }

  // ---------------------------------------------------------------- nonce salts

  /** The nonce salt of epoch `n`. */
  function SaltAt(ks: KeySchedule, n: nat): Term {
    DeriveInitialKeys(RootAt(ks, n)).salt
  }

  /** Salts of two sessions or of two epochs are different. */
  lemma SaltsDistinct(ks: KeySchedule, n: nat, ls: KeySchedule, m: nat)
    requires HandshakeRoot(ks.root) && HandshakeRoot(ls.root) && SaltAt(ks, n) == SaltAt(ls, m)
    ensures ks.root == ls.root && n == m
  {
    RootsDistinct(ks, n, ls, m);
  }

  /** A derived term that is no chain of the session. */
  ghost predicate IsLeaf(ks: KeySchedule, leak: Term) {
    leak.Expand? && forall n: nat, d: Direction, i: nat :: SessionChain(ks, n, d, i) != leak
  }

  lemma {:induction false} ChainsHiddenFromLeafLeak(ks: KeySchedule, leak: Term, m: nat, d: Direction, j: nat, adv: Adversary)
    requires HandshakeRoot(ks.root) && !Derivable(ks.root, adv) && IsLeaf(ks, leak)
    ensures !Knows(SessionChain(ks, m, d, j), adv, {leak})
    decreases j
  {
    hide RootAt, RecordInfo, Knows;
    assert SessionChain(ks, m, d, j) != leak;
    if j == 0 {
      RootsHiddenFromChainLeak(ks, m, adv, leak);
      KnowsExpand(RootAt(ks, m), RecordInfo(d), adv, {leak});
    } else {
      ChainsHiddenFromLeafLeak(ks, leak, m, d, j - 1, adv);
      KnowsExpand(SessionChain(ks, m, d, j - 1), INFO_CHAIN, adv, {leak});
    }
  }

  lemma LeafLeakReveals(ks: KeySchedule, leak: Term, m: nat, d: Direction, j: nat, adv: Adversary)
    requires HandshakeRoot(ks.root) && !Derivable(ks.root, adv) && IsLeaf(ks, leak)
    ensures Knows(RecordKey(RootAt(ks, m), d, j), adv, {leak}) <==> RecordKey(RootAt(ks, m), d, j) == leak
  {
    ChainsHiddenFromLeafLeak(ks, leak, m, d, j, adv);
    hide RootAt, RecordInfo, ChainAt, Knows, IsLeaf;
    if RecordKey(RootAt(ks, m), d, j) == leak {
      LeakedIsKnown(leak, adv);
    } else {
      KnowsExpand(SessionChain(ks, m, d, j), INFO_MSG, adv, {leak});
    }
  }

  lemma NotASalt(ks: KeySchedule, n: nat, m: nat, d: Direction, j: nat)
    ensures SessionChain(ks, m, d, j) != SaltAt(ks, n) && RecordKey(RootAt(ks, m), d, j) != SaltAt(ks, n)
  {
    assert |INFO_CHAIN| == 13 && |INFO_MSG| == 11 && |INFO_NONCE_SALT| == 18;
  }

  /** The salt of an epoch, once known, tells no record key of any epoch, direction or frame. */
  lemma SaltLeakRevealsNothing(ks: KeySchedule, n: nat, m: nat, d: Direction, j: nat, adv: Adversary)
    requires HandshakeRoot(ks.root) && !Derivable(ks.root, adv)
    ensures !Knows(RecordKey(RootAt(ks, m), d, j), adv, {SaltAt(ks, n)})
  {
    hide RootAt, Knows, RecordKey;
    forall k: nat, e: Direction, i: nat ensures SessionChain(ks, k, e, i) != SaltAt(ks, n) {
      NotASalt(ks, n, k, e, i);
    }
    NotASalt(ks, n, m, d, j);
    LeafLeakReveals(ks, SaltAt(ks, n), m, d, j, adv);
  }

  /** A leaked record key tells no other one. */
  lemma KeyLeakReveals(ks: KeySchedule, n: nat, d: Direction, i: nat, m: nat, e: Direction, j: nat, adv: Adversary)
    requires HandshakeRoot(ks.root) && !Derivable(ks.root, adv)
    ensures Knows(RecordKey(RootAt(ks, m), e, j), adv, {RecordKey(RootAt(ks, n), d, i)}) <==> m == n && e == d && j == i
  {
    var leak := RecordKey(RootAt(ks, n), d, i);
    if RecordKey(RootAt(ks, m), e, j) == leak {
      RecordKeysDistinct(ks, m, e, j, ks, n, d, i);
    }
    hide RootAt, Knows, ChainAt;
    forall k: nat, f: Direction, l: nat ensures SessionChain(ks, k, f, l) != leak {
      NotAMessageKey(RootAt(ks, k), f, l, SessionChain(ks, n, d, i));
    }
    LeafLeakReveals(ks, leak, m, e, j, adv);
  }

  // ---------------------------------------------------------------- the labels

  /** The labels on the way from a root to a term. */
  function Path(t: Term): seq<string> {
    if t.Expand? then Path(t.prk) + [t.info] else []
  }

  function Origin(t: Term): Term {
    if t.Expand? then Origin(t.prk) else t
  }

  function Repeated(label': string, i: nat): seq<string> {
    seq(i, _ => label')
  }

  lemma {:induction false} ChainPath(root: Term, d: Direction, i: nat)
    requires root.Extract?
    ensures var chain := ChainAt(Expand(root, RecordInfo(d)), i);
            Origin(chain) == root && Path(chain) == [RecordInfo(d)] + Repeated("ULLM-v1 chain", i)
  {
    if i > 0 {
      ChainPath(root, d, i - 1);
    }
  }

  /** The labels of a record key, character by character, and of a salt. */
  lemma DerivationPaths(root: Term, i: nat)
    requires root.Extract?
    ensures Origin(RecordKey(root, C2S, i)) == Origin(RecordKey(root, S2C, i)) == root
    ensures Path(RecordKey(root, C2S, i)) == ["ULLM-v1 record c2s"] + Repeated("ULLM-v1 chain", i) + ["ULLM-v1 msg"]
    ensures Path(RecordKey(root, S2C, i)) == ["ULLM-v1 record s2c"] + Repeated("ULLM-v1 chain", i) + ["ULLM-v1 msg"]
    ensures DeriveInitialKeys(root).salt == Expand(root, "ULLM-v1 nonce salt")
  {
    ChainPath(root, C2S, i);
    ChainPath(root, S2C, i);
  }
}
