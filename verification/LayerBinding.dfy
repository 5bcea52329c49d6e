/** What the verifying key and the instance of the layer circuit pin down. */
module LayerBinding {
  import opened Bytes
  import opened Field
  import opened Model
  import opened LayerCircuit
  import opened LayerTheorems

  // ---------------------------------------------------------------- the verifying key

  ghost predicate SameShape(t: Table, u: Table) {
    t.constraints == u.constraints && |t.advice| == |u.advice|
  }

  lemma {:induction false} RowIgnoresAdvice(p: int, t: Table, u: Table, w: seq<int>, acc: Cell, j: nat)
    requires p > 0 && j <= |w| <= |t.advice| && acc < |t.advice| && SameShape(t, u)
    ensures SameShape(Row(p, t, w, acc, j).0, Row(p, u, w, acc, j).0)
    ensures Row(p, t, w, acc, j).1 == Row(p, u, w, acc, j).1
    decreases |w| - j
  {
    if j < |w| {
      var m, m' := Product(p, t, w[j], j), Product(p, u, w[j], j);
      RowIgnoresAdvice(p, Sum(p, m, acc, |t.advice| + 2), Sum(p, m', acc, |t.advice| + 2), w, |m.advice| + 2, j + 1);
    }
  }

  lemma {:induction false} RowsIgnoreAdvice(p: int, t: Table, u: Table, layer: Layer, i: nat)
    requires p > 0 && Fits(layer, p, |layer.b|) && i <= |layer.b| && 2 * |layer.b| <= |t.advice| && SameShape(t, u)
    ensures SameShape(Rows(p, t, layer, i), Rows(p, u, layer, i))
    decreases |layer.b| - i
  {
    hide Row;
    if i < |layer.b| {
      var k, k' := LoadedConstant(t, layer.b[i]), LoadedConstant(u, layer.b[i]);
      RowIgnoresAdvice(p, k, k', layer.w[i], |t.advice|, 0);
      var row, row' := Row(p, k, layer.w[i], |t.advice|, 0), Row(p, k', layer.w[i], |t.advice|, 0);
      RowsIgnoreAdvice(p, Equated(row.0, row.1, |layer.b| + i), Equated(row'.0, row'.1, |layer.b| + i), layer, i + 1);
    }
  }

  /** The circuit with its witness blanked out. */
  function Blank(layer: Layer): Circuit {
    var zeros := seq(|layer.b|, _ => 0);
    Circuit(layer, zeros, zeros, [0, 0, 0, 0])
  }

  /** What key generation fixes. */
  function VerifyingKey(p: int, hash: Hash, layer: Layer): seq<Constraint>
    requires p > 0 && Fits(layer, p, |layer.b|)
  {
    Synthesized(p, hash, Blank(layer)).constraints
  }

  /** The constraints depend on the layer alone: inputs, outputs and identity of a proof leave no trace in the key. */
  lemma KeyIgnoresWitness(p: int, hash: Hash, c: Circuit)
    requires p > 0 && Shaped(c, p)
    ensures Synthesized(p, hash, c).constraints == VerifyingKey(p, hash, c.layer)
  {
    var b := Blank(c.layer);
    var t, u := Table([], c.x + c.y), Table([], b.x + b.y);
    RowsIgnoreAdvice(p, t, u, c.layer, 0);
    hide Rows, Exposed;
    ExposedShape(Rows(p, t, c.layer, 0), hash, |c.x|, c.identity);
    ExposedShape(Rows(p, u, c.layer, 0), hash, |c.x|, b.identity);
  }

  // ---------------------------------------------------------------- accepted instances

  lemma {:induction false} RowIn(p: int, t: Table, w: seq<int>, acc: Cell, j: nat)
    requires p > 0 && j <= |w| <= |t.advice| && acc < |t.advice| && AllIn(p, t.advice)
    ensures AllIn(p, Row(p, t, w, acc, j).0.advice)
    decreases |w| - j
  {
    if j < |w| {
      var m := Product(p, t, w[j], j);
      CongNorm(p, w[j] * t.advice[j]);
      CongNorm(p, m.advice[acc] + m.advice[|t.advice| + 2]);
      RowIn(p, Sum(p, m, acc, |t.advice| + 2), w, |m.advice| + 2, j + 1);
    }
  }

  lemma {:induction false} RowsIn(p: int, t: Table, layer: Layer, i: nat)
    requires p > 0 && Fits(layer, p, |layer.b|) && i <= |layer.b| && 2 * |layer.b| <= |t.advice| && AllIn(p, t.advice)
    ensures AllIn(p, Rows(p, t, layer, i).advice)
    decreases |layer.b| - i
  {
    hide Row;
    if i < |layer.b| {
      var k := LoadedConstant(t, layer.b[i]);
      assert AllIn(p, k.advice);
      RowIn(p, k, layer.w[i], |t.advice|, 0);
      var row := Row(p, k, layer.w[i], |t.advice|, 0);
      RowsIn(p, Equated(row.0, row.1, |layer.b| + i), layer, i + 1);
    }
  }

  /** The honest advice lies in the field. */
  lemma HonestIn(p: int, hash: Hash, c: Circuit)
    requires p > 0 && Shaped(c, p) && AllIn(p, c.x) && AllIn(p, c.y) && AllIn(p, c.identity)
    requires InField(p, hash(c.x)) && InField(p, hash(c.y))
    ensures AllIn(p, Synthesized(p, hash, c).advice)
  {
    var n, t0 := |c.x|, Table([], c.x + c.y);
    hide Rows, Exposed;
    RowsIn(p, t0, c.layer, 0);
    RowsPrefix(p, t0, c.layer, 0);
    var t := Rows(p, t0, c.layer, 0);
    assert t.advice[..n] == c.x && t.advice[n..2 * n] == c.y;
    ExposedIn(p, t, hash, n, c.identity);
  }

  lemma ExposedIn(p: int, t: Table, hash: Hash, n: nat, identity: seq<int>)
    requires 2 * n <= |t.advice| && |identity| == 4 && AllIn(p, t.advice) && AllIn(p, identity)
    requires InField(p, hash(t.advice[..n])) && InField(p, hash(t.advice[n..2 * n]))
    ensures AllIn(p, Exposed(t, hash, n, identity).advice)
  {
    ExposedShape(t, hash, n, identity);
    var hx := hash(Values(Honest(t.advice), Cells(0, n)));
    var hy := hash(Values(Honest(t.advice + [hx]), Cells(n, n)));
    assert Values(Honest(t.advice), Cells(0, n)) == t.advice[..n];
    assert Values(Honest(t.advice + [hx]), Cells(n, n)) == t.advice[n..2 * n];
    hide Exposed, Values;
    var all := t.advice + [hx, hy] + identity;
    forall i | 0 <= i < |all| ensures InField(p, all[i]) {
      if i >= |t.advice| + 2 {
        assert all[i] == identity[i - |t.advice| - 2];
      }
    }
  }

  lemma {:induction false} RowsPrefix(p: int, t: Table, layer: Layer, i: nat)
    requires p > 0 && Fits(layer, p, |layer.b|) && i <= |layer.b| && 2 * |layer.b| <= |t.advice|
    ensures t.advice <= Rows(p, t, layer, i).advice
    decreases |layer.b| - i
  {
    hide Row;
    if i < |layer.b| {
      var k := LoadedConstant(t, layer.b[i]);
      RowValue(k, layer.w[i], |t.advice|, 0, p);
      var row := Row(p, k, layer.w[i], |t.advice|, 0);
      RowsPrefix(p, Equated(row.0, row.1, |layer.b| + i), layer, i + 1);
    }
  }

  /** Some field assignment meets every constraint of the key. */
  ghost predicate Provable(p: int, hash: Hash, layer: Layer, instance: seq<int>)
    requires p > 0 && Fits(layer, p, |layer.b|)
  {
    exists a: Cell -> int :: (forall k :: InField(p, a(k))) && Satisfies(VerifyingKey(p, hash, layer), p, hash, a, instance)
  }

  /** The instance commits to some input and to its image under the layer. */
  ghost predicate True(p: int, hash: Hash, layer: Layer, instance: seq<int>)
    requires p > 0 && Fits(layer, p, |layer.b|) && |instance| == NUM_INSTANCES
  {
    exists x :: |x| == |layer.b| && AllIn(p, x) && Commits(p, hash, layer, instance, x)
  }

  predicate Commits(p: int, hash: Hash, layer: Layer, instance: seq<int>, x: seq<int>)
    requires p > 0 && Fits(layer, p, |x|) && |instance| == NUM_INSTANCES
  {
    instance[0] == hash(x) && instance[1] == hash(Affine(p, layer, x))
  }

  /** An instance is provable exactly when it is true. */
  lemma ProvableIffTrue(p: int, hash: Hash, layer: Layer, instance: seq<int>)
    requires p > 0 && Fits(layer, p, |layer.b|) && |instance| == NUM_INSTANCES && AllIn(p, instance)
    ensures Provable(p, hash, layer, instance) <==> True(p, hash, layer, instance)
  {
    hide VerifyingKey, Synthesized, Affine, Satisfies;
    if Provable(p, hash, layer, instance) {
      var a: Cell -> int :| (forall k :: InField(p, a(k))) && Satisfies(VerifyingKey(p, hash, layer), p, hash, a, instance);
      ProvableIsTrue(p, hash, layer, instance, a);
    }
    if True(p, hash, layer, instance) {
      var x :| |x| == |layer.b| && AllIn(p, x) && Commits(p, hash, layer, instance, x);
      TrueIsProvable(p, hash, layer, instance, x);
    }
  }

  lemma ProvableIsTrue(p: int, hash: Hash, layer: Layer, instance: seq<int>, a: Cell -> int)
    requires p > 0 && Fits(layer, p, |layer.b|) && |instance| == NUM_INSTANCES
    requires (forall k :: InField(p, a(k))) && Satisfies(VerifyingKey(p, hash, layer), p, hash, a, instance)
    ensures var x := Values(a, Cells(0, |layer.b|));
            AllIn(p, x) && Commits(p, hash, layer, instance, x)
  {
    hide Synthesized, Affine, Satisfies, Rows;
    CircuitSound(p, hash, Blank(layer), a, instance);
  }

  lemma TrueIsProvable(p: int, hash: Hash, layer: Layer, instance: seq<int>, x: seq<int>)
    requires p > 0 && Fits(layer, p, |layer.b|) && |instance| == NUM_INSTANCES && AllIn(p, instance)
    requires |x| == |layer.b| && AllIn(p, x) && Commits(p, hash, layer, instance, x)
    ensures Provable(p, hash, layer, instance)
  {
    hide Synthesized, Affine, Satisfies, VerifyingKey;
    var c := Circuit(layer, x, Affine(p, layer, x), instance[2..]);
    assert instance == [hash(c.x), hash(c.y)] + c.identity;
    KeyIgnoresWitness(p, hash, c);
    CircuitComplete(p, hash, c, instance);
    HonestIn(p, hash, c);
    var a := Honest(Synthesized(p, hash, c).advice);
    assert forall k :: InField(p, a(k));
    assert Satisfies(VerifyingKey(p, hash, layer), p, hash, a, instance);
  }

  // ---------------------------------------------------------------- the instance

  datatype Identity = Identity(layerIdx: nat, session: seq<Byte>, weightCommit: seq<Byte>)

  predicate ValidIdentity(id: Identity) {
    id.layerIdx < U64 && |id.session| == 16 && |id.weightCommit| == 32
  }

  function BuildInstance(p: int, x: int, y: int, id: Identity): (rows: seq<int>)
    requires p > 0 && ValidIdentity(id)
    ensures |rows| == NUM_INSTANCES
  {
    [x, y, id.layerIdx % p, FromLittleEndian(id.session) % p,
     FromLittleEndian(id.weightCommit[..16]) % p, FromLittleEndian(id.weightCommit[16..]) % p]
  }

  /** Sixteen bytes survive the reduction. */
  lemma HalfFits(p: int, bytes: seq<Byte>)
    requires U128 <= p && |bytes| == 16
    ensures FromLittleEndian(bytes) % p == FromLittleEndian(bytes)
  {
    LittleEndianFits(bytes);
    Pow256At16();
    hide Pow256, FromLittleEndian;
    DivModUnique(p, FromLittleEndian(bytes), 0, FromLittleEndian(bytes));
  }

  lemma Pow256At16()
    ensures Pow256(16) == U128
  {
    assert Pow256(8) == U64;
    Pow256Adds(8, 8);
  }

  lemma SameHalf(p: int, a: seq<Byte>, b: seq<Byte>)
    requires U128 <= p && |a| == |b| == 16 && FromLittleEndian(a) % p == FromLittleEndian(b) % p
    ensures a == b
  {
    HalfFits(p, a);
    HalfFits(p, b);
    LittleEndianInjective(a, b);
  }

  /** The rows determine the layer, the session and the whole weight commitment. */
  lemma InstanceInjective(p: int, x: int, y: int, id: Identity, x': int, y': int, id': Identity)
    requires U128 <= p && ValidIdentity(id) && ValidIdentity(id')
    ensures BuildInstance(p, x, y, id) == BuildInstance(p, x', y', id') <==> x == x' && y == y' && id == id'
  {
    var r, r' := BuildInstance(p, x, y, id), BuildInstance(p, x', y', id');
    if r == r' {
      assert r[0] == r'[0] && r[1] == r'[1] && r[2] == r'[2] && r[3] == r'[3] && r[4] == r'[4] && r[5] == r'[5];
      IndexFits(p, id.layerIdx);
      IndexFits(p, id'.layerIdx);
      hide Pow256, FromLittleEndian;
      SameHalf(p, id.session, id'.session);
      SameHalf(p, id.weightCommit[..16], id'.weightCommit[..16]);
      SameHalf(p, id.weightCommit[16..], id'.weightCommit[16..]);
      assert id.weightCommit == id.weightCommit[..16] + id.weightCommit[16..];
      assert id'.weightCommit == id'.weightCommit[..16] + id'.weightCommit[16..];
    }
  }

  /** What each row says: the commitments, the layer index, the session number, and the weight commitment in two halves,
      the low one first. */
  lemma InstanceTells(p: int, x: int, y: int, id: Identity)
    requires U128 <= p && ValidIdentity(id)
    ensures var rows := BuildInstance(p, x, y, id);
            && rows[0] == x && rows[1] == y && rows[2] == id.layerIdx && rows[3] == FromLittleEndian(id.session)
            && rows[4] + U128 * rows[5] == FromLittleEndian(id.weightCommit)
  {
    hide FromLittleEndian, Pow256;
    IndexFits(p, id.layerIdx);
    HalfFits(p, id.session);
    HalfFits(p, id.weightCommit[..16]);
    HalfFits(p, id.weightCommit[16..]);
    LittleEndianSplit(id.weightCommit[..16], id.weightCommit[16..]);
    assert id.weightCommit == id.weightCommit[..16] + id.weightCommit[16..];
    Pow256At16();
  }

  lemma IndexFits(p: int, i: nat)
    requires U128 <= p && i < U64
    ensures i % p == i
  {
    DivModUnique(p, i, 0, i);
  }

  /** One assignment fits one identity and one pair of commitments only. */
  lemma AssignmentFixesIdentity(p: int, hash: Hash, layer: Layer, a: Cell -> int,
                                x: int, y: int, id: Identity, x': int, y': int, id': Identity)
    requires U128 <= p && Fits(layer, p, |layer.b|) && ValidIdentity(id) && ValidIdentity(id')
    requires forall k :: InField(p, a(k))
    ensures && Satisfies(VerifyingKey(p, hash, layer), p, hash, a, BuildInstance(p, x, y, id))
            && Satisfies(VerifyingKey(p, hash, layer), p, hash, a, BuildInstance(p, x', y', id'))
            ==> x == x' && y == y' && id == id'
  {
    hide Synthesized, Satisfies, BuildInstance, Rows, Affine, Values, ValidIdentity;
    var r, r' := BuildInstance(p, x, y, id), BuildInstance(p, x', y', id');
    if Satisfies(VerifyingKey(p, hash, layer), p, hash, a, r) && Satisfies(VerifyingKey(p, hash, layer), p, hash, a, r') {
      CircuitSound(p, hash, Blank(layer), a, r);
      CircuitSound(p, hash, Blank(layer), a, r');
      assert r == r';
      InstanceInjective(p, x, y, id, x', y', id');
    }
  }
}
