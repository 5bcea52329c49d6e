/** What the layer circuit proves: soundness, completeness, and the binding of the instance. */
module LayerTheorems {
  import opened Field
  import opened Model
  import opened LayerCircuit

  // ---------------------------------------------------------------- soundness

  lemma ConstantSound(t: Table, k: int, p: int, hash: Hash, a: Cell -> int, instance: seq<int>)
    requires p > 0 && Satisfies(LoadedConstant(t, k).constraints, p, hash, a, instance)
    ensures Satisfies(t.constraints, p, hash, a, instance) && Cong(p, a(|t.advice|), k)
  {
    var n := |t.advice|;
    var g := Gate(0, 1, 0, 0, -k, n, n + 1, n + 2);
    SatisfiesBoth(t.constraints, [g], p, hash, a, instance);
    assert Holds([g][0], p, hash, a, instance);
    assert GateValue(g, a) == a(n) - k;
    CongRefl(p, k);
    CongAdd(p, GateValue(g, a), 0, k, k);
  }

  lemma ProductSound(t: Table, k: int, x: Cell, p: int, hash: Hash, a: Cell -> int, instance: seq<int>)
    requires p > 0 && x < |t.advice| && Satisfies(Product(p, t, k, x).constraints, p, hash, a, instance)
    ensures Satisfies(t.constraints, p, hash, a, instance) && Cong(p, a(|t.advice| + 2), k * a(x))
  {
    var n := |t.advice|;
    var g := Gate(0, k, 0, -1, 0, n, n + 1, n + 2);
    var ks := [Copy(n, x), g];
    SatisfiesBoth(t.constraints, ks, p, hash, a, instance);
    assert Holds(ks[0], p, hash, a, instance) && Holds(ks[1], p, hash, a, instance);
    assert GateValue(g, a) == k * a(x) - a(n + 2);
    CongRefl(p, a(n + 2));
    CongAdd(p, GateValue(g, a), 0, a(n + 2), a(n + 2));
  }

  lemma SumSound(t: Table, b: Cell, c: Cell, p: int, hash: Hash, a: Cell -> int, instance: seq<int>)
    requires p > 0 && b < |t.advice| && c < |t.advice| && Satisfies(Sum(p, t, b, c).constraints, p, hash, a, instance)
    ensures Satisfies(t.constraints, p, hash, a, instance) && Cong(p, a(|t.advice| + 2), a(b) + a(c))
  {
    var n := |t.advice|;
    var g := Gate(0, 1, 1, -1, 0, n, n + 1, n + 2);
    var ks := [Copy(n, b), Copy(n + 1, c), g];
    SatisfiesBoth(t.constraints, ks, p, hash, a, instance);
    assert Holds(ks[0], p, hash, a, instance) && Holds(ks[1], p, hash, a, instance) && Holds(ks[2], p, hash, a, instance);
    assert GateValue(g, a) == a(b) + a(c) - a(n + 2);
    CongRefl(p, a(n + 2));
    CongAdd(p, GateValue(g, a), 0, a(n + 2), a(n + 2));
  }

  /** The last running sum is the first one plus the products from column `j` on. */
  lemma {:induction false} RowSound(t: Table, w: seq<int>, acc: Cell, j: nat, p: int, hash: Hash, a: Cell -> int, instance: seq<int>)
    requires p > 0 && j <= |w| <= |t.advice| && acc < |t.advice|
    requires Satisfies(Row(p, t, w, acc, j).0.constraints, p, hash, a, instance)
    ensures Satisfies(t.constraints, p, hash, a, instance)
    ensures var xs := Values(a, Cells(0, |w|));
            Cong(p, a(Row(p, t, w, acc, j).1), a(acc) + Dot(w, xs, |w|) - Dot(w, xs, j))
    decreases |w| - j
  {
    hide Satisfies, Cong, Product, Sum;
    var xs := Values(a, Cells(0, |w|));
    if j == |w| {
      CongRefl(p, a(acc));
    } else {
      ProductShape(p, t, w[j], j);
      var m := Product(p, t, w[j], j);
      var prod, next := |t.advice| + 2, |m.advice| + 2;
      SumShape(p, m, acc, prod);
      var s := Sum(p, m, acc, prod);
      RowSound(s, w, next, j + 1, p, hash, a, instance);
      SumSound(m, acc, prod, p, hash, a, instance);
      ProductSound(t, w[j], j, p, hash, a, instance);
      RowChains(p, a(Row(p, t, w, acc, j).1), a(next), a(acc), a(prod), w[j] * xs[j], Dot(w, xs, |w|), Dot(w, xs, j));
    }
  }

  lemma RowChains(p: int, last: int, next: int, acc: int, prod: int, wx: int, all: int, done: int)
    requires p > 0 && Cong(p, last, next + all - (done + wx)) && Cong(p, next, acc + prod) && Cong(p, prod, wx)
    ensures Cong(p, last, acc + all - done)
  {
    CongRefl(p, acc);
    CongAdd(p, acc, acc, prod, wx);
    CongRefl(p, all - (done + wx));
    CongAdd(p, next, acc + wx, all - (done + wx), all - (done + wx));
  }

  /** Every row from `i` on says what its coordinate of `y` is. */
  lemma {:induction false} RowsSound(t: Table, layer: Layer, i: nat, p: int, hash: Hash, a: Cell -> int, instance: seq<int>)
    requires p > 0 && Fits(layer, p, |layer.b|) && i <= |layer.b| && 2 * |layer.b| <= |t.advice|
    requires Satisfies(Rows(p, t, layer, i).constraints, p, hash, a, instance)
    ensures Satisfies(t.constraints, p, hash, a, instance)
    ensures var n := |layer.b|; var xs := Values(a, Cells(0, n));
            forall k :: i <= k < n ==> Cong(p, a(n + k), layer.b[k] + Dot(layer.w[k], xs, n))
    decreases |layer.b| - i
  {
    hide Satisfies, Cong, Row, LoadedConstant, Values, Dot, Cells;
    var n := |layer.b|;
    if i < n {
      ConstantShape(t, layer.b[i]);
      var row := Row(p, LoadedConstant(t, layer.b[i]), layer.w[i], |t.advice|, 0);
      RowsSound(Equated(row.0, row.1, n + i), layer, i + 1, p, hash, a, instance);
      OneRowSound(t, layer.w[i], layer.b[i], n + i, p, hash, a, instance);
    }
  }

  /** A constant, a row and the equation with a cell of `y` say what that cell holds. */
  lemma OneRowSound(t: Table, w: seq<int>, b: int, y: Cell, p: int, hash: Hash, a: Cell -> int, instance: seq<int>)
    requires p > 0 && |w| <= |t.advice|
    requires var row := Row(p, LoadedConstant(t, b), w, |t.advice|, 0);
             Satisfies(Equated(row.0, row.1, y).constraints, p, hash, a, instance)
    ensures Satisfies(t.constraints, p, hash, a, instance)
    ensures Cong(p, a(y), b + Dot(w, Values(a, Cells(0, |w|)), |w|))
  {
    hide Satisfies, Cong, Row, LoadedConstant, Values, Cells;
    ConstantShape(t, b);
    var k := LoadedConstant(t, b);
    var row := Row(p, k, w, |t.advice|, 0);
    EquatedSound(row.0, row.1, y, p, hash, a, instance);
    RowSound(k, w, |t.advice|, 0, p, hash, a, instance);
    ConstantSound(t, b, p, hash, a, instance);
    var d := Dot(w, Values(a, Cells(0, |w|)), |w|);
    CongRefl(p, d);
    CongAdd(p, a(|t.advice|), b, d, d);
    CongTrans(p, a(y), a(|t.advice|) + d, b + d);
  }

  lemma ConstantShape(t: Table, k: int)
    ensures |LoadedConstant(t, k).advice| == |t.advice| + 3
  {
  }

  lemma CongTrans(p: int, x: int, y: int, z: int)
    requires p > 0 && Cong(p, x, y) && Cong(p, y, z)
    ensures Cong(p, x, z)
  {
  }

  lemma EquatedSound(t: Table, b: Cell, c: Cell, p: int, hash: Hash, a: Cell -> int, instance: seq<int>)
    requires p > 0 && Satisfies(Equated(t, b, c).constraints, p, hash, a, instance)
    ensures Satisfies(t.constraints, p, hash, a, instance) && a(b) == a(c)
  {
    SatisfiesBoth(t.constraints, [Copy(b, c)], p, hash, a, instance);
    assert Holds([Copy(b, c)][0], p, hash, a, instance);
  }

  /** The constraints `Exposed` adds when the next cell is `m`. */
  function ExposedConstraints(n: nat, m: Cell): seq<Constraint> {
    [Hashed(Cells(0, n), m), Public(m, 0), Hashed(Cells(n, n), m + 1), Public(m + 1, 1),
     Public(m + 2, 2), Public(m + 3, 3), Public(m + 4, 4), Public(m + 5, 5)]
  }

  lemma ExposedShape(t: Table, hash: Hash, n: nat, identity: seq<int>)
    requires 2 * n <= |t.advice| && |identity| == 4
    ensures Exposed(t, hash, n, identity).constraints == t.constraints + ExposedConstraints(n, |t.advice|)
    ensures var hx := hash(Values(Honest(t.advice), Cells(0, n)));
            var hy := hash(Values(Honest(t.advice + [hx]), Cells(n, n)));
            Exposed(t, hash, n, identity).advice == t.advice + [hx, hy] + identity
  {
    hide Values, Cells;
  }

  /** What satisfying the circuit forces on the instance: six rows fixed by the assignment. */
  ghost predicate Exposes(hash: Hash, a: Cell -> int, n: nat, m: Cell, instance: seq<int>) {
    && NUM_INSTANCES <= |instance|
    && instance[0] == hash(Values(a, Cells(0, n))) && instance[1] == hash(Values(a, Cells(n, n)))
    && instance[2] == a(m + 2) && instance[3] == a(m + 3) && instance[4] == a(m + 4) && instance[5] == a(m + 5)
  }

  lemma ExposedSound(n: nat, m: Cell, p: int, hash: Hash, a: Cell -> int, instance: seq<int>)
    requires p > 0 && Satisfies(ExposedConstraints(n, m), p, hash, a, instance)
    ensures Exposes(hash, a, n, m, instance)
  {
    hide Values, Cells;
    var ks := ExposedConstraints(n, m);
    assert Holds(ks[0], p, hash, a, instance) && Holds(ks[1], p, hash, a, instance) && Holds(ks[2], p, hash, a, instance)
        && Holds(ks[3], p, hash, a, instance) && Holds(ks[4], p, hash, a, instance) && Holds(ks[5], p, hash, a, instance)
        && Holds(ks[6], p, hash, a, instance) && Holds(ks[7], p, hash, a, instance);
  }

  /** Whatever field assignment meets every constraint, its `y` is `W*x + b` of its `x`, and the instance is the two
      commitments followed by its four identity cells. */
  lemma CircuitSound(p: int, hash: Hash, c: Circuit, a: Cell -> int, instance: seq<int>)
    requires p > 0 && Shaped(c, p) && (forall k :: InField(p, a(k)))
    requires Satisfies(Synthesized(p, hash, c).constraints, p, hash, a, instance)
    ensures var n := |c.x|;
            && Values(a, Cells(n, n)) == Affine(p, c.layer, Values(a, Cells(0, n)))
            && Exposes(hash, a, n, |Rows(p, Table([], c.x + c.y), c.layer, 0).advice|, instance)
  {
    hide Rows, Exposed, ExposedConstraints, Satisfies, Exposes, Dot, Cong;
    var n, t0 := |c.x|, Table([], c.x + c.y);
    var t := Rows(p, t0, c.layer, 0);
    ExposedShape(t, hash, n, c.identity);
    SatisfiesBoth(t.constraints, ExposedConstraints(n, |t.advice|), p, hash, a, instance);
    ExposedSound(n, |t.advice|, p, hash, a, instance);
    RowsSound(t0, c.layer, 0, p, hash, a, instance);
    var xs := Values(a, Cells(0, n));
    forall k | 0 <= k < n ensures a(n + k) == Coordinate(p, c.layer, xs, k) {
      ReducedIs(p, a(n + k), c.layer.b[k] + Dot(c.layer.w[k], xs, n));
    }
    assert Values(a, Cells(n, n)) == Affine(p, c.layer, xs);
  }

  lemma ReducedIs(p: int, x: int, y: int)
    requires p > 0 && InField(p, x) && Cong(p, x, y)
    ensures x == y % p
  {
    CongNorm(p, y);
    CongUnique(p, x, y % p);
  }

  // ---------------------------------------------------------------- completeness

  predicate Below(k: Constraint, n: nat) {
    match k
    case Gate(_, _, _, _, _, a, b, c) => a < n && b < n && c < n
    case Copy(from, to) => from < n && to < n
    case Hashed(inputs, output) => output < n && forall i :: 0 <= i < |inputs| ==> inputs[i] < n
    case Public(cell, _) => cell < n
  }

  /** Every constraint is about existing cells, and the prover's own values meet it. */
  ghost predicate Good(t: Table, p: int, hash: Hash, instance: seq<int>)
    requires p > 0
  {
    forall i :: 0 <= i < |t.constraints| ==>
                  Below(t.constraints[i], |t.advice|) && Holds(t.constraints[i], p, hash, Honest(t.advice), instance)
  }

  lemma HoldsLater(k: Constraint, p: int, hash: Hash, advice: seq<int>, more: seq<int>, instance: seq<int>)
    requires p > 0 && Below(k, |advice|) && Holds(k, p, hash, Honest(advice), instance)
    ensures Below(k, |advice + more|) && Holds(k, p, hash, Honest(advice + more), instance)
  {
    if k.Hashed? {
      assert Values(Honest(advice), k.inputs) == Values(Honest(advice + more), k.inputs);
    } else if k.Gate? {
      assert GateValue(k, Honest(advice)) == GateValue(k, Honest(advice + more));
    }
  }

  lemma GoodGrows(t: Table, ks: seq<Constraint>, more: seq<int>, p: int, hash: Hash, instance: seq<int>)
    requires p > 0 && Good(t, p, hash, instance)
    requires forall i :: 0 <= i < |ks| ==>
                           Below(ks[i], |t.advice + more|) && Holds(ks[i], p, hash, Honest(t.advice + more), instance)
    ensures Good(Table(t.constraints + ks, t.advice + more), p, hash, instance)
  {
    hide Holds, Below;
    var both := t.constraints + ks;
    forall i | 0 <= i < |both|
      ensures Below(both[i], |t.advice + more|) && Holds(both[i], p, hash, Honest(t.advice + more), instance) {
      if i < |t.constraints| {
        HoldsLater(t.constraints[i], p, hash, t.advice, more, instance);
      } else {
        assert both[i] == ks[i - |t.constraints|];
      }
    }
  }

  lemma ConstantGood(t: Table, k: int, p: int, hash: Hash, instance: seq<int>)
    requires p > 0 && Good(t, p, hash, instance)
    ensures Good(LoadedConstant(t, k), p, hash, instance)
  {
    var n, more := |t.advice|, [k, 0, 0];
    var g := Gate(0, 1, 0, 0, -k, n, n + 1, n + 2);
    assert GateValue(g, Honest(t.advice + more)) == 0;
    GoodGrows(t, [g], more, p, hash, instance);
  }

  lemma ProductGood(t: Table, k: int, x: Cell, p: int, hash: Hash, instance: seq<int>)
    requires p > 0 && x < |t.advice| && Good(t, p, hash, instance)
    ensures Good(Product(p, t, k, x), p, hash, instance)
  {
    var n, v := |t.advice|, t.advice[x];
    var more := [v, 0, k * v % p];
    var g := Gate(0, k, 0, -1, 0, n, n + 1, n + 2);
    assert GateValue(g, Honest(t.advice + more)) == k * v - k * v % p;
    CongNorm(p, k * v);
    CongRefl(p, k * v);
    CongAdd(p, k * v, k * v, k * v % p, k * v);
    GoodGrows(t, [Copy(n, x), g], more, p, hash, instance);
  }

  lemma SumGood(t: Table, a: Cell, b: Cell, p: int, hash: Hash, instance: seq<int>)
    requires p > 0 && a < |t.advice| && b < |t.advice| && Good(t, p, hash, instance)
    ensures Good(Sum(p, t, a, b), p, hash, instance)
  {
    var n, v, w := |t.advice|, t.advice[a], t.advice[b];
    var more := [v, w, (v + w) % p];
    var g := Gate(0, 1, 1, -1, 0, n, n + 1, n + 2);
    assert GateValue(g, Honest(t.advice + more)) == v + w - (v + w) % p;
    CongNorm(p, v + w);
    CongRefl(p, v + w);
    CongAdd(p, v + w, v + w, (v + w) % p, v + w);
    GoodGrows(t, [Copy(n, a), Copy(n + 1, b), g], more, p, hash, instance);
  }

  lemma {:induction false} RowGood(t: Table, w: seq<int>, acc: Cell, j: nat, p: int, hash: Hash, instance: seq<int>)
    requires p > 0 && j <= |w| <= |t.advice| && acc < |t.advice| && Good(t, p, hash, instance)
    ensures Good(Row(p, t, w, acc, j).0, p, hash, instance)
    decreases |w| - j
  {
    hide Good, Product, Sum;
    if j < |w| {
      ProductShape(p, t, w[j], j);
      var m := Product(p, t, w[j], j);
      SumShape(p, m, acc, |t.advice| + 2);
      ProductGood(t, w[j], j, p, hash, instance);
      SumGood(m, acc, |t.advice| + 2, p, hash, instance);
      RowGood(Sum(p, m, acc, |t.advice| + 2), w, |m.advice| + 2, j + 1, p, hash, instance);
    }
  }

  /** The honest values of a row: earlier cells stay, the last running sum is the sum. */
  lemma {:induction false} RowValue(t: Table, w: seq<int>, acc: Cell, j: nat, p: int)
    requires p > 0 && j <= |w| <= |t.advice| && acc < |t.advice|
    ensures t.advice <= Row(p, t, w, acc, j).0.advice
    ensures var r := Row(p, t, w, acc, j);
            Cong(p, r.0.advice[r.1], t.advice[acc] + Dot(w, t.advice, |w|) - Dot(w, t.advice, j))
    ensures InField(p, t.advice[acc]) ==> var r := Row(p, t, w, acc, j); InField(p, r.0.advice[r.1])
    decreases |w| - j
  {
    hide Cong, Product, Sum;
    if j == |w| {
      CongRefl(p, t.advice[acc]);
    } else {
      ProductShape(p, t, w[j], j);
      var m := Product(p, t, w[j], j);
      var prod, next := |t.advice| + 2, |m.advice| + 2;
      SumShape(p, m, acc, prod);
      var s := Sum(p, m, acc, prod);
      StepValues(p, t, w[j], acc, j);
      RowValue(s, w, next, j + 1, p);
      DotSame(w, t.advice, s.advice, |w|);
      DotSame(w, t.advice, s.advice, j);
      var r := Row(p, t, w, acc, j);
      RowChains(p, r.0.advice[r.1], s.advice[next], t.advice[acc], m.advice[prod], w[j] * t.advice[j],
                Dot(w, t.advice, |w|), Dot(w, t.advice, j));
    }
  }

  /** The honest values of one product and one sum. */
  lemma StepValues(p: int, t: Table, k: int, acc: Cell, x: Cell)
    requires p > 0 && acc < |t.advice| && x < |t.advice|
    ensures var m := Product(p, t, k, x); var prod, next := |t.advice| + 2, |m.advice| + 2;
            var s := Sum(p, m, acc, prod);
            && t.advice <= s.advice && s.advice[x] == t.advice[x]
            && Cong(p, m.advice[prod], k * t.advice[x])
            && Cong(p, s.advice[next], t.advice[acc] + m.advice[prod]) && InField(p, s.advice[next])
  {
    var m := Product(p, t, k, x);
    CongNorm(p, k * t.advice[x]);
    CongNorm(p, t.advice[acc] + m.advice[|t.advice| + 2]);
  }

  lemma {:induction false} DotSame(u: seq<int>, x: seq<int>, y: seq<int>, n: nat)
    requires n <= |u| && n <= |x| && x <= y
    ensures Dot(u, x, n) == Dot(u, y, n)
  {
    if n > 0 {
      DotSame(u, x, y, n - 1);
    }
  }

  /** The cells of `y` hold `W*x + b` of the cells of `x`, in the coordinates from `i` on. */
  predicate Correct(advice: seq<int>, layer: Layer, p: int, i: nat)
    requires p > 0 && Fits(layer, p, |layer.b|) && 2 * |layer.b| <= |advice|
  {
    var n := |layer.b|;
    forall k :: i <= k < n ==> advice[n + k] == (layer.b[k] + Dot(layer.w[k], advice, n)) % p
  }

  lemma {:induction false} RowsGood(t: Table, layer: Layer, i: nat, p: int, hash: Hash, instance: seq<int>)
    requires p > 0 && Fits(layer, p, |layer.b|) && i <= |layer.b| && 2 * |layer.b| <= |t.advice|
    requires Good(t, p, hash, instance) && Correct(t.advice, layer, p, i)
    ensures Good(Rows(p, t, layer, i), p, hash, instance) && t.advice <= Rows(p, t, layer, i).advice
    decreases |layer.b| - i
  {
    hide Good, Row;
    var n := |layer.b|;
    if i < n {
      var k := LoadedConstant(t, layer.b[i]);
      var row := Row(p, k, layer.w[i], |t.advice|, 0);
      ConstantGood(t, layer.b[i], p, hash, instance);
      RowGood(k, layer.w[i], |t.advice|, 0, p, hash, instance);
      RowValue(k, layer.w[i], |t.advice|, 0, p);
      DotSame(layer.w[i], t.advice, row.0.advice, n);
      DotSame(layer.w[i], k.advice, row.0.advice, n);
      ReducedIs(p, row.0.advice[row.1], layer.b[i] + Dot(layer.w[i], t.advice, n));
      assert row.0.advice[row.1] == row.0.advice[n + i];
      EquatedGood(row.0, row.1, n + i, p, hash, instance);
      CorrectLater(t.advice, row.0.advice, layer, p, i);
      RowsGood(Equated(row.0, row.1, n + i), layer, i + 1, p, hash, instance);
    }
  }

  lemma CorrectLater(advice: seq<int>, later: seq<int>, layer: Layer, p: int, i: nat)
    requires p > 0 && Fits(layer, p, |layer.b|) && 2 * |layer.b| <= |advice| && advice <= later
    requires Correct(advice, layer, p, i)
    ensures Correct(later, layer, p, i + 1)
  {
    var n := |layer.b|;
    forall k | i + 1 <= k < n ensures later[n + k] == (layer.b[k] + Dot(layer.w[k], later, n)) % p {
      DotSame(layer.w[k], advice, later, n);
    }
  }

  lemma EquatedGood(t: Table, a: Cell, b: Cell, p: int, hash: Hash, instance: seq<int>)
    requires p > 0 && a < |t.advice| && b < |t.advice| && t.advice[a] == t.advice[b] && Good(t, p, hash, instance)
    ensures Good(Equated(t, a, b), p, hash, instance)
  {
    assert t.advice + [] == t.advice;
    GoodGrows(t, [Copy(a, b)], [], p, hash, instance);
  }

  lemma ExposedGood(t: Table, n: nat, identity: seq<int>, p: int, hash: Hash, instance: seq<int>)
    requires p > 0 && 2 * n <= |t.advice| && |identity| == 4 && Good(t, p, hash, instance)
    requires instance == [hash(t.advice[..n]), hash(t.advice[n..2 * n])] + identity
    ensures Good(Exposed(t, hash, n, identity), p, hash, instance)
  {
    ExposedShape(t, hash, n, identity);
    var hx := hash(Values(Honest(t.advice), Cells(0, n)));
    var hy := hash(Values(Honest(t.advice + [hx]), Cells(n, n)));
    var more, m := [hx, hy] + identity, |t.advice|;
    var later := Honest(t.advice + more);
    assert Values(Honest(t.advice), Cells(0, n)) == t.advice[..n] == Values(later, Cells(0, n));
    assert Values(Honest(t.advice + [hx]), Cells(n, n)) == t.advice[n..2 * n] == Values(later, Cells(n, n));
    assert t.advice + [hx, hy] + identity == t.advice + more;
    assert later(m) == hx && later(m + 1) == hy && later(m + 2) == identity[0] && later(m + 3) == identity[1]
        && later(m + 4) == identity[2] && later(m + 5) == identity[3];
    ExposedHolds(n, m, p, hash, later, instance);
    hide Holds, Values, Honest, ExposedConstraints, Exposed;
    GoodGrows(t, ExposedConstraints(n, m), more, p, hash, instance);
  }

  lemma ExposedHolds(n: nat, m: Cell, p: int, hash: Hash, a: Cell -> int, instance: seq<int>)
    requires p > 0 && 2 * n <= m && Exposes(hash, a, n, m, instance) && a(m) == instance[0] && a(m + 1) == instance[1]
    ensures forall i :: 0 <= i < |ExposedConstraints(n, m)| ==>
                          && Below(ExposedConstraints(n, m)[i], m + 6)
                          && Holds(ExposedConstraints(n, m)[i], p, hash, a, instance)
  {
    hide Values;
    var ks := ExposedConstraints(n, m);
    forall i | 0 <= i < |ks| ensures Below(ks[i], m + 6) && Holds(ks[i], p, hash, a, instance) {
    }
  }

  /** Every honest witness meets every constraint. */
  lemma CircuitComplete(p: int, hash: Hash, c: Circuit, instance: seq<int>)
    requires p > 0 && Shaped(c, p) && c.y == Affine(p, c.layer, c.x)
    requires instance == [hash(c.x), hash(c.y)] + c.identity
    ensures var t := Synthesized(p, hash, c);
            Satisfies(t.constraints, p, hash, Honest(t.advice), instance)
  {
    var n, t0 := |c.x|, Table([], c.x + c.y);
    hide Rows, Exposed, Correct, Affine, Good;
    HonestIsCorrect(p, c);
    EmptyGood(c.x + c.y, p, hash, instance);
    RowsGood(t0, c.layer, 0, p, hash, instance);
    var t := Rows(p, t0, c.layer, 0);
    assert t.advice[..n] == c.x && t.advice[n..2 * n] == c.y;
    ExposedGood(t, n, c.identity, p, hash, instance);
    GoodSatisfies(Synthesized(p, hash, c), p, hash, instance);
  }

  lemma EmptyGood(advice: seq<int>, p: int, hash: Hash, instance: seq<int>)
    requires p > 0
    ensures Good(Table([], advice), p, hash, instance)
  {
  }

  lemma GoodSatisfies(t: Table, p: int, hash: Hash, instance: seq<int>)
    requires p > 0 && Good(t, p, hash, instance)
    ensures Satisfies(t.constraints, p, hash, Honest(t.advice), instance)
  {
  }

  lemma HonestIsCorrect(p: int, c: Circuit)
    requires p > 0 && Shaped(c, p) && c.y == Affine(p, c.layer, c.x)
    ensures Correct(c.x + c.y, c.layer, p, 0)
  {
    var n := |c.x|;
    forall k | 0 <= k < n ensures (c.x + c.y)[n + k] == (c.layer.b[k] + Dot(c.layer.w[k], c.x + c.y, n)) % p {
      DotSame(c.layer.w[k], c.x, c.x + c.y, n);
      assert c.y[k] == Coordinate(p, c.layer, c.x, k);
    }
  }
}
