/** The layer circuit: what `synthesize` lays out as gates, copies, hash gadgets and public rows, over a prime field
    and in any dimension (8 in the source). The Poseidon gadget is one constraint, its hash a parameter. */
module LayerCircuit {
  import opened Field
  import opened Model

  const NUM_INSTANCES: nat := 6

  type Cell = nat
  type Hash = seq<int> -> int

  /** `Gate`: `qm*a*b + ql*a + qr*b + qo*c + qc` is zero. `Copy`: two cells are equal. `Hashed`: the output cell is
      the hash of the inputs. `Public`: the cell equals a row of the instance. */
  datatype Constraint =
    | Gate(qm: int, ql: int, qr: int, qo: int, qc: int, a: Cell, b: Cell, c: Cell)
    | Copy(from: Cell, to: Cell)
    | Hashed(inputs: seq<Cell>, output: Cell)
    | Public(cell: Cell, row: nat)

  /** The constraints laid out so far and the advice value of every cell. */
  datatype Table = Table(constraints: seq<Constraint>, advice: seq<int>)

  /** The layer with its witness; `identity` is the layer index, the session and the two halves of the commitment. */
  datatype Circuit = Circuit(layer: Layer, x: seq<int>, y: seq<int>, identity: seq<int>)

  predicate Shaped(c: Circuit, p: int) {
    Fits(c.layer, p, |c.x|) && |c.y| == |c.x| && |c.identity| == 4
  }

  // ---------------------------------------------------------------- when an assignment satisfies the constraints

  function Values(a: Cell -> int, cells: seq<Cell>): (r: seq<int>)
    ensures |r| == |cells|
  {
    seq(|cells|, i requires 0 <= i < |cells| => a(cells[i]))
  }

  function GateValue(g: Constraint, a: Cell -> int): int
    requires g.Gate?
  {
    g.qm * a(g.a) * a(g.b) + g.ql * a(g.a) + g.qr * a(g.b) + g.qo * a(g.c) + g.qc
  }

  predicate Holds(k: Constraint, p: int, hash: Hash, a: Cell -> int, instance: seq<int>)
    requires p > 0
  {
    match k
    case Gate(_, _, _, _, _, _, _, _) => Cong(p, GateValue(k, a), 0)
    case Copy(from, to) => a(from) == a(to)
    case Hashed(inputs, output) => a(output) == hash(Values(a, inputs))
    case Public(cell, row) => row < |instance| && instance[row] == a(cell)
  }

  predicate Satisfies(ks: seq<Constraint>, p: int, hash: Hash, a: Cell -> int, instance: seq<int>)
    requires p > 0
  {
    forall i :: 0 <= i < |ks| ==> Holds(ks[i], p, hash, a, instance)
  }

  lemma SatisfiesBoth(ks: seq<Constraint>, ls: seq<Constraint>, p: int, hash: Hash, a: Cell -> int, instance: seq<int>)
    requires p > 0
    ensures Satisfies(ks + ls, p, hash, a, instance)
            <==> Satisfies(ks, p, hash, a, instance) && Satisfies(ls, p, hash, a, instance)
  {
    var both := ks + ls;
    if Satisfies(both, p, hash, a, instance) {
      forall i | 0 <= i < |ks| ensures Holds(ks[i], p, hash, a, instance) {
        assert both[i] == ks[i];
      }
      forall i | 0 <= i < |ls| ensures Holds(ls[i], p, hash, a, instance) {
        assert both[|ks| + i] == ls[i];
      }
    }
  }

  // ---------------------------------------------------------------- laying out

  function LoadedConstant(t: Table, k: int): Table {
    var n := |t.advice|;
    Table(t.constraints + [Gate(0, 1, 0, 0, -k, n, n + 1, n + 2)], t.advice + [k, 0, 0])
  }

  function Product(p: int, t: Table, k: int, x: Cell): Table
    requires p > 0 && x < |t.advice|
  {
    var n, v := |t.advice|, t.advice[x];
    Table(t.constraints + [Copy(n, x), Gate(0, k, 0, -1, 0, n, n + 1, n + 2)], t.advice + [v, 0, k * v % p])
  }

  function Sum(p: int, t: Table, a: Cell, b: Cell): Table
    requires p > 0 && a < |t.advice| && b < |t.advice|
  {
    var n, v, w := |t.advice|, t.advice[a], t.advice[b];
    Table(t.constraints + [Copy(n, a), Copy(n + 1, b), Gate(0, 1, 1, -1, 0, n, n + 1, n + 2)], t.advice + [v, w, (v + w) % p])
  }

  function Equated(t: Table, a: Cell, b: Cell): Table {
    t.(constraints := t.constraints + [Copy(a, b)])
  }

  function Committed(t: Table, hash: Hash, cells: seq<Cell>, row: nat): Table
    requires forall i :: 0 <= i < |cells| ==> cells[i] < |t.advice|
  {
    var n := |t.advice|;
    Table(t.constraints + [Hashed(cells, n), Public(n, row)], t.advice + [hash(Values(Honest(t.advice), cells))])
  }

  function Published(t: Table, v: int, row: nat): Table {
    Table(t.constraints + [Public(|t.advice|, row)], t.advice + [v])
  }

  /** The prover's own assignment. */
  function Honest(advice: seq<int>): Cell -> int {
    (c: Cell) => if c < |advice| then advice[c] else 0
  }

  /** One row of `W`: products and running sums from column `j` on. The cells of `x` are `0 .. n-1`. */
  function Row(p: int, t: Table, w: seq<int>, acc: Cell, j: nat): (r: (Table, Cell))
    requires p > 0 && j <= |w| <= |t.advice| && acc < |t.advice|
    ensures |t.advice| <= |r.0.advice| && r.1 < |r.0.advice|
    decreases |w| - j
  {
    if j == |w| then (t, acc)
    else
      var m := Product(p, t, w[j], j);
      var s := Sum(p, m, acc, |t.advice| + 2);
      Row(p, s, w, |m.advice| + 2, j + 1)
  }

  /** The rows from `i` on, each equated with its cell of `y`. The cells of `y` are `n .. 2n-1`. */
  function Rows(p: int, t: Table, layer: Layer, i: nat): (r: Table)
    requires p > 0 && Fits(layer, p, |layer.b|) && i <= |layer.b| && 2 * |layer.b| <= |t.advice|
    ensures |t.advice| <= |r.advice|
    decreases |layer.b| - i
  {
    if i == |layer.b| then t
    else
      var row := Row(p, LoadedConstant(t, layer.b[i]), layer.w[i], |t.advice|, 0);
      Rows(p, Equated(row.0, row.1, |layer.b| + i), layer, i + 1)
  }

  function Cells(from: nat, n: nat): (r: seq<Cell>)
    ensures |r| == n
  {
    seq(n, i => from + i)
  }

  /** The commitments and the identity rows. */
  function Exposed(t: Table, hash: Hash, n: nat, identity: seq<int>): Table
    requires 2 * n <= |t.advice| && |identity| == 4
  {
    var hx := Committed(t, hash, Cells(0, n), 0);
    var hy := Committed(hx, hash, Cells(n, n), 1);
    Published(Published(Published(Published(hy, identity[0], 2), identity[1], 3), identity[2], 4), identity[3], 5)
  }

  function Synthesized(p: int, hash: Hash, c: Circuit): Table
    requires p > 0 && Shaped(c, p)
  {
    Exposed(Rows(p, Table([], c.x + c.y), c.layer, 0), hash, |c.x|, c.identity)
  }

  // ---------------------------------------------------------------- the layouter

  class Layouter {
    var constraints: seq<Constraint>
    var advice: seq<int>

    function Value(): Table
      reads this
    {
      Table(constraints, advice)
    }

    constructor ()
      ensures Value() == Table([], [])
    {
      constraints, advice := [], [];
    }

    /** Give the next cell a value. */
    method AssignAdvice(v: int) returns (cell: Cell)
      modifies this
      ensures cell == old(|advice|) && Value() == old(Value()).(advice := old(advice) + [v])
    {
      cell := |advice|;
      advice := advice + [v];
    }

    method CopyAdvice(from: Cell) returns (cell: Cell)
      requires from < |advice|
      modifies this
      ensures cell == old(|advice|)
      ensures Value() == Table(old(constraints) + [Copy(cell, from)], old(advice) + [old(advice)[from]])
    {
      var v := advice[from];
      cell := AssignAdvice(v);
      constraints := constraints + [Copy(cell, from)];
    }

    method LoadConstant(k: int) returns (cell: Cell)
      modifies this
      ensures cell == old(|advice|) && Value() == LoadedConstant(old(Value()), k)
    {
      cell := AssignAdvice(k);
      var b := AssignAdvice(0);
      var c := AssignAdvice(0);
      constraints := constraints + [Gate(0, 1, 0, 0, -k, cell, b, c)];
      assert advice == old(advice) + [k, 0, 0];
    }

    method MulConstByWitness(p: int, k: int, x: Cell) returns (c: Cell)
      requires p > 0 && x < |advice|
      modifies this
      ensures c == old(|advice|) + 2 && Value() == Product(p, old(Value()), k, x)
    {
      var v := advice[x];
      var a := CopyAdvice(x);
      var b := AssignAdvice(0);
      c := AssignAdvice(k * v % p);
      constraints := constraints + [Gate(0, k, 0, -1, 0, a, b, c)];
      assert advice == old(advice) + [v, 0, k * v % p];
      assert constraints == old(constraints) + [Copy(a, x), Gate(0, k, 0, -1, 0, a, b, c)];
    }

    method Add(p: int, a: Cell, b: Cell) returns (c: Cell)
      requires p > 0 && a < |advice| && b < |advice|
      modifies this
      ensures c == old(|advice|) + 2 && Value() == Sum(p, old(Value()), a, b)
    {
      var v, w := advice[a], advice[b];
      var a' := CopyAdvice(a);
      var b' := CopyAdvice(b);
      c := AssignAdvice((v + w) % p);
      constraints := constraints + [Gate(0, 1, 1, -1, 0, a', b', c)];
      assert advice == old(advice) + [v, w, (v + w) % p];
      assert constraints == old(constraints) + [Copy(a', a), Copy(b', b), Gate(0, 1, 1, -1, 0, a', b', c)];
    }

    /** Load a per-proof value and tie it to a row of the instance. */
    method LoadPubWitness(v: int, row: nat)
      modifies this
      ensures Value() == Published(old(Value()), v, row)
    {
      var cell := AssignAdvice(v);
      constraints := constraints + [Public(cell, row)];
    }

    method HashCells(hash: Hash, cells: seq<Cell>, row: nat)
      requires forall i :: 0 <= i < |cells| ==> cells[i] < |advice|
      modifies this
      ensures Value() == Committed(old(Value()), hash, cells, row)
    {
      var cell := AssignAdvice(hash(Values(Honest(advice), cells)));
      constraints := constraints + [Hashed(cells, cell), Public(cell, row)];
    }

    /** One row of `W`: a constant, then products and running sums. */
    method LayRow(p: int, w: seq<int>, b: int) returns (acc: Cell)
      requires p > 0 && |w| <= |advice|
      modifies this
      ensures (Value(), acc) == Row(p, LoadedConstant(old(Value()), b), w, old(|advice|), 0)
      ensures old(|advice|) <= |advice| && acc < |advice|
    {
      hide Product, Sum;
      acc := LoadConstant(b);
      ghost var whole := Row(p, Value(), w, acc, 0);
      var j := 0;
      while j < |w|
        invariant j <= |w| <= old(|advice|) < |advice| && acc < |advice|
        invariant Row(p, Value(), w, acc, j) == whole
      {
        ProductShape(p, Value(), w[j], j);
        var prod := MulConstByWitness(p, w[j], j);
        SumShape(p, Value(), acc, prod);
        acc := Add(p, acc, prod);
        j := j + 1;
      }
    }

    method LayRows(p: int, layer: Layer)
      requires p > 0 && Fits(layer, p, |layer.b|) && 2 * |layer.b| <= |advice|
      modifies this
      ensures Value() == Rows(p, old(Value()), layer, 0) && old(|advice|) <= |advice|
    {
      hide Row, LoadedConstant;
      ghost var whole := Rows(p, Value(), layer, 0);
      var n, i := |layer.b|, 0;
      while i < n
        invariant i <= n && 2 * n <= old(|advice|) <= |advice|
        invariant Rows(p, Value(), layer, i) == whole
      {
        var acc := LayRow(p, layer.w[i], layer.b[i]);
        constraints := constraints + [Copy(acc, n + i)];
        i := i + 1;
      }
    }

    method LoadVector(v: seq<int>)
      modifies this
      ensures Value() == old(Value()).(advice := old(advice) + v)
    {
      var i := 0;
      while i < |v|
        invariant i <= |v| && Value() == old(Value()).(advice := old(advice) + v[..i])
      {
        var cell := AssignAdvice(v[i]);
        assert old(advice) + v[..i] + [v[i]] == old(advice) + v[..i + 1];
        i := i + 1;
      }
      assert v[..|v|] == v;
    }

    method Synthesize(p: int, hash: Hash, c: Circuit)
      requires p > 0 && Shaped(c, p) && Value() == Table([], [])
      modifies this
      ensures Value() == Synthesized(p, hash, c)
    {
      hide Rows, Committed, Values;
      LoadVector(c.x);
      LoadVector(c.y);
      assert advice == c.x + c.y;
      LayRows(p, c.layer);
      var n := |c.x|;
      CommittedShape(Value(), hash, Cells(0, n), 0);
      HashCells(hash, Cells(0, n), 0);
      CommittedShape(Value(), hash, Cells(n, n), 1);
      HashCells(hash, Cells(n, n), 1);
      LoadPubWitness(c.identity[0], 2);
      LoadPubWitness(c.identity[1], 3);
      LoadPubWitness(c.identity[2], 4);
      LoadPubWitness(c.identity[3], 5);
    }
  }

  lemma CommittedShape(t: Table, hash: Hash, cells: seq<Cell>, row: nat)
    requires forall i :: 0 <= i < |cells| ==> cells[i] < |t.advice|
    ensures |Committed(t, hash, cells, row).advice| == |t.advice| + 1
  {
  }

  lemma ProductShape(p: int, t: Table, k: int, x: Cell)
    requires p > 0 && x < |t.advice|
    ensures |Product(p, t, k, x).advice| == |t.advice| + 3
  {
  }

  lemma SumShape(p: int, t: Table, a: Cell, b: Cell)
    requires p > 0 && a < |t.advice| && b < |t.advice|
    ensures |Sum(p, t, a, b).advice| == |t.advice| + 3
  {
  }
}
