/** The reference model: affine layers over a prime field, run one after another. */
module Model {
  import opened Field

  datatype Layer = Layer(w: seq<seq<int>>, b: seq<int>)

  /** A square layer of dimension `n` over the field. */
  predicate Fits(layer: Layer, p: int, n: nat) {
    && |layer.w| == |layer.b| == n && AllIn(p, layer.b)
    && forall i :: 0 <= i < n ==> |layer.w[i]| == n
  }

  predicate AllFit(layers: seq<Layer>, p: int, n: nat) {
    forall k :: 0 <= k < |layers| ==> Fits(layers[k], p, n)
  }

  /** Coordinate `i` of `W*x + b`. */
  function Coordinate(p: int, layer: Layer, x: seq<int>, i: nat): int
    requires p > 0 && Fits(layer, p, |x|) && i < |x|
  {
    (layer.b[i] + Dot(layer.w[i], x, |x|)) % p
  }

  /** `W*x + b` */
  function Affine(p: int, layer: Layer, x: seq<int>): (y: seq<int>)
    requires p > 0 && Fits(layer, p, |x|)
    ensures |y| == |x| && AllIn(p, y)
  {
    seq(|x|, i requires 0 <= i < |x| => Coordinate(p, layer, x, i))
  }

  /** The input and the output of every layer. */
  function Activations(p: int, layers: seq<Layer>, x: seq<int>): (a: seq<seq<int>>)
    requires p > 0 && AllFit(layers, p, |x|)
    ensures |a| == |layers| + 1
  {
    if layers == [] then [x] else [x] + Activations(p, layers[1..], Affine(p, layers[0], x))
  }

  lemma AddReduced(p: int, s: int, t: int)
    requires p > 0
    ensures (s % p + t % p) % p == (s + t) % p
  {
    CongNorm(p, s);
    CongNorm(p, t);
    CongAdd(p, s % p, s, t % p, t);
  }

  /** One row: an accumulator reduced at every step. */
  method RowSum(p: int, start: int, row: seq<int>, x: seq<int>) returns (acc: int)
    requires InField(p, start) && |row| == |x|
    ensures acc == (start + Dot(row, x, |x|)) % p
  {
    acc := start;
    CongNorm(p, start);
    CongUnique(p, start, start % p);
    var j := 0;
    while j < |x|
      invariant j <= |x| && acc == (start + Dot(row, x, j)) % p
    {
      AddReduced(p, start + Dot(row, x, j), row[j] * x[j]);
      acc := (acc + row[j] * x[j] % p) % p;
      j := j + 1;
    }
  }

  /** One layer, with the bias or without it. */
  method Apply(p: int, layer: Layer, bias: bool, x: seq<int>) returns (next: seq<int>)
    requires p > 0 && Fits(layer, p, |x|)
    ensures var l := if bias then layer else Unbiased(layer); Fits(l, p, |x|) && next == Affine(p, l, x)
  {
    ghost var l := if bias then layer else Unbiased(layer);
    next := [];
    var i := 0;
    while i < |x|
      invariant i <= |x| && Fits(l, p, |x|)
      invariant next == Affine(p, l, x)[..i]
    {
      var acc := RowSum(p, if bias then layer.b[i] else 0, layer.w[i], x);
      assert acc == Affine(p, l, x)[i];
      next := next + [acc];
      i := i + 1;
    }
  }

  /** The layer as seen by whoever does not own the bias. */
  function Unbiased(layer: Layer): Layer {
    layer.(b := seq(|layer.b|, _ => 0))
  }

  lemma {:induction false} ActivationsAt(p: int, layers: seq<Layer>, x: seq<int>, k: nat)
    requires p > 0 && AllFit(layers, p, |x|) && k <= |layers|
    ensures |Activations(p, layers, x)[k]| == |x|
    ensures k == 0 ==> Activations(p, layers, x)[k] == x
    ensures k < |layers| ==> Activations(p, layers, x)[k + 1] == Affine(p, layers[k], Activations(p, layers, x)[k])
  {
    if k == 0 {
      assert k < |layers| ==> Activations(p, layers[1..], Affine(p, layers[0], x))[0] == Affine(p, layers[0], x);
    } else {
      ActivationsAt(p, layers[1..], Affine(p, layers[0], x), k - 1);
    }
  }

  method Run(p: int, layers: seq<Layer>, input: seq<int>) returns (activations: seq<seq<int>>)
    requires p > 0 && AllFit(layers, p, |input|)
    ensures activations == Activations(p, layers, input)
  {
    activations := [input];
    var cur := input;
    var k := 0;
    while k < |layers|
      invariant k <= |layers| && |activations| == k + 1 && |cur| == |input|
      invariant activations == Activations(p, layers, input)[..k + 1] && cur == activations[k]
    {
      ActivationsAt(p, layers, input, k);
      var next := Apply(p, layers[k], true, cur);
      activations := activations + [next];
      cur := next;
      k := k + 1;
    }
  }
}
