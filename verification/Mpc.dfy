/** Two parties run the model on additive shares of the input. */
module Mpc {
  import opened Field
  import opened Model

  datatype PartyId = Zero | One

  predicate OwnsBias(id: PartyId) {
    id == Zero
  }

  /** The model as party `id` computes it. */
  function PartyLayers(id: PartyId, layers: seq<Layer>): (r: seq<Layer>)
    ensures |r| == |layers|
  {
    seq(|layers|, k requires 0 <= k < |layers| => if OwnsBias(id) then layers[k] else Unbiased(layers[k]))
  }

  lemma PartyLayersFit(id: PartyId, layers: seq<Layer>, p: int, n: nat)
    requires p > 0 && AllFit(layers, p, n)
    ensures AllFit(PartyLayers(id, layers), p, n)
  {
    forall k | 0 <= k < |layers| ensures Fits(PartyLayers(id, layers)[k], p, n) {
      assert Fits(layers[k], p, n);
    }
  }

  ghost function ShareActivations(p: int, id: PartyId, layers: seq<Layer>, share: seq<int>): (a: seq<seq<int>>)
    requires p > 0 && AllFit(layers, p, |share|)
    ensures |a| == |layers| + 1
  {
    PartyLayersFit(id, layers, p, |share|);
    Activations(p, PartyLayers(id, layers), share)
  }

  method RunShare(p: int, id: PartyId, layers: seq<Layer>, share: seq<int>) returns (activations: seq<seq<int>>)
    requires p > 0 && AllFit(layers, p, |share|)
    ensures activations == ShareActivations(p, id, layers, share)
  {
    PartyLayersFit(id, layers, p, |share|);
    ghost var mine := PartyLayers(id, layers);
    activations := [share];
    var cur := share;
    var k := 0;
    while k < |layers|
      invariant k <= |layers| && |activations| == k + 1 && |cur| == |share|
      invariant activations == Activations(p, mine, share)[..k + 1] && cur == activations[k]
    {
      ActivationsAt(p, mine, share, k);
      assert Fits(layers[k], p, |share|);
      var next := Apply(p, layers[k], OwnsBias(id), cur);
      activations := activations + [next];
      cur := next;
      k := k + 1;
    }
  }

  /** The two shares add up to the vector. */
  predicate IsSharing(p: int, s0: seq<int>, s1: seq<int>, v: seq<int>)
    requires p > 0
  {
    |s0| == |s1| == |v| && forall i :: 0 <= i < |v| ==> (s0[i] + s1[i]) % p == v[i]
  }

  /** Split a vector with the given random draws. */
  method ShareVector(p: int, v: seq<int>, draws: seq<int>) returns (s0: seq<int>, s1: seq<int>)
    requires p > 0 && |draws| == |v| && AllIn(p, v) && AllIn(p, draws)
    ensures AllIn(p, s0) && AllIn(p, s1) && IsSharing(p, s0, s1, v)
    ensures s0 == draws && s1 == SecondShare(p, v, draws)
  {
    s0, s1 := [], [];
    var i := 0;
    while i < |v|
      invariant i <= |v| && |s0| == |s1| == i && AllIn(p, s1) && s0 == draws[..i]
      invariant s1 == SecondShare(p, v, draws)[..i]
      invariant forall k :: 0 <= k < i ==> (s0[k] + s1[k]) % p == v[k]
    {
      SplitAdds(p, v[i], draws[i]);
      s0, s1 := s0 + [draws[i]], s1 + [(v[i] - draws[i]) % p];
      i := i + 1;
    }
  }

  function SecondShare(p: int, v: seq<int>, draws: seq<int>): (s: seq<int>)
    requires p > 0 && |v| == |draws|
    ensures |s| == |v|
  {
    seq(|v|, i requires 0 <= i < |v| => (v[i] - draws[i]) % p)
  }

  /** One share alone tells nothing. The first is the draws. And whatever vector was shared with whatever draws, every
      other vector has exactly one choice of draws with the same second share. */
  lemma OneShareTellsNothing(p: int, v: seq<int>, draws: seq<int>, w: seq<int>)
    requires p > 0 && |draws| == |v| == |w|
    ensures exists d :: && |d| == |w| && AllIn(p, d) && SecondShare(p, w, d) == SecondShare(p, v, draws)
                        && forall e :: |e| == |w| && AllIn(p, e) && SecondShare(p, w, e) == SecondShare(p, v, draws) ==> e == d
  {
    var d := seq(|v|, i requires 0 <= i < |v| => (w[i] - v[i] + draws[i]) % p);
    forall i | 0 <= i < |v| ensures InField(p, d[i]) && (w[i] - d[i]) % p == (v[i] - draws[i]) % p {
      DrawFor(p, v[i], draws[i], w[i]);
    }
    assert SecondShare(p, w, d) == SecondShare(p, v, draws);
    hide SecondShare, AllIn;
    forall e | |e| == |w| && AllIn(p, e) && SecondShare(p, w, e) == SecondShare(p, v, draws) ensures e == d {
      SameDraws(p, w, e, d);
    }
  }

  lemma SameDraws(p: int, w: seq<int>, e: seq<int>, d: seq<int>)
    requires p > 0 && |w| == |e| == |d| && AllIn(p, e) && AllIn(p, d) && SecondShare(p, w, e) == SecondShare(p, w, d)
    ensures e == d
  {
    forall i | 0 <= i < |w| ensures e[i] == d[i] {
      assert SecondShare(p, w, e)[i] == SecondShare(p, w, d)[i];
      SameDraw(p, w[i], e[i], d[i]);
    }
  }

  lemma DrawFor(p: int, v: int, r: int, w: int)
    requires p > 0
    ensures InField(p, (w - v + r) % p) && (w - (w - v + r) % p) % p == (v - r) % p
  {
    CongNorm(p, w - v + r);
    CongRefl(p, w);
    CongAdd(p, w, w, (w - v + r) % p, w - v + r);
  }

  lemma SameDraw(p: int, w: int, e: int, d: int)
    requires p > 0 && InField(p, e) && InField(p, d) && (w - e) % p == (w - d) % p
    ensures e == d
  {
    CongRefl(p, w);
    CongAdd(p, w, w, w - e, w - d);
    CongUnique(p, e, d);
  }

  lemma SplitAdds(p: int, v: int, r: int)
    requires p > 0 && InField(p, v)
    ensures InField(p, (v - r) % p) && (r + (v - r) % p) % p == v
  {
    CongNorm(p, v - r);
    CongRefl(p, r);
    CongAdd(p, r, r, (v - r) % p, v - r);
    CongNorm(p, r + (v - r) % p);
    CongUnique(p, (r + (v - r) % p) % p, v);
  }

  method ReconstructVector(p: int, s0: seq<int>, s1: seq<int>) returns (v: seq<int>)
    requires p > 0 && |s0| == |s1|
    ensures AllIn(p, v) && forall w :: IsSharing(p, s0, s1, w) <==> w == v
  {
    v := [];
    var i := 0;
    while i < |s0|
      invariant i <= |s0| && |v| == i && AllIn(p, v)
      invariant forall k :: 0 <= k < i ==> v[k] == (s0[k] + s1[k]) % p
    {
      v := v + [(s0[i] + s1[i]) % p];
      i := i + 1;
    }
  }

  /** One layer on shares: the party with the bias and the one without keep a sharing. */
  lemma LayerKeepsSharing(p: int, layer: Layer, s0: seq<int>, s1: seq<int>, x: seq<int>)
    requires p > 0 && Fits(layer, p, |x|) && IsSharing(p, s0, s1, x)
    ensures Fits(Unbiased(layer), p, |x|)
    ensures IsSharing(p, Affine(p, layer, s0), Affine(p, Unbiased(layer), s1), Affine(p, layer, x))
  {
    forall i | 0 <= i < |x|
      ensures (Coordinate(p, layer, s0, i) + Coordinate(p, Unbiased(layer), s1, i)) % p == Coordinate(p, layer, x, i)
    {
      CoordinateShares(p, layer, s0, s1, x, i);
    }
  }

  lemma CoordinateShares(p: int, layer: Layer, s0: seq<int>, s1: seq<int>, x: seq<int>, i: nat)
    requires p > 0 && Fits(layer, p, |x|) && IsSharing(p, s0, s1, x) && i < |x| && Fits(Unbiased(layer), p, |x|)
    ensures (Coordinate(p, layer, s0, i) + Coordinate(p, Unbiased(layer), s1, i)) % p == Coordinate(p, layer, x, i)
  {
    var row, n := layer.w[i], |x|;
    var sum := Combine(1, s0, 1, s1);
    DotCombine(row, 1, s0, 1, s1, n);
    forall k | 0 <= k < n ensures Cong(p, sum[k], x[k]) {
      CongNorm(p, sum[k]);
    }
    DotCong(p, row, sum, x, n);
    CongRefl(p, layer.b[i]);
    CongAdd(p, layer.b[i], layer.b[i], Dot(row, sum, n), Dot(row, x, n));
    AddReduced(p, layer.b[i] + Dot(row, s0, n), Dot(row, s1, n));
  }

  /** For any number of layers and any sharing of the input, the two parties' activations are a sharing of the
      plaintext activation at every layer. */
  lemma {:induction false} SharesSumToPlaintext(p: int, layers: seq<Layer>, s0: seq<int>, s1: seq<int>, x: seq<int>, k: nat)
    requires p > 0 && AllFit(layers, p, |x|) && IsSharing(p, s0, s1, x) && k <= |layers|
    ensures IsSharing(p, ShareActivations(p, Zero, layers, s0)[k], ShareActivations(p, One, layers, s1)[k],
                      Activations(p, layers, x)[k])
    decreases k
  {
    PartyLayersFit(Zero, layers, p, |x|);
    PartyLayersFit(One, layers, p, |x|);
    if k == 0 {
      ActivationsAt(p, layers, x, 0);
      ActivationsAt(p, PartyLayers(Zero, layers), s0, 0);
      ActivationsAt(p, PartyLayers(One, layers), s1, 0);
    } else {
      SharesSumToPlaintext(p, layers, s0, s1, x, k - 1);
      ActivationsAt(p, layers, x, k - 1);
      ActivationsAt(p, PartyLayers(Zero, layers), s0, k - 1);
      ActivationsAt(p, PartyLayers(One, layers), s1, k - 1);
      hide IsSharing, Affine, Activations;
      LayerKeepsSharing(p, layers[k - 1], ShareActivations(p, Zero, layers, s0)[k - 1],
                        ShareActivations(p, One, layers, s1)[k - 1], Activations(p, layers, x)[k - 1]);
    }
  }

  lemma {:induction false} DotZeros(u: seq<int>, zeros: seq<int>, n: nat)
    requires n <= |u| && n <= |zeros| && forall i :: 0 <= i < n ==> zeros[i] == 0
    ensures Dot(u, zeros, n) == 0
  {
    if n > 0 {
      DotZeros(u, zeros, n - 1);
    }
  }

  predicate AllZero(v: seq<int>) {
    forall i :: 0 <= i < |v| ==> v[i] == 0
  }

  lemma UnbiasedKeepsZero(p: int, layer: Layer, zeros: seq<int>)
    requires p > 0 && Fits(layer, p, |zeros|) && AllZero(zeros)
    ensures Fits(Unbiased(layer), p, |zeros|) && AllZero(Affine(p, Unbiased(layer), zeros))
  {
    forall i | 0 <= i < |zeros| ensures Coordinate(p, Unbiased(layer), zeros, i) == 0 {
      DotZeros(layer.w[i], zeros, |zeros|);
    }
  }

  /** The biases are party zero's alone: it computes what the model would on its share, while the other party takes a share
      of zeros to zeros at every layer. */
  lemma {:induction false} BiasIsPartyZeros(p: int, layers: seq<Layer>, share: seq<int>, zeros: seq<int>, k: nat)
    requires p > 0 && AllFit(layers, p, |share|) && |zeros| == |share| && AllZero(zeros) && k <= |layers|
    ensures ShareActivations(p, Zero, layers, share) == Activations(p, layers, share)
    ensures AllZero(ShareActivations(p, One, layers, zeros)[k]) && |ShareActivations(p, One, layers, zeros)[k]| == |zeros|
    decreases k
  {
    assert PartyLayers(Zero, layers) == layers;
    PartyLayersFit(One, layers, p, |zeros|);
    var mine := PartyLayers(One, layers);
    ActivationsAt(p, mine, zeros, k);
    if k > 0 {
      BiasIsPartyZeros(p, layers, share, zeros, k - 1);
      ActivationsAt(p, mine, zeros, k - 1);
      hide Activations, Affine;
      assert Fits(layers[k - 1], p, |zeros|);
      UnbiasedKeepsZero(p, layers[k - 1], Activations(p, mine, zeros)[k - 1]);
    }
  }
}
