/** A proof per layer, linked by the commitments: together they speak of one run of the model. */
module LayerChain {
  import opened Field
  import opened Model
  import opened LayerCircuit
  import opened LayerBinding

  /** Different vectors of the field have different commitments. */
  ghost predicate Binding(p: int, hash: Hash, n: nat) {
    forall x: seq<int>, y: seq<int> :: |x| == |y| == n && AllIn(p, x) && AllIn(p, y) && hash(x) == hash(y) ==> x == y
  }

  /** An instance per layer, each output commitment the next layer's input commitment. */
  predicate Linked(p: int, layers: seq<Layer>, instances: seq<seq<int>>) {
    && |instances| == |layers|
    && (forall k :: 0 <= k < |instances| ==> |instances[k]| == NUM_INSTANCES && AllIn(p, instances[k]))
    && (forall k :: 0 <= k < |instances| - 1 ==> instances[k][1] == instances[k + 1][0])
  }

  ghost predicate AllProvable(p: int, hash: Hash, layers: seq<Layer>, n: nat, instances: seq<seq<int>>)
    requires p > 0 && AllFit(layers, p, n) && |instances| == |layers|
  {
    forall k :: 0 <= k < |layers| ==> Provable(p, hash, layers[k], instances[k])
  }

  /** The commitments are those of the activations of `x`. */
  ghost predicate Traces(p: int, hash: Hash, layers: seq<Layer>, x: seq<int>, instances: seq<seq<int>>)
    requires p > 0 && AllFit(layers, p, |x|) && Linked(p, layers, instances)
  {
    var a := Activations(p, layers, x);
    forall k :: 0 <= k < |layers| ==> instances[k][0] == hash(a[k]) && instances[k][1] == hash(a[k + 1])
  }

  /** For any number of layers, with a binding hash: linked instances are all provable exactly when one input of the
      model has them as the commitments of its activations, layer by layer. */
  lemma LinkedProofsIff(p: int, hash: Hash, layers: seq<Layer>, n: nat, instances: seq<seq<int>>)
    requires p > 0 && AllFit(layers, p, n) && Linked(p, layers, instances) && Binding(p, hash, n)
    ensures AllProvable(p, hash, layers, n, instances)
            <==> exists x :: |x| == n && AllIn(p, x) && Traces(p, hash, layers, x, instances)
  {
    hide Provable, Activations, Binding;
    if AllProvable(p, hash, layers, n, instances) {
      var x := InputOf(p, hash, layers, n, instances);
      forall k | 0 <= k < |layers|
        ensures instances[k][0] == hash(Activations(p, layers, x)[k]) && instances[k][1] == hash(Activations(p, layers, x)[k + 1])
      {
        ActivationCommitted(p, hash, layers, x, instances, k);
      }
      assert Traces(p, hash, layers, x, instances);
    }
    if x :| |x| == n && AllIn(p, x) && Traces(p, hash, layers, x, instances) {
      forall k | 0 <= k < |layers| ensures Provable(p, hash, layers[k], instances[k]) {
        ActivationProvable(p, hash, layers, x, instances, k);
      }
    }
  }

  /** The input the first proof knows of. */
  lemma InputOf(p: int, hash: Hash, layers: seq<Layer>, n: nat, instances: seq<seq<int>>) returns (x: seq<int>)
    requires p > 0 && AllFit(layers, p, n) && Linked(p, layers, instances) && AllProvable(p, hash, layers, n, instances)
    ensures |x| == n && AllIn(p, x)
    ensures layers != [] ==> instances[0][0] == hash(x) && instances[0][1] == hash(Affine(p, layers[0], x))
  {
    if layers == [] {
      x := seq(n, _ => 0);
    } else {
      x := Witness(p, hash, layers[0], n, instances[0]);
    }
  }

  lemma Witness(p: int, hash: Hash, layer: Layer, n: nat, instance: seq<int>) returns (x: seq<int>)
    requires p > 0 && Fits(layer, p, n) && |instance| == NUM_INSTANCES && AllIn(p, instance)
    requires Provable(p, hash, layer, instance)
    ensures |x| == n && AllIn(p, x) && instance[0] == hash(x) && instance[1] == hash(Affine(p, layer, x))
  {
    hide Provable, Affine;
    ProvableIffTrue(p, hash, layer, instance);
    x :| |x| == |layer.b| && AllIn(p, x) && Commits(p, hash, layer, instance, x);
  }

  lemma ActivationIn(p: int, layers: seq<Layer>, x: seq<int>, k: nat)
    requires p > 0 && AllFit(layers, p, |x|) && AllIn(p, x) && k <= |layers|
    ensures |Activations(p, layers, x)[k]| == |x| && AllIn(p, Activations(p, layers, x)[k])
  {
    hide Activations, Affine;
    ActivationsAt(p, layers, x, k);
    if k > 0 {
      ActivationsAt(p, layers, x, k - 1);
    }
  }

  /** Each proof's input is the activation that the proofs before it lead to. */
  lemma {:induction false} ActivationCommitted(p: int, hash: Hash, layers: seq<Layer>, x: seq<int>, instances: seq<seq<int>>, k: nat)
    requires p > 0 && AllFit(layers, p, |x|) && AllIn(p, x) && Linked(p, layers, instances) && Binding(p, hash, |x|)
    requires AllProvable(p, hash, layers, |x|, instances) && k < |layers|
    requires instances[0][0] == hash(x)
    ensures instances[k][0] == hash(Activations(p, layers, x)[k]) && instances[k][1] == hash(Activations(p, layers, x)[k + 1])
    decreases k
  {
    hide Activations, Affine, Provable;
    ActivationsAt(p, layers, x, 0);
    if k > 0 {
      ActivationCommitted(p, hash, layers, x, instances, k - 1);
    }
    ActivationsAt(p, layers, x, k);
    ActivationIn(p, layers, x, k);
    var y := Witness(p, hash, layers[k], |x|, instances[k]);
    assert y == Activations(p, layers, x)[k];
  }

  lemma ActivationProvable(p: int, hash: Hash, layers: seq<Layer>, x: seq<int>, instances: seq<seq<int>>, k: nat)
    requires p > 0 && AllFit(layers, p, |x|) && AllIn(p, x) && Linked(p, layers, instances)
    requires Traces(p, hash, layers, x, instances) && k < |layers|
    ensures Provable(p, hash, layers[k], instances[k])
  {
    hide Activations, Affine, Provable;
    ActivationsAt(p, layers, x, k);
    ActivationIn(p, layers, x, k);
    var y := Activations(p, layers, x)[k];
    assert Fits(layers[k], p, |x|);
    TrueIsProvable(p, hash, layers[k], instances[k], y);
  }
}
