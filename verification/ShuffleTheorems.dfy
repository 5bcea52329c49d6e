/** The shuffle reaches every permutation in exactly one way, and every way of driving it from some stream. */
module ShuffleTheorems {
  import opened Bytes
  import opened Shuffle

  // ---------------------------------------------------------------- one choice per permutation

  /** A choice for every step: the partner of position `i` is at most `i`. */
  predicate Choice(draws: seq<nat>, n: nat) {
    |draws| == n && (n > 0 ==> draws[0] == 0) && forall i :: 0 <= i < n ==> draws[i] <= i
  }

  /** Steps below a position leave it alone. */
  lemma {:induction false} ShuffledAbove(perm: seq<nat>, draws: seq<nat>, i: nat, k: nat)
    requires i < k < |perm| && i < |draws|
    ensures Shuffled(perm, draws, i)[k] == perm[k]
    decreases i
  {
    if i > 0 {
      ShuffledAbove(Swapped(perm, i, Partner(draws[i], i)), draws, i - 1, k);
    }
  }

  /** The two streams choose the same partner at every step up to `i`. */
  predicate SameChoices(a: seq<nat>, b: seq<nat>, i: nat)
    requires i < |a| && i < |b|
  {
    forall k :: 0 < k <= i ==> Partner(a[k], k) == Partner(b[k], k)
  }

  lemma PermutationInjective(perm: seq<nat>, i: nat, j: nat)
    requires IsPermutation(perm) && i < |perm| && j < |perm| && perm[i] == perm[j]
    ensures i == j
  {
    var inv :| Inverts(perm, inv);
  }

  lemma SwapIsPermutation(perm: seq<nat>, i: nat, j: nat)
    requires IsPermutation(perm) && i < |perm| && j < |perm|
    ensures IsPermutation(Swapped(perm, i, j))
  {
    var inv :| Inverts(perm, inv);
    SwapKeeps(perm, inv, i, j);
  }

  lemma {:induction false} SamePartnersIff(perm: seq<nat>, a: seq<nat>, b: seq<nat>, i: nat)
    requires IsPermutation(perm) && i < |perm| && i < |a| && i < |b|
    ensures Shuffled(perm, a, i) == Shuffled(perm, b, i) <==> SameChoices(a, b, i)
    decreases i
  {
    hide IsPermutation, Partner;
    if i > 0 {
      var j, k := Partner(a[i], i), Partner(b[i], i);
      ShuffledStep(perm, a, i);
      ShuffledStep(perm, b, i);
      ShuffledAbove(Swapped(perm, i, j), a, i - 1, i);
      ShuffledAbove(Swapped(perm, i, k), b, i - 1, i);
      hide Shuffled;
      assert Swapped(perm, i, j)[i] == perm[j] && Swapped(perm, i, k)[i] == perm[k];
      SwapIsPermutation(perm, i, j);
      if j == k {
        SamePartnersIff(Swapped(perm, i, j), a, b, i - 1);
      } else if perm[j] == perm[k] {
        PermutationInjective(perm, j, k);
      }
    }
  }

  predicate SameModulo(a: nat, b: nat, m: nat)
    requires m > 0
  {
    a % m == b % m
  }

  lemma SamePartner(a: nat, b: nat, k: nat)
    ensures Partner(a, k) == Partner(b, k) <==> SameModulo(a, b, k + 1)
  {
  }

  /** Two streams of draws give the same result exactly when each draw is the same modulo the number of positions it
      picks from. */
  lemma SameShuffleIff(perm: seq<nat>, a: seq<nat>, b: seq<nat>)
    requires perm != [] && IsPermutation(perm) && |perm| == |a| == |b|
    ensures Shuffled(perm, a, |perm| - 1) == Shuffled(perm, b, |perm| - 1)
            <==> forall k :: 0 < k < |perm| ==> SameModulo(a[k], b[k], k + 1)
  {
    hide Partner, Shuffled, IsPermutation, SameModulo;
    SamePartnersIff(perm, a, b, |perm| - 1);
    forall k | 0 < k < |perm| ensures Partner(a[k], k) == Partner(b[k], k) <==> SameModulo(a[k], b[k], k + 1) {
      SamePartner(a[k], b[k], k);
    }
  }

  lemma PartnerOfSmall(draw: nat, i: nat)
    requires draw <= i
    ensures Partner(draw, i) == draw
  {
  }

  /** Where a value stands in a permutation. */
  lemma PlaceOf(perm: seq<nat>, v: nat) returns (j: nat)
    requires IsPermutation(perm) && v < |perm|
    ensures j < |perm| && perm[j] == v
  {
    var inv :| Inverts(perm, inv);
    j := inv[v];
  }

  /** From any permutation to any other one with the same values above `i`. */
  lemma {:induction false} ChoiceFor(from: seq<nat>, to: seq<nat>, i: nat) returns (draws: seq<nat>)
    requires IsPermutation(from) && IsPermutation(to) && |from| == |to| && i < |from|
    requires forall k :: i < k < |from| ==> from[k] == to[k]
    ensures Choice(draws, i + 1) && Shuffled(from, draws, i) == to
    decreases i
  {
    hide IsPermutation, Partner;
    PermutationInRange(to);
    var j := PlaceOf(from, to[i]);
    if i < j {
      PermutationInjective(to, i, j);
    }
    if i == 0 {
      draws := [0];
      assert from == to;
      ShuffledDone(from, draws);
    } else {
      SwapIsPermutation(from, i, j);
      var rest := ChoiceFor(Swapped(from, i, j), to, i - 1);
      hide Shuffled;
      draws := rest + [j];
      PartnerOfSmall(j, i);
      ShuffledStep(from, draws, i);
      SamePartnersIff(Swapped(from, i, j), rest, draws, i - 1);
    }
  }

  /** The shuffle is a bijection: every permutation comes from exactly one choice of partners. */
  lemma ShuffleIsBijection(perm: seq<nat>)
    requires perm != [] && IsPermutation(perm)
    ensures exists draws :: && Choice(draws, |perm|) && Shuffled(Identity(|perm|), draws, |perm| - 1) == perm
                            && forall e :: Choice(e, |perm|) && Shuffled(Identity(|perm|), e, |perm| - 1) == perm ==> e == draws
  {
    var n := |perm|;
    IdentityIsPermutation(n);
    hide Shuffled, Identity, IsPermutation;
    var draws := ChoiceFor(Identity(n), perm, n - 1);
    forall e | Choice(e, n) && Shuffled(Identity(n), e, n - 1) == perm ensures e == draws {
      SamePartnersIff(Identity(n), e, draws, n - 1);
      SameChoiceIs(e, draws, n);
    }
  }

  lemma SameChoiceIs(a: seq<nat>, b: seq<nat>, n: nat)
    requires n > 0 && Choice(a, n) && Choice(b, n) && SameChoices(a, b, n - 1)
    ensures a == b
  {
    forall k | 0 < k < n ensures a[k] == b[k] {
      PartnerOfSmall(a[k], k);
      PartnerOfSmall(b[k], k);
    }
  }

  // ---------------------------------------------------------------- the stream

  /** Draws written one after the other, most significant byte first. */
  function Written(draws: seq<nat>, width: nat): seq<Byte> {
    if draws == [] then [] else BigEndian(draws[0], width) + Written(draws[1..], width)
  }

  lemma {:induction false} WrittenAt(draws: seq<nat>, width: nat, k: nat)
    requires k < |draws|
    ensures |Written(draws, width)| == |draws| * width && 0 <= k * width && (k + 1) * width <= |Written(draws, width)|
    ensures Written(draws, width)[k * width..][..width] == BigEndian(draws[k], width)
    decreases k
  {
    WrittenLength(draws, width);
    ScaleMono(width, k + 1, |draws|);
    if k > 0 {
      WrittenAt(draws[1..], width, k - 1);
      assert k * width == width + (k - 1) * width;
      assert Written(draws, width)[k * width..] == Written(draws[1..], width)[(k - 1) * width..];
    }
  }

  lemma {:induction false} WrittenLength(draws: seq<nat>, width: nat)
    ensures |Written(draws, width)| == |draws| * width
  {
    if draws != [] {
      WrittenLength(draws[1..], width);
      assert |draws| * width == width + (|draws| - 1) * width;
    }
  }

  /** The draws of a stream are the ones written into it: from position `lead` on, the first one not being used. */
  lemma DrawsOfWritten(draws: seq<nat>, lead: nat, width: nat)
    requires lead <= 1 <= |draws| && draws[0] == 0 && forall i :: 0 <= i < |draws| ==> draws[i] < Pow256(width)
    ensures |Written(draws[lead..], width)| == (|draws| - lead) * width
    ensures Draws(Written(draws[lead..], width), lead, width, |draws|) == draws
  {
    var stream, n := Written(draws[lead..], width), |draws|;
    WrittenLength(draws[lead..], width);
    forall i | 0 < i < n ensures Draws(stream, lead, width, n)[i] == draws[i] {
      WrittenAt(draws[lead..], width, i - lead);
      BigEndianRoundTrip(draws[i], width);
    }
  }

  lemma SmallDraws(draws: seq<nat>, width: nat)
    requires Choice(draws, |draws|) && |draws| <= Pow256(width)
    ensures forall i :: 0 <= i < |draws| ==> draws[i] < Pow256(width)
  {
  }

  /** Every permutation is derived from some stream. */
  lemma EveryPermutationIsDerived(perm: seq<nat>, lead: nat, width: nat) returns (stream: seq<Byte>)
    requires lead <= 1 <= |perm| <= Pow256(width) && IsPermutation(perm)
    ensures |stream| == (|perm| - lead) * width && Derived(|perm|, stream, lead, width) == perm
  {
    IdentityIsPermutation(|perm|);
    hide Shuffled, Identity, IsPermutation, Draws, Written;
    var draws := ChoiceFor(Identity(|perm|), perm, |perm| - 1);
    SmallDraws(draws, width);
    stream := Written(draws[lead..], width);
    DrawsOfWritten(draws, lead, width);
  }
}
