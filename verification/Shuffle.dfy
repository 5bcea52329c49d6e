/** The Fisher–Yates shuffle both cloaks use: descending swaps driven by a stream of draws. */
module Shuffle {
  import opened Bytes

  /** `inv` undoes `perm` on positions. */
  predicate Inverts(perm: seq<nat>, inv: seq<nat>) {
    && |perm| == |inv|
    && (forall i :: 0 <= i < |perm| ==> perm[i] < |perm| && inv[perm[i]] == i)
    && (forall k :: 0 <= k < |inv| ==> inv[k] < |inv| && perm[inv[k]] == k)
  }

  ghost predicate IsPermutation(perm: seq<nat>) {
    exists inv :: Inverts(perm, inv)
  }

  function Identity(n: nat): (perm: seq<nat>)
    ensures |perm| == n
  {
    seq(n, i => i)
  }

  function Swapped<T>(s: seq<T>, i: nat, j: nat): (r: seq<T>)
    requires i < |s| && j < |s|
    ensures |r| == |s|
  {
    s[i := s[j]][j := s[i]]
  }

  /** The draw of step `i`: `width` big-endian bytes at slot `i - lead` of the stream. */
  function Draw(stream: seq<Byte>, lead: nat, width: nat, n: nat, i: nat): nat
    requires lead <= 1 <= i < n && (n - lead) * width <= |stream|
  {
    ScaleMono(width, i - lead + 1, n - lead);
    assert (i - lead) * width + width == (i - lead + 1) * width;
    FromBigEndian(stream[(i - lead) * width..][..width])
  }

  function Draws(stream: seq<Byte>, lead: nat, width: nat, n: nat): (draws: seq<nat>)
    requires lead <= 1 <= n && (n - lead) * width <= |stream|
    ensures |draws| == n
  {
    seq(n, i requires 0 <= i < n => if i == 0 then 0 else Draw(stream, lead, width, n, i))
  }

  /** The partner of position `i`: a position up to `i`. */
  function Partner(draw: nat, i: nat): (j: nat)
    ensures j <= i
  {
    draw % (i + 1)
  }

  /** Steps `i, i-1, .., 1` of the shuffle. */
  function Shuffled(perm: seq<nat>, draws: seq<nat>, i: nat): (r: seq<nat>)
    requires i < |perm| && i < |draws|
    ensures |r| == |perm|
    decreases i
  {
    if i == 0 then perm else Shuffled(Swapped(perm, i, Partner(draws[i], i)), draws, i - 1)
  }

  lemma SwapKeeps(perm: seq<nat>, inv: seq<nat>, i: nat, j: nat)
    requires Inverts(perm, inv) && i < |perm| && j < |perm|
    ensures Inverts(Swapped(perm, i, j), inv[perm[i] := j][perm[j] := i])
  {
    var inv' := inv[perm[i] := j][perm[j] := i];
    var perm' := Swapped(perm, i, j);
    assert |inv'| == |inv|;
    forall k | 0 <= k < |perm| ensures perm'[k] < |perm| && inv'[perm'[k]] == k {
      assert perm'[k] == if k == j then perm[i] else if k == i then perm[j] else perm[k];
    }
  }

  lemma {:induction false} ShuffleKeeps(perm: seq<nat>, draws: seq<nat>, i: nat)
    requires IsPermutation(perm) && i < |perm| && i < |draws|
    ensures IsPermutation(Shuffled(perm, draws, i))
    decreases i
  {
    if i > 0 {
      var inv :| Inverts(perm, inv);
      var j := Partner(draws[i], i);
      SwapKeeps(perm, inv, i, j);
      ShuffleKeeps(Swapped(perm, i, j), draws, i - 1);
    }
  }

  /** For every stream of draws the shuffle gives a permutation. */
  lemma ShuffleIsPermutation(draws: seq<nat>, n: nat)
    requires 0 < n == |draws|
    ensures IsPermutation(Shuffled(Identity(n), draws, n - 1))
  {
    IdentityIsPermutation(n);
    hide Shuffled, IsPermutation, Identity;
    ShuffleKeeps(Identity(n), draws, n - 1);
  }

  lemma IdentityIsPermutation(n: nat)
    ensures IsPermutation(Identity(n))
  {
    assert Inverts(Identity(n), Identity(n));
  }

  /** The in-place loop. */
  method FisherYates(out: array<nat>, stream: seq<Byte>, lead: nat, width: nat)
    requires lead <= 1 <= out.Length && (out.Length - lead) * width <= |stream|
    modifies out
    ensures out[..] == Shuffled(old(out[..]), Draws(stream, lead, width, out.Length), out.Length - 1)
  {
    ghost var n, draws := out.Length, Draws(stream, lead, width, out.Length);
    hide Partner, Draws, Shuffled;
    var i := out.Length - 1;
    while i > 0
      invariant 0 <= i < n == out.Length == |draws|
      invariant Shuffled(out[..], draws, i) == Shuffled(old(out[..]), draws, n - 1)
    {
      DrawsAt(stream, lead, width, n, i);
      var j := Partner(Draw(stream, lead, width, out.Length, i), i);
      ghost var before := out[..];
      out[i], out[j] := out[j], out[i];
      assert out[..] == Swapped(before, i, j);
      ShuffledStep(before, draws, i);
      i := i - 1;
    }
    ShuffledDone(out[..], draws);
  }

  lemma ShuffledStep(perm: seq<nat>, draws: seq<nat>, i: nat)
    requires 0 < i < |perm| && i < |draws|
    ensures Shuffled(perm, draws, i) == Shuffled(Swapped(perm, i, Partner(draws[i], i)), draws, i - 1)
  {
  }

  lemma ShuffledDone(perm: seq<nat>, draws: seq<nat>)
    requires 0 < |perm| && 0 < |draws|
    ensures Shuffled(perm, draws, 0) == perm
  {
  }

  lemma DrawsAt(stream: seq<Byte>, lead: nat, width: nat, n: nat, i: nat)
    requires lead <= 1 <= i < n && (n - lead) * width <= |stream|
    ensures Draws(stream, lead, width, n)[i] == Draw(stream, lead, width, n, i)
  {
  }

  /** The identity, shuffled in place. */
  method DerivePermutation(n: nat, stream: seq<Byte>, lead: nat, width: nat) returns (perm: seq<nat>)
    requires lead <= 1 <= n && (n - lead) * width <= |stream|
    ensures perm == Derived(n, stream, lead, width) && IsPermutation(perm)
  {
    var out := new nat[n];
    var i := 0;
    while i < n
      invariant i <= n && out[..i] == Identity(n)[..i]
    {
      out[i] := i;
      i := i + 1;
    }
    assert out[..] == Identity(n);
    FisherYates(out, stream, lead, width);
    ShuffleIsPermutation(Draws(stream, lead, width, n), n);
    perm := out[..];
  }

  function Derived(n: nat, stream: seq<Byte>, lead: nat, width: nat): (perm: seq<nat>)
    requires lead <= 1 <= n && (n - lead) * width <= |stream|
    ensures |perm| == n
  {
    Shuffled(Identity(n), Draws(stream, lead, width, n), n - 1)
  }

  lemma PermutationInRange(perm: seq<nat>)
    requires IsPermutation(perm)
    ensures forall i :: 0 <= i < |perm| ==> perm[i] < |perm|
  {
  }

  // ---------------------------------------------------------------- moving data along a permutation

  /** Position `i` of the result comes from position `perm[i]`. */
  function Gathered<T>(s: seq<T>, perm: seq<nat>): (r: seq<T>)
    requires |s| == |perm| && forall i :: 0 <= i < |perm| ==> perm[i] < |s|
    ensures |r| == |s|
  {
    seq(|s|, i requires 0 <= i < |s| => s[perm[i]])
  }

  /** Writing back position by position undoes the gathering, and only that does. */
  method Scatter<T(0)>(s: seq<T>, perm: seq<nat>, blank: T) returns (r: seq<T>)
    requires |s| == |perm| && IsPermutation(perm)
    ensures |r| == |s| && (forall i :: 0 <= i < |perm| ==> perm[i] < |s|) && Gathered(r, perm) == s
  {
    ghost var inv :| Inverts(perm, inv);
    r := seq(|s|, _ => blank);
    var i := 0;
    while i < |s|
      invariant 0 <= i <= |s| == |r|
      invariant forall k :: 0 <= k < i ==> r[perm[k]] == s[k]
    {
      ghost var r0 := r;
      r := r[perm[i] := s[i]];
      forall k | 0 <= k < i ensures r[perm[k]] == s[k] {
        assert inv[perm[k]] != inv[perm[i]];
      }
      i := i + 1;
    }
  }

  lemma GatherInjective<T>(s: seq<T>, t: seq<T>, perm: seq<nat>)
    requires IsPermutation(perm) && |s| == |t| == |perm| && Gathered(s, perm) == Gathered(t, perm)
    ensures s == t
  {
    var inv :| Inverts(perm, inv);
    forall k | 0 <= k < |s| ensures s[k] == t[k] {
      assert Gathered(s, perm)[inv[k]] == s[k] && Gathered(t, perm)[inv[k]] == t[k];
    }
  }
}
