/** The byte cloak of one KV row: XOR with a keystream, then a permutation. The two HKDF expansions for a key and a
    position are parameters; the row length is too (256 in the source). */
module ByteCloak {
  import opened Bytes
  import opened Shuffle

  const SWAP_BYTES: nat := 4

  /** What a key and a position expand to. */
  datatype Expansion = Expansion(keystream: seq<Byte>, indexBytes: seq<Byte>)

  predicate ForBlock(e: Expansion, n: nat) {
    1 <= n && |e.keystream| == n && |e.indexBytes| == (n - 1) * SWAP_BYTES
  }

  function Permutation(e: Expansion, n: nat): (perm: seq<nat>)
    requires ForBlock(e, n)
    ensures |perm| == n
  {
    Derived(n, e.indexBytes, 1, SWAP_BYTES)
  }

  /** XOR a buffer in place. */
  method ApplyKeystream(keystream: seq<Byte>, buf: array<Byte>)
    requires |keystream| == buf.Length
    modifies buf
    ensures buf[..] == XorAll(old(buf[..]), keystream)
  {
    hide Xor, XorAll;
    ghost var before := buf[..];
    var i := 0;
    while i < buf.Length
      invariant i <= buf.Length
      invariant forall k :: 0 <= k < i ==> buf[k] == Xor(before[k], keystream[k])
      invariant forall k :: i <= k < buf.Length ==> buf[k] == before[k]
    {
      buf[i] := Xor(buf[i], keystream[i]);
      i := i + 1;
    }
  }

  method XorInto(keystream: seq<Byte>, row: seq<Byte>) returns (r: seq<Byte>)
    requires |keystream| == |row|
    ensures r == XorAll(row, keystream)
  {
    var buf := new Byte[|row|](i requires 0 <= i < |row| => row[i]);
    assert buf[..] == row;
    ApplyKeystream(keystream, buf);
    r := buf[..];
  }

  method Cloak(e: Expansion, kv: seq<Byte>) returns (out: seq<Byte>)
    requires ForBlock(e, |kv|)
    ensures |out| == |kv| && Cloaks(e, kv, out)
  {
    hide Derived, XorAll, Xor, Inverts;
    var buf := XorInto(e.keystream, kv);
    var perm := DerivePermutation(|kv|, e.indexBytes, 1, SWAP_BYTES);
    PermutationInRange(perm);
    out := [];
    var i := 0;
    while i < |kv|
      invariant i <= |kv| && |out| == i
      invariant forall k :: 0 <= k < i ==> out[k] == buf[perm[k]]
    {
      out := out + [buf[perm[i]]];
      i := i + 1;
    }
    assert out == Gathered(buf, perm);
  }

  method Uncloak(e: Expansion, cloaked: seq<Byte>) returns (kv: seq<Byte>)
    requires ForBlock(e, |cloaked|)
    ensures |kv| == |cloaked| && Cloaks(e, kv, cloaked)
  {
    hide Derived, XorAll, Xor, Inverts;
    var perm := DerivePermutation(|cloaked|, e.indexBytes, 1, SWAP_BYTES);
    var buf := Scatter(cloaked, perm, 0);
    kv := XorInto(e.keystream, buf);
    XorAllInvolution(buf, e.keystream);
  }

  /** `out` is the row XORed with the keystream and then permuted. */
  ghost predicate Cloaks(e: Expansion, kv: seq<Byte>, out: seq<Byte>)
    requires ForBlock(e, |kv|)
  {
    var perm := Permutation(e, |kv|);
    IsPermutation(perm) && Gathered(XorAll(kv, e.keystream), perm) == out
  }

  /** For every stream, cloaking is a bijection on rows. */
  lemma CloakUndoes(e: Expansion, kv: seq<Byte>, back: seq<Byte>, out: seq<Byte>)
    requires |kv| == |back| && ForBlock(e, |kv|)
    ensures Cloaks(e, kv, out) && Cloaks(e, back, out) ==> kv == back
  {
    hide Derived, Xor, XorAll, Inverts;
    if Cloaks(e, kv, out) && Cloaks(e, back, out) {
      GatherInjective(XorAll(kv, e.keystream), XorAll(back, e.keystream), Permutation(e, |kv|));
      XorAllInvolution(kv, e.keystream);
      XorAllInvolution(back, e.keystream);
    }
  }

  /** Uncloaking what was cloaked, in any block. */
  method RoundTrip(e: Expansion, kv: seq<Byte>) returns (back: seq<Byte>)
    requires ForBlock(e, |kv|)
    ensures back == kv
  {
    var out := Cloak(e, kv);
    back := Uncloak(e, out);
    CloakUndoes(e, kv, back, out);
  }
}
