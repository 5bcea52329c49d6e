/** What the cloaks hide and which keys there are. */
module CloakTheorems {
  import opened Bytes
  import opened Field
  import opened Shuffle
  import ByteCloak
  import opened MatrixCloak

  // ---------------------------------------------------------------- the byte cloak

  lemma XorCommutes(a: Byte, b: Byte)
    ensures Xor(a, b) == Xor(b, a)
  {
    XorBitsCommutes(a, b, 8);
  }

  lemma {:induction false} XorAllCommutes(a: seq<Byte>, b: seq<Byte>)
    requires |a| == |b|
    ensures XorAll(a, b) == XorAll(b, a)
  {
    hide XorAll, Xor;
    forall i | 0 <= i < |a| ensures Xor(a[i], b[i]) == Xor(b[i], a[i]) {
      XorCommutes(a[i], b[i]);
    }
  }

  /** What a permutation gathers into some row. */
  lemma GatheredFrom<T>(out: seq<T>, perm: seq<nat>) returns (s: seq<T>)
    requires IsPermutation(perm) && |out| == |perm|
    ensures |s| == |perm| && (forall i :: 0 <= i < |perm| ==> perm[i] < |s|) && Gathered(s, perm) == out
  {
    var inv :| Inverts(perm, inv);
    s := seq(|perm|, k requires 0 <= k < |perm| => out[inv[k]]);
  }

  /** A cloaked row tells nothing about the row: whatever the permutation, every row has exactly one keystream that
      turns it into the same cloaked row. */
  lemma CloakedRowTellsNothing(indexBytes: seq<Byte>, kv: seq<Byte>, out: seq<Byte>)
    requires 1 <= |kv| == |out| && |indexBytes| == (|kv| - 1) * ByteCloak.SWAP_BYTES
    ensures exists ks :: && |ks| == |kv| && ByteCloak.Cloaks(ByteCloak.Expansion(ks, indexBytes), kv, out)
                         && forall ls :: |ls| == |kv| && ByteCloak.Cloaks(ByteCloak.Expansion(ls, indexBytes), kv, out) ==> ls == ks
  {
    hide Derived, XorAll, Xor, Inverts;
    var perm := Derived(|kv|, indexBytes, 1, ByteCloak.SWAP_BYTES);
    DerivedIsPermutation(|kv|, indexBytes, 1, ByteCloak.SWAP_BYTES);
    var row := GatheredFrom(out, perm);
    var ks := XorAll(row, kv);
    XorAllInvolution(row, kv);
    XorAllCommutes(ks, kv);
    assert ByteCloak.Cloaks(ByteCloak.Expansion(ks, indexBytes), kv, out);
    forall ls | |ls| == |kv| && ByteCloak.Cloaks(ByteCloak.Expansion(ls, indexBytes), kv, out) ensures ls == ks {
      GatherInjective(XorAll(kv, ls), row, perm);
      XorAllInjective(kv, ls, ks);
    }
  }

  lemma DerivedIsPermutation(n: nat, stream: seq<Byte>, lead: nat, width: nat)
    requires lead <= 1 <= n && (n - lead) * width <= |stream|
    ensures IsPermutation(Derived(n, stream, lead, width))
  {
    hide Shuffled, Draws, IsPermutation;
    ShuffleIsPermutation(Draws(stream, lead, width, n), n);
  }

  /** A row of the source: 256 bytes of keystream, and four bytes for each of 255 swaps. */
  lemma SourceRow(e: ByteCloak.Expansion)
    ensures ByteCloak.ForBlock(e, 256) <==> |e.keystream| == 256 && |e.indexBytes| == 1020
  {
  }

  /** Byte `i` of the cloaked row is byte `perm[i]` of the row under byte `perm[i]` of the keystream. */
  lemma CloakedByte(e: ByteCloak.Expansion, kv: seq<Byte>, out: seq<Byte>, i: nat)
    requires ByteCloak.ForBlock(e, |kv|) && ByteCloak.Cloaks(e, kv, out) && i < |kv|
    ensures var at := ByteCloak.Permutation(e, |kv|)[i];
            at < |kv| && |out| == |kv| && out[i] == Xor(kv[at], e.keystream[at])
  {
    hide Derived, Xor, Inverts, XorAll;
    PermutationInRange(ByteCloak.Permutation(e, |kv|));
  }

  // ---------------------------------------------------------------- the matrix cloak

  function LittleEndian(v: nat, width: nat): (b: seq<Byte>)
    ensures |b| == width
    decreases width
  {
    if width == 0 then [] else [v % 256] + LittleEndian(v / 256, width - 1)
  }

  lemma {:induction false} LittleEndianRoundTrip(v: nat, width: nat)
    requires v < Pow256(width)
    ensures FromLittleEndian(LittleEndian(v, width)) == v
    decreases width
  {
    if width > 0 {
      LittleEndianRoundTrip(v / 256, width - 1);
      assert LittleEndian(v, width)[1..] == LittleEndian(v / 256, width - 1);
    }
  }

  lemma TopByteFits(low: seq<Byte>, top: Byte)
    requires FromLittleEndian(low + [top]) < Pow256(|low|) * 64
    ensures top < 64
  {
    LittleEndianSplit(low, [top]);
    assert FromLittleEndian([top]) == top;
    hide FromLittleEndian, Pow256;
    if top >= 64 {
      ScaleMono(Pow256(|low|), 64, top);
    }
  }

  lemma OneMoreByte(n: nat, v: nat)
    requires v < Pow256(n) * 64
    ensures v < Pow256(n + 1)
  {
  }

  /** Every number below 2^254 is read from some digest. */
  lemma DigestFor(v: nat) returns (digest: seq<Byte>)
    requires v < Pow256(31) * 64
    ensures |digest| == 32 && FromDigest(digest) == v
  {
    hide FromLittleEndian, Pow256, LittleEndian;
    digest := LittleEndian(v, 32);
    OneMoreByte(31, v);
    LittleEndianRoundTrip(v, 32);
    assert digest == digest[..31] + [digest[31]];
    TopByteFits(digest[..31], digest[31]);
  }

  /** Two digests are read as the same number exactly when they agree but for the two top bits. */
  lemma SameDigestIff(a: seq<Byte>, b: seq<Byte>)
    requires |a| == |b| == 32
    ensures FromDigest(a) == FromDigest(b) <==> a[..31] == b[..31] && a[31] % 64 == b[31] % 64
  {
    var x, y := a[..31] + [a[31] % 64], b[..31] + [b[31] % 64];
    if FromDigest(a) == FromDigest(b) {
      LittleEndianInjective(x, y);
      assert x[..31] == a[..31] && y[..31] == b[..31] && x[31] == a[31] % 64 && y[31] == b[31] % 64;
    }
  }

  /** Where the digest reads as zero the diagonal is one. */
  lemma ZeroDigestEntry(digest: seq<Byte>, i: nat, j: nat)
    requires |digest| == 32 && forall k :: 0 <= k < 31 ==> digest[k] == 0
    requires digest[31] % 64 == 0
    ensures Entry(digest, i, j) == if i == j then 1 else 0
  {
    var zeros: seq<Byte> := seq(32, _ => 0);
    SameDigestIff(digest, zeros);
    assert zeros[..31] + [0] == zeros;
    ZerosRead(32);
    hide FromLittleEndian;
  }

  lemma {:induction false} ZerosRead(n: nat)
    ensures FromLittleEndian(seq(n, _ => 0)) == 0
  {
    if n > 0 {
      var zeros: seq<Byte> := seq(n, _ => 0);
      assert zeros[1..] == seq(n - 1, _ => 0);
      ZerosRead(n - 1);
    }
  }

  /** The entries are below 2^254. */
  predicate Small(l: seq<seq<int>>) {
    forall i, j :: 0 <= i < |l| && 0 <= j < |l[i]| ==> l[i][j] < Pow256(31) * 64
  }

  lemma DigestsForRow(row: seq<int>, n: nat, i: nat, p: int) returns (digests: seq<seq<Byte>>)
    requires TriangularRow(row, p, n, i) && forall j :: 0 <= j < n ==> row[j] < Pow256(31) * 64
    ensures DigestRow(digests, n) && forall j :: 0 <= j < n ==> Entry(digests[j], i, j) == row[j]
  {
    hide FromDigest, Pow256;
    digests := [];
    for j := 0 to n
      invariant |digests| == j
      invariant forall k :: 0 <= k < j ==> |digests[k]| == 32 && Entry(digests[k], i, k) == row[k]
    {
      assert InField(p, row[j]);
      var d := DigestFor(row[j]);
      digests := digests + [d];
    }
  }

  /** Every lower-triangular matrix with such entries and a diagonal without zero comes from some digests. */
  lemma EveryMatrixIsDerived(l: seq<seq<int>>, p: int) returns (digests: seq<seq<seq<Byte>>>)
    requires LowerTriangular(l, p) && Small(l)
    ensures |digests| == |l| && DigestSquare(digests)
    ensures forall i, j :: 0 <= i < |l| && 0 <= j < |l| ==> |l[i]| == |l| && Entry(digests[i][j], i, j) == l[i][j]
  {
    hide Entry, Pow256;
    digests := [];
    for i := 0 to |l|
      invariant |digests| == i
      invariant forall k :: 0 <= k < i ==> |l[k]| == |l| && DigestRow(digests[k], |l|)
      invariant forall k, j :: 0 <= k < i && 0 <= j < |l| ==> Entry(digests[k][j], k, j) == l[k][j]
    {
      assert TriangularRow(l[i], p, |l|, i);
      var row := DigestsForRow(l[i], |l|, i, p);
      digests := digests + [row];
    }
  }

  lemma {:induction false} DotBeyond(row: seq<int>, v: seq<int>, p: int, i: nat, n: nat)
    requires TriangularRow(row, p, |v|, i) && i < n <= |v|
    ensures Dot(row, v, n) == Dot(row, v, i + 1)
  {
    if n > i + 1 {
      DotBeyond(row, v, p, i, n - 1);
    }
  }

  lemma CloakedReads(p: int, key: Key, v: seq<int>, i: nat)
    requires p > 0 && ValidKey(key, p) && |v| == |key.l| && i < |v|
    ensures key.perm[i] < |v| && |key.l[key.perm[i]]| == |v|
    ensures Cloaked(p, key, v)[i] == Dot(key.l[key.perm[i]], v, key.perm[i] + 1) % p
  {
    hide Dot, IsPermutation, LowerTriangular;
    TriangularIsSquare(key.l, p);
    PermutationInRange(key.perm);
  }

  /** Coordinate `i` of the cloaked vector is row `perm[i]` of the matrix times the vector. */
  lemma CloakedCoordinate(p: int, key: Key, v: seq<int>, i: nat)
    requires p > 0 && ValidKey(key, p) && |v| == |key.l| && i < |v|
    ensures var at := key.perm[i];
            at < |v| && |key.l[at]| == |v| && Cloaked(p, key, v)[i] == Dot(key.l[at], v, |v|) % p
  {
    hide Dot, IsPermutation, AllIn;
    PermutationInRange(key.perm);
    var at := key.perm[i];
    assert TriangularRow(key.l[at], p, |v|, at);
    DotBeyond(key.l[at], v, p, at, |v|);
    CloakedReads(p, key, v, i);
  }
}
