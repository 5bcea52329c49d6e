/** The matrix cloak: `P*L*v` for a secret lower-triangular `L` with non-zero diagonal and a secret permutation `P`,
    over a prime field, in any dimension (8 in the source). HKDF and SHA-256 output is a parameter. */
module MatrixCloak {
  import opened Bytes
  import opened Field
  import opened Shuffle

  const DRAW_BYTES: nat := 8

  datatype Key = Key(l: seq<seq<int>>, perm: seq<nat>)

  ghost predicate LowerTriangular(l: seq<seq<int>>, p: int) {
    forall i :: 0 <= i < |l| ==> TriangularRow(l[i], p, |l|, i)
  }

  /** Row `i`: over the field, zero above the diagonal, not zero on it. */
  predicate TriangularRow(row: seq<int>, p: int, n: nat, i: nat) {
    && |row| == n && i < n && AllIn(p, row) && row[i] != 0
    && forall j :: i < j < n ==> row[j] == 0
  }

  ghost predicate ValidKey(key: Key, p: int) {
    LowerTriangular(key.l, p) && |key.perm| == |key.l| && IsPermutation(key.perm)
  }

  // ---------------------------------------------------------------- key derivation

  /** A 32-byte digest with its top two bits cleared, read little-endian. */
  function FromDigest(digest: seq<Byte>): nat
    requires |digest| == 32
  {
    FromLittleEndian(digest[..31] + [digest[31] % 64])
  }

  /** The clamped digest is below 2^254, so below the Pallas modulus: reading it never fails. */
  lemma DigestFits(digest: seq<Byte>)
    requires |digest| == 32
    ensures InField(PALLAS, FromDigest(digest))
  {
    var top: Byte := digest[31] % 64;
    TopByteBounds(digest[..31], top);
    Pow256At31();
    hide Pow256, FromLittleEndian;
    ScaleMono(Pow256(31), top + 1, 64);
  }

  lemma Pow256At31()
    ensures Pow256(31) * 64 <= PALLAS
  {
    assert Pow256(8) == 0x1_0000_0000_0000_0000;
    Pow256Adds(8, 8);
    Pow256Adds(16, 8);
    Pow256Adds(24, 7);
    assert Pow256(7) == 0x100_0000_0000_0000;
  }

  /** Entry `(i, j)` of `L`: zero above the diagonal, one where the diagonal would be zero. */
  function Entry(digest: seq<Byte>, i: nat, j: nat): int
    requires |digest| == 32
  {
    if j > i then 0 else if i == j && FromDigest(digest) == 0 then 1 else FromDigest(digest)
  }

  predicate DigestSquare(digests: seq<seq<seq<Byte>>>) {
    forall i :: 0 <= i < |digests| ==> DigestRow(digests[i], |digests|)
  }

  predicate DigestRow(row: seq<seq<Byte>>, n: nat) {
    |row| == n && forall j :: 0 <= j < n ==> |row[j]| == 32
  }

  method DeriveRow(digests: seq<seq<Byte>>, i: nat) returns (row: seq<int>)
    requires DigestRow(digests, |digests|) && i < |digests|
    ensures TriangularRow(row, PALLAS, |digests|, i)
    ensures forall j :: 0 <= j < |digests| ==> row[j] == Entry(digests[j], i, j)
  {
    hide FromDigest;
    row := [];
    var j := 0;
    while j < |digests|
      invariant j <= |digests| && |row| == j && AllIn(PALLAS, row)
      invariant forall k :: 0 <= k < j ==> row[k] == Entry(digests[k], i, k)
    {
      var v := 0;
      if j <= i {
        v := FromDigest(digests[j]);
        DigestFits(digests[j]);
        if i == j && v == 0 {
          v := 1;
        }
      }
      row := row + [v];
      j := j + 1;
    }
  }

  /** Every seed gives a valid key. */
  method FromSeed(digests: seq<seq<seq<Byte>>>, permBytes: seq<Byte>) returns (key: Key)
    requires 1 <= |digests| && DigestSquare(digests) && |digests| * DRAW_BYTES <= |permBytes|
    ensures ValidKey(key, PALLAS) && |key.l| == |digests|
    ensures forall i, j :: 0 <= i < |digests| && 0 <= j < |digests| ==> key.l[i][j] == Entry(digests[i][j], i, j)
    ensures key.perm == Derived(|digests|, permBytes, 0, DRAW_BYTES)
  {
    hide Entry, Derived;
    var n := |digests|;
    var l: seq<seq<int>> := [];
    var i := 0;
    while i < n
      invariant i <= n && |l| == i
      invariant forall k :: 0 <= k < i ==> TriangularRow(l[k], PALLAS, n, k)
      invariant forall k, j :: 0 <= k < i && 0 <= j < n ==> l[k][j] == Entry(digests[k][j], k, j)
    {
      var row := DeriveRow(digests[i], i);
      l := l + [row];
      i := i + 1;
    }
    var perm := DerivePermutation(n, permBytes, 0, DRAW_BYTES);
    key := Key(l, perm);
  }

  // ---------------------------------------------------------------- the transform

  /** `L*v` */
  function LowerApply(p: int, l: seq<seq<int>>, v: seq<int>): (r: seq<int>)
    requires p > 0 && |v| == |l| && forall i :: 0 <= i < |l| ==> |l[i]| == |l|
    ensures |r| == |v| && AllIn(p, r)
  {
    seq(|l|, i requires 0 <= i < |l| => Dot(l[i], v, i + 1) % p)
  }

  ghost predicate Square(l: seq<seq<int>>) {
    forall i :: 0 <= i < |l| ==> |l[i]| == |l|
  }

  lemma TriangularIsSquare(l: seq<seq<int>>, p: int)
    requires LowerTriangular(l, p)
    ensures Square(l) && (|l| > 0 ==> p > 0)
  {
    assert |l| > 0 ==> TriangularRow(l[0], p, |l|, 0);
    forall i | 0 <= i < |l| ensures |l[i]| == |l| {
      assert TriangularRow(l[i], p, |l|, i);
    }
  }

  /** `P*L*v` */
  ghost function Cloaked(p: int, key: Key, v: seq<int>): (r: seq<int>)
    requires p > 0 && ValidKey(key, p) && |v| == |key.l|
    ensures |r| == |v|
  {
    TriangularIsSquare(key.l, p);
    PermutationInRange(key.perm);
    Gathered(LowerApply(p, key.l, v), key.perm)
  }

  /** A row of `L` up to the diagonal. */
  method RowApply(p: int, row: seq<int>, v: seq<int>, i: nat) returns (acc: int)
    requires p > 0 && |row| == |v| && i < |v|
    ensures acc == Dot(row, v, i + 1) % p
  {
    acc := 0;
    var j := 0;
    while j <= i
      invariant j <= i + 1 && acc == Dot(row, v, j) % p
    {
      CongNorm(p, Dot(row, v, j));
      CongNorm(p, row[j] * v[j]);
      CongAdd(p, acc, Dot(row, v, j), row[j] * v[j] % p, row[j] * v[j]);
      acc := (acc + row[j] * v[j] % p) % p;
      j := j + 1;
    }
  }

  method MatvecLower(p: int, l: seq<seq<int>>, v: seq<int>) returns (out: seq<int>)
    requires p > 0 && Square(l) && |v| == |l|
    ensures out == LowerApply(p, l, v)
  {
    out := [];
    var i := 0;
    while i < |l|
      invariant i <= |l| && out == LowerApply(p, l, v)[..i]
    {
      var acc := RowApply(p, l[i], v, i);
      assert acc == LowerApply(p, l, v)[i];
      out := out + [acc];
      i := i + 1;
    }
  }

  method CloakVector(p: int, key: Key, v: seq<int>) returns (out: seq<int>)
    requires p > 0 && ValidKey(key, p) && |v| == |key.l|
    ensures out == Cloaked(p, key, v)
  {
    TriangularIsSquare(key.l, p);
    PermutationInRange(key.perm);
    hide LowerTriangular, IsPermutation, LowerApply;
    var lv := MatvecLower(p, key.l, v);
    out := [];
    var i := 0;
    while i < |v|
      invariant i <= |v| && |out| == i
      invariant forall k :: 0 <= k < i ==> out[k] == lv[key.perm[k]]
    {
      out := out + [lv[key.perm[i]]];
      i := i + 1;
    }
    assert out == Gathered(lv, key.perm);
  }

  // ---------------------------------------------------------------- forward substitution

  /** What remains of `b[i]` once the known coordinates are subtracted. */
  method Residue(p: int, row: seq<int>, b: int, x: seq<int>) returns (acc: int)
    requires InField(p, b) && |x| <= |row|
    ensures acc == (b - Dot(row, x, |x|)) % p
  {
    acc := b;
    CongNorm(p, b);
    CongUnique(p, b, b % p);
    var j := 0;
    while j < |x|
      invariant j <= |x| && acc == (b - Dot(row, x, j)) % p
    {
      CongNorm(p, b - Dot(row, x, j));
      CongNorm(p, row[j] * x[j]);
      CongAdd(p, acc, b - Dot(row, x, j), row[j] * x[j] % p, row[j] * x[j]);
      acc := (acc - row[j] * x[j] % p) % p;
      j := j + 1;
    }
  }

  /** Dividing the residue by the diagonal solves the row. */
  lemma RowSolved(p: int, d: int, b: int, known: int, acc: int, x: int)
    requires IsPrime(p) && 0 < d < p && InField(p, b)
    requires acc == (b - known) % p && x == acc * Inverse(p, d) % p
    ensures (known + d * x) % p == b
  {
    var inv := Inverse(p, d);
    InverseWorks(p, d);
    CongNorm(p, acc * inv);
    CongRefl(p, d);
    CongMul(p, d, d, x, acc * inv);
    assert d * (acc * inv) == acc * (d * inv);
    CongRefl(p, acc);
    CongMul(p, acc, acc, d * inv, 1);
    CongNorm(p, b - known);
    CongRefl(p, known);
    CongAdd(p, known, known, d * x, b - known);
    CongNorm(p, b);
    CongUnique(p, b, b % p);
  }

  lemma {:induction false} DotPrefix(u: seq<int>, x: seq<int>, y: seq<int>, n: nat)
    requires n <= |u| && n <= |x| <= |y| && y[..|x|] == x
    ensures Dot(u, x, n) == Dot(u, y, n)
  {
    if n > 0 {
      DotPrefix(u, x, y, n - 1);
      assert x[n - 1] == y[n - 1];
    }
  }

  /** Forward substitution finds a vector that `L` takes to `b`. */
  method InverseMatvecLower(p: int, l: seq<seq<int>>, b: seq<int>) returns (x: seq<int>)
    requires IsPrime(p) && LowerTriangular(l, p) && |b| == |l| && AllIn(p, b)
    ensures Square(l) && |x| == |b| && AllIn(p, x) && LowerApply(p, l, x) == b
  {
    TriangularIsSquare(l, p);
    hide IsPrime, Inverse, Dot;
    x := [];
    var i := 0;
    while i < |b|
      invariant i <= |b| && |x| == i && AllIn(p, x)
      invariant forall k :: 0 <= k < i ==> Dot(l[k], x, k + 1) % p == b[k]
    {
      assert TriangularRow(l[i], p, |l|, i);
      var acc := Residue(p, l[i], b[i], x);
      var xi := acc * Inverse(p, l[i][i]) % p;
      ghost var x' := x + [xi];
      RowSolved(p, l[i][i], b[i], Dot(l[i], x, i), acc, xi);
      DotStep(l[i], x, xi);
      CongNorm(p, acc * Inverse(p, l[i][i]));
      forall k | 0 <= k < i ensures Dot(l[k], x', k + 1) % p == b[k] {
        DotPrefix(l[k], x, x', k + 1);
      }
      x := x + [xi];
      i := i + 1;
    }
    assert LowerApply(p, l, x) == b;
  }

  lemma DotStep(u: seq<int>, x: seq<int>, xi: int)
    requires |x| < |u|
    ensures Dot(u, x + [xi], |x| + 1) == Dot(u, x, |x|) + u[|x|] * xi
  {
    DotPrefix(u, x, x + [xi], |x|);
  }

  /** `L` takes different vectors to different ones. */
  lemma LowerInjective(p: int, l: seq<seq<int>>, x: seq<int>, y: seq<int>)
    requires IsPrime(p) && LowerTriangular(l, p) && |x| == |y| == |l| && AllIn(p, x) && AllIn(p, y)
    requires Square(l) && LowerApply(p, l, x) == LowerApply(p, l, y)
    ensures x == y
  {
    LowerInjectiveUpTo(p, l, x, y, |x|);
  }

  lemma {:induction false} LowerInjectiveUpTo(p: int, l: seq<seq<int>>, x: seq<int>, y: seq<int>, n: nat)
    requires IsPrime(p) && LowerTriangular(l, p) && |x| == |y| == |l| && AllIn(p, x) && AllIn(p, y)
    requires Square(l) && LowerApply(p, l, x) == LowerApply(p, l, y) && n <= |x|
    ensures x[..n] == y[..n]
  {
    if n > 0 {
      var i := n - 1;
      LowerInjectiveUpTo(p, l, x, y, i);
      DotPrefix(l[i], x[..i], x, i);
      DotPrefix(l[i], y[..i], y, i);
      assert LowerApply(p, l, x)[i] == LowerApply(p, l, y)[i];
      assert TriangularRow(l[i], p, |l|, i);
      Cancel(p, l[i][i], Dot(l[i], x, i), x[i], y[i]);
      assert x[..n] == x[..i] + [x[i]] && y[..n] == y[..i] + [y[i]];
    }
  }

  lemma Cancel(p: int, d: int, known: int, x: int, y: int)
    requires IsPrime(p) && 0 < d < p && InField(p, x) && InField(p, y) && Cong(p, known + d * x, known + d * y)
    ensures x == y
  {
    var inv := Inverse(p, d);
    InverseWorks(p, d);
    CongRefl(p, known);
    CongAdd(p, known + d * x, known + d * y, known, known);
    CongRefl(p, inv);
    CongMul(p, inv, inv, d * x, d * y);
    Unscale(p, d, inv, x);
    Unscale(p, d, inv, y);
    hide Inverse, IsPrime;
    assert Cong(p, x, y);
    CongUnique(p, x, y);
  }

  lemma Unscale(p: int, d: int, inv: int, x: int)
    requires p > 0 && Cong(p, d * inv, 1)
    ensures Cong(p, inv * (d * x), x)
  {
    CongRefl(p, x);
    CongMul(p, d * inv, 1, x, x);
    assert inv * (d * x) == (d * inv) * x;
  }

  // ---------------------------------------------------------------- uncloak

  method UncloakVector(p: int, key: Key, cloaked: seq<int>) returns (v: seq<int>)
    requires IsPrime(p) && ValidKey(key, p) && |cloaked| == |key.l| && AllIn(p, cloaked)
    ensures |v| == |cloaked| && AllIn(p, v) && Cloaked(p, key, v) == cloaked
  {
    hide IsPrime, LowerTriangular, IsPermutation, LowerApply;
    PermutationInRange(key.perm);
    var lv := Scatter(cloaked, key.perm, 0);
    ScatteredIn(p, cloaked, lv, key.perm);
    v := InverseMatvecLower(p, key.l, lv);
  }

  lemma ScatteredIn(p: int, s: seq<int>, r: seq<int>, perm: seq<nat>)
    requires AllIn(p, s) && IsPermutation(perm) && |s| == |r| == |perm|
    requires (forall i :: 0 <= i < |perm| ==> perm[i] < |s|) && Gathered(r, perm) == s
    ensures AllIn(p, r)
  {
    var inv :| Inverts(perm, inv);
    forall k | 0 <= k < |r| ensures InField(p, r[k]) {
      assert s[inv[k]] == r[k];
    }
  }

  /** A vector is the only one with its cloak. */
  lemma CloakInjective(p: int, key: Key, v: seq<int>, w: seq<int>)
    requires IsPrime(p) && ValidKey(key, p) && |v| == |w| == |key.l| && AllIn(p, v) && AllIn(p, w)
    requires Cloaked(p, key, v) == Cloaked(p, key, w)
    ensures v == w
  {
    assert p > 0;
    hide IsPrime, LowerTriangular, LowerApply;
    TriangularIsSquare(key.l, p);
    GatherInjective(LowerApply(p, key.l, v), LowerApply(p, key.l, w), key.perm);
    LowerInjective(p, key.l, v, w);
  }

  method RoundTrip(p: int, key: Key, v: seq<int>) returns (back: seq<int>)
    requires IsPrime(p) && ValidKey(key, p) && |v| == |key.l| && AllIn(p, v)
    ensures back == v
  {
    assert p > 0;
    hide IsPrime, LowerTriangular, IsPermutation, Cloaked;
    var out := CloakVector(p, key, v);
    CloakedIn(p, key, v);
    back := UncloakVector(p, key, out);
    CloakInjective(p, key, back, v);
  }

  lemma CloakedIn(p: int, key: Key, v: seq<int>)
    requires p > 0 && ValidKey(key, p) && |v| == |key.l|
    ensures AllIn(p, Cloaked(p, key, v))
  {
    hide LowerTriangular, IsPermutation;
    TriangularIsSquare(key.l, p);
    PermutationInRange(key.perm);
  }

  /** The cloak is linear. */
  lemma CloakLinear(p: int, key: Key, c: int, v: seq<int>, d: int, w: seq<int>, i: nat)
    requires p > 0 && ValidKey(key, p) && |v| == |w| == |key.l| && i < |v|
    ensures Cong(p, Cloaked(p, key, Combine(c, v, d, w))[i], c * Cloaked(p, key, v)[i] + d * Cloaked(p, key, w)[i])
  {
    TriangularIsSquare(key.l, p);
    PermutationInRange(key.perm);
    hide LowerTriangular, IsPermutation;
    var k := key.perm[i];
    DotCombine(key.l[k], c, v, d, w, k + 1);
    var sv, sw := Dot(key.l[k], v, k + 1), Dot(key.l[k], w, k + 1);
    CongNorm(p, c * sv + d * sw);
    CongNorm(p, sv);
    CongNorm(p, sw);
    CongRefl(p, c);
    CongRefl(p, d);
    CongMul(p, c, c, sv % p, sv);
    CongMul(p, d, d, sw % p, sw);
    CongAdd(p, c * (sv % p), c * sv, d * (sw % p), d * sw);
  }
}
