/** Arithmetic modulo a prime, on canonical representatives `0 <= x < p`. The modulus is a parameter: what follows
    holds for every prime, the Pallas base field's among them. */
module Field {

  /** The modulus of the Pallas base field. */
  const PALLAS: int := 0x40000000000000000000000000000000224698fc094cf91b992d30ed00000001

  predicate InField(p: int, x: int) {
    0 <= x < p
  }

  predicate AllIn(p: int, v: seq<int>) {
    forall i :: 0 <= i < |v| ==> InField(p, v[i])
  }

  predicate Cong(p: int, a: int, b: int)
    requires p > 0
  {
    a % p == b % p
  }

  // ---------------------------------------------------------------- congruence

  lemma DivModUnique(p: int, x: int, q: int, r: int)
    requires 0 <= r < p && x == q * p + r
    ensures x % p == r
  {
    var d := x / p - q;
    assert d * p == (x / p) * p - q * p;
    assert d * p == r - x % p;
    assert d >= 1 ==> d * p >= p;
    assert d <= -1 ==> d * p <= -p;
  }

  lemma CongByMultiple(p: int, a: int, b: int, k: int)
    requires p > 0 && a == b + k * p
    ensures Cong(p, a, b)
  {
    assert a == (b / p + k) * p + b % p;
    DivModUnique(p, a, b / p + k, b % p);
  }

  lemma CongMultiple(p: int, a: int, b: int) returns (k: int)
    requires p > 0 && Cong(p, a, b)
    ensures a == b + k * p
  {
    k := a / p - b / p;
    assert k * p == (a / p) * p - (b / p) * p;
  }

  lemma CongNorm(p: int, a: int)
    requires p > 0
    ensures Cong(p, a % p, a) && InField(p, a % p)
  {
    CongByMultiple(p, a % p, a, -(a / p));
  }

  lemma CongUnique(p: int, a: int, b: int)
    requires p > 0 && Cong(p, a, b) && InField(p, a) && InField(p, b)
    ensures a == b
  {
    DivModUnique(p, a, 0, a);
    DivModUnique(p, b, 0, b);
  }

  lemma CongAdd(p: int, a: int, a': int, b: int, b': int)
    requires p > 0 && Cong(p, a, a') && Cong(p, b, b')
    ensures Cong(p, a + b, a' + b') && Cong(p, a - b, a' - b')
  {
    var k := CongMultiple(p, a, a');
    var l := CongMultiple(p, b, b');
    assert (k + l) * p == k * p + l * p && (k - l) * p == k * p - l * p;
    CongByMultiple(p, a + b, a' + b', k + l);
    CongByMultiple(p, a - b, a' - b', k - l);
  }

  lemma CongMul(p: int, a: int, a': int, b: int, b': int)
    requires p > 0 && Cong(p, a, a') && Cong(p, b, b')
    ensures Cong(p, a * b, a' * b')
  {
    var k := CongMultiple(p, a, a');
    var l := CongMultiple(p, b, b');
    calc {
      a * b;
      (a' + k * p) * (b' + l * p);
      a' * b' + a' * (l * p) + (k * p) * b' + (k * p) * (l * p);
      a' * b' + (a' * l + k * b' + k * (l * p)) * p;
    }
    CongByMultiple(p, a * b, a' * b', a' * l + k * b' + k * (l * p));
  }

  // ---------------------------------------------------------------- inverses

  ghost predicate Factors(p: int, d: int, e: int) {
    d * e == p
  }

  ghost predicate IsPrime(p: int) {
    p > 1 && forall d, e :: d > 1 && e > 1 ==> !Factors(p, d, e)
  }

  /** A common divisor `g` of two numbers, as a combination of them. */
  datatype Bezout = Bezout(g: int, x: int, y: int, ka: int, kb: int)

  predicate IsBezout(z: Bezout, a: int, b: int) {
    z.g > 0 && a * z.x + b * z.y == z.g && a == z.g * z.ka && b == z.g * z.kb
  }

  /** The extended Euclidean algorithm. */
  function Euclid(a: int, b: int): (z: Bezout)
    requires a > 0 && b >= 0
    ensures IsBezout(z, a, b)
    decreases b
  {
    if b == 0 then Bezout(a, 1, 0, 1, 0)
    else
      var s := Euclid(b, a % b);
      var z := Bezout(s.g, s.y, s.x - (a / b) * s.y, s.ka * (a / b) + s.kb, s.ka);
      EuclidStep(a, b, s);
      z
  }

  lemma EuclidStep(a: int, b: int, s: Bezout)
    requires b > 0 && IsBezout(s, b, a % b)
    ensures IsBezout(Bezout(s.g, s.y, s.x - (a / b) * s.y, s.ka * (a / b) + s.kb, s.ka), a, b)
  {
    var q := a / b;
    assert a == b * q + a % b;
    calc {
      a * s.y + b * (s.x - q * s.y);
      (b * q + a % b) * s.y + b * s.x - b * (q * s.y);
      b * (q * s.y) + (a % b) * s.y + b * s.x - b * (q * s.y);
      s.g;
    }
    calc {
      s.g * (s.ka * q + s.kb);
      s.g * s.ka * q + s.g * s.kb;
      b * q + a % b;
    }
  }

  /** The multiplicative inverse. */
  function Inverse(p: int, a: int): int
    requires 0 < a < p
  {
    Euclid(a, p).x % p
  }

  lemma InverseWorks(p: int, a: int)
    requires IsPrime(p) && 0 < a < p
    ensures InField(p, Inverse(p, a)) && Cong(p, a * Inverse(p, a), 1)
  {
    var z := Euclid(a, p);
    assert Factors(p, z.g, z.kb);
    assert z.ka >= 1;
    assert z.g * z.ka >= z.g;
    assert z.kb > 1;
    assert z.g == 1;
    assert a * z.x == 1 + (-z.y) * p;
    CongByMultiple(p, a * z.x, 1, -z.y);
    CongNorm(p, z.x);
    CongMul(p, a, a, z.x % p, z.x);
  }

  // ---------------------------------------------------------------- dot products

  /** `u[0]*v[0] + … + u[n-1]*v[n-1]`, over the integers. */
  function Dot(u: seq<int>, v: seq<int>, n: nat): int
    requires n <= |u| && n <= |v|
  {
    if n == 0 then 0 else Dot(u, v, n - 1) + u[n - 1] * v[n - 1]
  }

  lemma {:induction false} DotCong(p: int, u: seq<int>, v: seq<int>, v': seq<int>, n: nat)
    requires p > 0 && n <= |u| && n <= |v| && n <= |v'|
    requires forall i :: 0 <= i < n ==> Cong(p, v[i], v'[i])
    ensures Cong(p, Dot(u, v, n), Dot(u, v', n))
  {
    if n > 0 {
      DotCong(p, u, v, v', n - 1);
      hide Cong;
      CongRefl(p, u[n - 1]);
      CongMul(p, u[n - 1], u[n - 1], v[n - 1], v'[n - 1]);
      CongAdd(p, Dot(u, v, n - 1), Dot(u, v', n - 1), u[n - 1] * v[n - 1], u[n - 1] * v'[n - 1]);
    }
  }

  lemma CongRefl(p: int, a: int)
    requires p > 0
    ensures Cong(p, a, a)
  {
  }

  /** `c*v + d*w`, over the integers. */
  function Combine(c: int, v: seq<int>, d: int, w: seq<int>): (r: seq<int>)
    requires |v| == |w|
    ensures |r| == |v|
  {
    seq(|v|, i requires 0 <= i < |v| => c * v[i] + d * w[i])
  }

  lemma {:induction false} DotCombine(u: seq<int>, c: int, v: seq<int>, d: int, w: seq<int>, n: nat)
    requires n <= |u| && n <= |v| == |w|
    ensures Dot(u, Combine(c, v, d, w), n) == c * Dot(u, v, n) + d * Dot(u, w, n)
  {
    if n > 0 {
      DotCombine(u, c, v, d, w, n - 1);
      CombineTerms(u[n - 1], c, v[n - 1], Dot(u, v, n - 1), d, w[n - 1], Dot(u, w, n - 1));
    }
  }

  lemma CombineTerms(z: int, c: int, x: int, s: int, d: int, y: int, t: int)
    ensures c * (s + z * x) + d * (t + z * y) == c * s + d * t + z * (c * x + d * y)
  {
    assert z * (c * x) == c * (z * x) && z * (d * y) == d * (z * y);
  }
}
