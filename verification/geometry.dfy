/**
 Three-dimensional vectors over the mathematical reals, with the handful of
 numpy operations the pose estimator uses on them: difference, scaling,
 negation, dot product, cross product and the Euclidean length.

 numpy works on IEEE doubles; here every operation is exact. The length
 (`np.linalg.norm`) is a square root, which has no closed form over the reals
 in Dafny, so it appears as the relation `IsNorm(v, n)`: `n` is the length of
 `v` exactly when `n >= 0` and `n * n` is the squared length of `v`.
 */
module Geometry {

  datatype Vec3 = Vec3(x: real, y: real, z: real)

  /** Component `i` (0, 1 or 2) of `v`, as numpy's `v[i]`. */
  function At(v: Vec3, i: nat): real
    requires i < 3
  {
    if i == 0 then v.x else if i == 1 then v.y else v.z
  }

  function Sub(a: Vec3, b: Vec3): Vec3 {
    Vec3(a.x - b.x, a.y - b.y, a.z - b.z)
  }

  function Scale(k: real, v: Vec3): Vec3 {
    Vec3(k * v.x, k * v.y, k * v.z)
  }

  function Neg(v: Vec3): Vec3 {
    Vec3(-v.x, -v.y, -v.z)
  }

  function Dot(a: Vec3, b: Vec3): real {
    a.x * b.x + a.y * b.y + a.z * b.z
  }

  /** `np.cross(a, b)` */
  function Cross(a: Vec3, b: Vec3): Vec3 {
    Vec3(a.y * b.z - a.z * b.y, a.z * b.x - a.x * b.z, a.x * b.y - a.y * b.x)
  }

  function NormSq(v: Vec3): real {
    Dot(v, v)
  }

  /** `n` is the Euclidean length of `v`, i.e. the value `np.linalg.norm(v)` returns. */
  predicate IsNorm(v: Vec3, n: real) {
    n >= 0.0 && n * n == NormSq(v)
  }

  /** Determinant of the 3x3 matrix whose columns are `a`, `b`, `c` (the scalar triple product). */
  function Det3(a: Vec3, b: Vec3, c: Vec3): real {
    a.x * (b.y * c.z - c.y * b.z) - b.x * (a.y * c.z - c.y * a.z) + c.x * (a.y * b.z - b.y * a.z)
  }

  /** A length is determined by its vector: two lengths of one vector are equal. */
  lemma NormUnique(v: Vec3, n: real, m: real)
    requires IsNorm(v, n) && IsNorm(v, m)
    ensures n == m
  {
    assert n * n == m * m;
    if n > m {
      assert (n - m) * (n + m) == n * n - m * m;
      MulPositive(n - m, n + m);
    } else if m > n {
      assert (m - n) * (m + n) == m * m - n * n;
      MulPositive(m - n, m + n);
    }
  }

  /** A vector has length 1 exactly when its squared length is 1. */
  lemma UnitNorm(v: Vec3, n: real)
    requires IsNorm(v, n)
    ensures n == 1.0 <==> NormSq(v) == 1.0
  {
    if NormSq(v) == 1.0 {
      NormUnique(v, n, 1.0);
    }
  }

  /** Lengths and squared lengths are ordered alike. */
  lemma NormMonotone(u: Vec3, n: real, v: Vec3, m: real)
    requires IsNorm(u, n) && IsNorm(v, m)
    ensures n <= m <==> NormSq(u) <= NormSq(v)
  {
    assert (m - n) * (m + n) == NormSq(v) - NormSq(u);
    if n <= m {
      MulNonNegative(m - n, m + n);
    } else {
      MulPositive(n - m, n + m);
    }
  }

  lemma MulNonNegative(a: real, b: real)
    requires a >= 0.0 && b >= 0.0
    ensures a * b >= 0.0
  {
  }

  lemma MulPositive(a: real, b: real)
    requires a > 0.0 && b > 0.0
    ensures a * b > 0.0
  {
  }

  /** The cross product is perpendicular to both of its factors. */
  lemma CrossOrthogonal(a: Vec3, b: Vec3)
    ensures Dot(Cross(a, b), a) == 0.0 && Dot(Cross(a, b), b) == 0.0
  {
  }

  /** Swapping the factors of a cross product negates it. */
  lemma CrossAntiCommutes(a: Vec3, b: Vec3)
    ensures Cross(b, a) == Neg(Cross(a, b))
  {
  }

  /** Lagrange's identity: |a × b|² = |a|²|b|² − (a · b)². */
  lemma Lagrange(a: Vec3, b: Vec3)
    ensures NormSq(Cross(a, b)) == NormSq(a) * NormSq(b) - Dot(a, b) * Dot(a, b)
  {
  }

  /** The vector triple product expansion: a × (a × b) = a (a · b) − b (a · a). */
  lemma DoubleCross(a: Vec3, b: Vec3)
    ensures Cross(a, Cross(a, b)) == Sub(Scale(Dot(a, b), a), Scale(Dot(a, a), b))
  {
    var d, s := Dot(a, b), Dot(a, a);
    DoubleCrossFirst(a.x, a.y, a.z, b.x, b.y, b.z, d, s);
    DoubleCrossFirst(a.y, a.z, a.x, b.y, b.z, b.x, d, s);
    DoubleCrossFirst(a.z, a.x, a.y, b.z, b.x, b.y, d, s);
  }

  /** The first component of a × (a × b), for a = (p, q, r) and b = (u, v, w); the others follow by rotation. */
  lemma DoubleCrossFirst(p: real, q: real, r: real, u: real, v: real, w: real, d: real, s: real)
    requires d == p * u + q * v + r * w && s == p * p + q * q + r * r
    ensures q * (p * v - q * u) - r * (r * u - p * w) == d * p - s * u
  {
    assert q * (p * v - q * u) == p * q * v - q * q * u;
    assert r * (r * u - p * w) == r * r * u - p * r * w;
    assert d * p == p * p * u + p * q * v + p * r * w;
    assert s * u == p * p * u + q * q * u + r * r * u;
  }

  /** The determinant of the columns a, b, c is the scalar triple product (a × b) · c. */
  lemma Det3IsTripleProduct(a: Vec3, b: Vec3, c: Vec3)
    ensures Det3(a, b, c) == Dot(Cross(a, b), c)
  {
  }

  /** Negating one factor of a triple product negates the product. */
  lemma TripleProductNeg(a: Vec3, b: Vec3, c: Vec3)
    ensures Dot(Cross(a, Neg(b)), c) == -Dot(Cross(a, b), c)
  {
  }
}
