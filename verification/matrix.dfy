/**
 4x4 homogeneous transforms over the reals, as the numpy arrays the pose
 estimator builds and multiplies: row-major, `m[i][j]` is row `i`, column `j`.
 */
module Matrix {
  import opened Geometry

  ghost predicate IsSquare4(m: seq<seq<real>>) {
    |m| == 4 && forall i :: 0 <= i < 4 ==> |m[i]| == 4
  }

  type Mat4 = m: seq<seq<real>> | IsSquare4(m)
    witness [[0.0, 0.0, 0.0, 0.0], [0.0, 0.0, 0.0, 0.0], [0.0, 0.0, 0.0, 0.0], [0.0, 0.0, 0.0, 0.0]]

  ghost predicate IsSquare3(m: seq<seq<real>>) {
    |m| == 3 && forall i :: 0 <= i < 3 ==> |m[i]| == 3
  }

  /** A 3x3 array: the rotation block of a pose. */
  type Mat3 = m: seq<seq<real>> | IsSquare3(m)
    witness [[0.0, 0.0, 0.0], [0.0, 0.0, 0.0], [0.0, 0.0, 0.0]]

  /** `np.array([a, b, c])`: the 3x3 array whose rows are `a`, `b`, `c`. */
  function Rows(a: Vec3, b: Vec3, c: Vec3): Mat3 {
    [[a.x, a.y, a.z], [b.x, b.y, b.z], [c.x, c.y, c.z]]
  }

  /** `m.T` */
  function Transpose(m: Mat3): Mat3 {
    seq(3, i requires 0 <= i < 3 => seq(3, j requires 0 <= j < 3 => m[j][i]))
  }

  /**
   `pose = np.eye(4)`, then `pose[:3, :3] = rot` and `pose[:3, 3] = t`: the
   homogeneous transform with rotation block `rot` and translation `t`.
   */
  function Homogeneous(rot: Mat3, t: Vec3): Mat4 {
    seq(4, i requires 0 <= i < 4 => seq(4, j requires 0 <= j < 4 =>
      if i < 3 && j < 3 then rot[i][j]
      else if i < 3 then At(t, i)
      else if i == j then 1.0 else 0.0))
  }

  /** `np.eye(4)` */
  function Identity(): (m: Mat4)
    ensures forall i, j :: 0 <= i < 4 && 0 <= j < 4 ==> m[i][j] == if i == j then 1.0 else 0.0
  {
    seq(4, i requires 0 <= i < 4 => seq(4, j requires 0 <= j < 4 => if i == j then 1.0 else 0.0))
  }

  /** Entry (i, j) of the product `a @ b`. */
  function MulEntry(a: Mat4, b: Mat4, i: nat, j: nat): real
    requires i < 4 && j < 4
  {
    a[i][0] * b[0][j] + a[i][1] * b[1][j] + a[i][2] * b[2][j] + a[i][3] * b[3][j]
  }

  /** The matrix product `a @ b`. */
  function Mul(a: Mat4, b: Mat4): Mat4 {
    seq(4, i requires 0 <= i < 4 => seq(4, j requires 0 <= j < 4 => MulEntry(a, b, i, j)))
  }

  /** Column `j` (0..3) of the upper three rows: an axis of the rotation block, or the translation for `j == 3`. */
  function Column(m: Mat4, j: nat): Vec3
    requires j < 4
  {
    Vec3(m[0][j], m[1][j], m[2][j])
  }

  /** The bottom row is [0, 0, 0, 1]: `m` is an affine transform. */
  predicate IsAffine(m: Mat4) {
    m[3][0] == 0.0 && m[3][1] == 0.0 && m[3][2] == 0.0 && m[3][3] == 1.0
  }

  /** `inv` is the inverse of `m` on both sides, as `np.linalg.inv(m)` returns for an invertible `m`. */
  predicate IsInverse(m: Mat4, inv: Mat4) {
    Mul(m, inv) == Identity() && Mul(inv, m) == Identity()
  }

  /**
   The upper three rows of `m` applied to the homogeneous vector (v, w): a
   point when `w == 1`, a direction when `w == 0`.
   */
  function Transform(m: Mat4, v: Vec3, w: real): Vec3 {
    Vec3(m[0][0] * v.x + m[0][1] * v.y + m[0][2] * v.z + m[0][3] * w,
         m[1][0] * v.x + m[1][1] * v.y + m[1][2] * v.z + m[1][3] * w,
         m[2][0] * v.x + m[2][1] * v.y + m[2][2] * v.z + m[2][3] * w)
  }

  /**
   The rotation block of `m` is a proper rotation: its columns are unit
   length and pairwise orthogonal (RᵀR = I) and its determinant is +1.
   */
  ghost predicate IsProperRotation(m: Mat4) {
    var c0, c1, c2 := Column(m, 0), Column(m, 1), Column(m, 2);
    NormSq(c0) == 1.0 && NormSq(c1) == 1.0 && NormSq(c2) == 1.0 &&
    Dot(c0, c1) == 0.0 && Dot(c0, c2) == 0.0 && Dot(c1, c2) == 0.0 &&
    Det3(c0, c1, c2) == 1.0
  }

  /** A rigid-body transform: an affine matrix whose rotation block is a proper rotation. */
  ghost predicate IsRigid(m: Mat4) {
    IsAffine(m) && IsProperRotation(m)
  }

  /**
   Multiplying by `b` on the right: each column of `b`'s upper three rows,
   read as a direction (columns 0..2) or a point (column 3) when `b` is
   affine, is carried by `a`.
   */
  lemma MulColumns(a: Mat4, b: Mat4)
    requires IsAffine(b)
    ensures forall j :: 0 <= j < 3 ==> Column(Mul(a, b), j) == Transform(a, Column(b, j), 0.0)
    ensures Column(Mul(a, b), 3) == Transform(a, Column(b, 3), 1.0)
  {
    var p := Mul(a, b);
    forall j | 0 <= j < 4
      ensures Column(p, j) == Transform(a, Column(b, j), if j < 3 then 0.0 else 1.0)
    {
      var w := if j < 3 then 0.0 else 1.0;
      assert b[3][j] == w;
      assert p[0][j] == a[0][0] * b[0][j] + a[0][1] * b[1][j] + a[0][2] * b[2][j] + a[0][3] * w;
      assert p[1][j] == a[1][0] * b[0][j] + a[1][1] * b[1][j] + a[1][2] * b[2][j] + a[1][3] * w;
      assert p[2][j] == a[2][0] * b[0][j] + a[2][1] * b[1][j] + a[2][2] * b[2][j] + a[2][3] * w;
    }
    assert Column(p, 3) == Transform(a, Column(b, 3), 1.0);
  }

  /** The product of two affine transforms is affine. */
  lemma MulAffine(a: Mat4, b: Mat4)
    requires IsAffine(a) && IsAffine(b)
    ensures IsAffine(Mul(a, b))
  {
  }

  lemma MulAssocEntry(a: Mat4, b: Mat4, c: Mat4, i: nat, j: nat)
    requires i < 4 && j < 4
    ensures Mul(Mul(a, b), c)[i][j] == Mul(a, Mul(b, c))[i][j]
  {
    var ab, bc := Mul(a, b), Mul(b, c);
    assert Mul(ab, c)[i][j] == ab[i][0] * c[0][j] + ab[i][1] * c[1][j] + ab[i][2] * c[2][j] + ab[i][3] * c[3][j];
    assert Mul(a, bc)[i][j] == a[i][0] * bc[0][j] + a[i][1] * bc[1][j] + a[i][2] * bc[2][j] + a[i][3] * bc[3][j];
  }

  /** Matrix multiplication is associative: `(a @ b) @ c == a @ (b @ c)`. */
  lemma MulAssoc(a: Mat4, b: Mat4, c: Mat4)
    ensures Mul(Mul(a, b), c) == Mul(a, Mul(b, c))
  {
    var l, r := Mul(Mul(a, b), c), Mul(a, Mul(b, c));
    forall i | 0 <= i < 4 ensures l[i] == r[i] {
      forall j | 0 <= j < 4 ensures l[i][j] == r[i][j] {
        MulAssocEntry(a, b, c, i, j);
      }
    }
  }

  /** The identity is neutral on the left. */
  lemma MulIdentityLeft(m: Mat4)
    ensures Mul(Identity(), m) == m
  {
    var p := Mul(Identity(), m);
    forall i | 0 <= i < 4 ensures p[i] == m[i] {
      assert forall j :: 0 <= j < 4 ==> p[i][j] == m[i][j];
    }
  }

  /** Row `[c, -(c · t)]` of the inverse of a rigid transform, for a rotation column `c` and translation `t`. */
  function InverseRow(c: Vec3, t: Vec3): seq<real> {
    [c.x, c.y, c.z, -Dot(c, t)]
  }

  /**
   The inverse of a rigid transform without a general matrix inverse: the
   transposed rotation block and the translation −Rᵀt.
   */
  function RigidInverse(m: Mat4): Mat4 {
    seq(4, i requires 0 <= i < 4 => if i < 3 then InverseRow(Column(m, i), Column(m, 3)) else [0.0, 0.0, 0.0, 1.0])
  }

  /** Undoing a rigid transform: `RigidInverse(m) @ m` is the identity. */
  lemma RigidInverseLeft(m: Mat4)
    requires IsRigid(m)
    ensures Mul(RigidInverse(m), m) == Identity()
  {
    var p, id := Mul(RigidInverse(m), m), Identity();
    forall i | 0 <= i < 4 ensures p[i] == id[i] {
      forall j | 0 <= j < 4 ensures p[i][j] == id[i][j] {
        if i < 3 && j < 3 {
          RotationColumnsDot(m, i, j);
        }
        RigidInverseEntry(m, i, j);
      }
    }
  }

  /** The rotation columns of a proper rotation are orthonormal, in either order. */
  lemma RotationColumnsDot(m: Mat4, i: nat, j: nat)
    requires IsProperRotation(m) && i < 3 && j < 3
    ensures Dot(Column(m, i), Column(m, j)) == if i == j then 1.0 else 0.0
  {
    var c0, c1, c2 := Column(m, 0), Column(m, 1), Column(m, 2);
    assert Dot(c1, c0) == Dot(c0, c1) && Dot(c2, c0) == Dot(c0, c2) && Dot(c2, c1) == Dot(c1, c2);
    if i == 0 {
      assert Column(m, i) == c0;
    } else if i == 1 {
      assert Column(m, i) == c1;
    } else {
      assert Column(m, i) == c2;
    }
  }

  /** Entry (i, j) of `RigidInverse(m) @ m`: column i of the rotation block dotted with column j. */
  lemma RigidInverseEntry(m: Mat4, i: nat, j: nat)
    requires IsAffine(m) && i < 4 && j < 4
    requires i < 3 && j < 3 ==> Dot(Column(m, i), Column(m, j)) == if i == j then 1.0 else 0.0
    ensures Mul(RigidInverse(m), m)[i][j] == if i == j then 1.0 else 0.0
  {
    var inv := RigidInverse(m);
    assert Mul(inv, m)[i][j] == inv[i][0] * m[0][j] + inv[i][1] * m[1][j] + inv[i][2] * m[2][j] + inv[i][3] * m[3][j];
    if i < 3 {
      var ci, cj := Column(m, i), Column(m, j);
      assert inv[i] == InverseRow(ci, Column(m, 3));
      assert inv[i][0] * m[0][j] + inv[i][1] * m[1][j] + inv[i][2] * m[2][j] == Dot(ci, cj);
    }
  }

  /** Applying `a @ b` to a point or direction applies `b`, then `a`. */
  lemma TransformMul(a: Mat4, b: Mat4, v: Vec3, w: real)
    requires IsAffine(b)
    ensures Transform(Mul(a, b), v, w) == Transform(a, Transform(b, v, w), w)
  {
    var ab, bv := Mul(a, b), Transform(b, v, w);
    var lhs, rhs := Transform(ab, v, w), Transform(a, bv, w);
    assert lhs.x == rhs.x by {
      TransformMulEntries(a, b, 0);
      TransformMulRow(a[0][0], a[0][1], a[0][2], a[0][3], ab[0][0], ab[0][1], ab[0][2], ab[0][3], b, v, w);
    }
    assert lhs.y == rhs.y by {
      TransformMulEntries(a, b, 1);
      TransformMulRow(a[1][0], a[1][1], a[1][2], a[1][3], ab[1][0], ab[1][1], ab[1][2], ab[1][3], b, v, w);
    }
    assert lhs.z == rhs.z by {
      TransformMulEntries(a, b, 2);
      TransformMulRow(a[2][0], a[2][1], a[2][2], a[2][3], ab[2][0], ab[2][1], ab[2][2], ab[2][3], b, v, w);
    }
  }

  /** Row `i` of `a @ b`, entry by entry. */
  lemma TransformMulEntries(a: Mat4, b: Mat4, i: nat)
    requires i < 4
    ensures var ab := Mul(a, b);
      ab[i][0] == a[i][0] * b[0][0] + a[i][1] * b[1][0] + a[i][2] * b[2][0] + a[i][3] * b[3][0] &&
      ab[i][1] == a[i][0] * b[0][1] + a[i][1] * b[1][1] + a[i][2] * b[2][1] + a[i][3] * b[3][1] &&
      ab[i][2] == a[i][0] * b[0][2] + a[i][1] * b[1][2] + a[i][2] * b[2][2] + a[i][3] * b[3][2] &&
      ab[i][3] == a[i][0] * b[0][3] + a[i][1] * b[1][3] + a[i][2] * b[2][3] + a[i][3] * b[3][3]
  {
  }

  /** One row of `TransformMul`: (e0, e1, e2, e3) is the row (p, q, r, s) of `a` times `b`. */
  lemma TransformMulRow(p: real, q: real, r: real, s: real, e0: real, e1: real, e2: real, e3: real,
                        b: Mat4, v: Vec3, w: real)
    requires IsAffine(b)
    requires e0 == p * b[0][0] + q * b[1][0] + r * b[2][0] + s * b[3][0]
    requires e1 == p * b[0][1] + q * b[1][1] + r * b[2][1] + s * b[3][1]
    requires e2 == p * b[0][2] + q * b[1][2] + r * b[2][2] + s * b[3][2]
    requires e3 == p * b[0][3] + q * b[1][3] + r * b[2][3] + s * b[3][3]
    ensures var bv := Transform(b, v, w);
      e0 * v.x + e1 * v.y + e2 * v.z + e3 * w == p * bv.x + q * bv.y + r * bv.z + s * w
  {
  }

  /** The identity leaves every point and direction where it is. */
  lemma TransformIdentity(v: Vec3, w: real)
    ensures Transform(Identity(), v, w) == v
  {
  }

  /** The inverse of an affine matrix is affine: its bottom row is that of `m @ inv`, the identity's. */
  lemma InverseOfAffine(m: Mat4, inv: Mat4)
    requires IsAffine(m) && IsInverse(m, inv)
    ensures IsAffine(inv)
  {
    var p := Mul(m, inv);
    forall j | 0 <= j < 4 ensures inv[3][j] == Identity()[3][j] {
      assert p[3][j] == m[3][0] * inv[0][j] + m[3][1] * inv[1][j] + m[3][2] * inv[2][j] + m[3][3] * inv[3][j];
    }
  }
}
