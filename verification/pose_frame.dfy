/**
 The pose-frame builder, `PointCloudPoseEstimator.create_6d_pose_matrix`
 (utils/my_utils.py): from a unit x axis, a unit z axis orthogonal to it and a
 translation, build the 4x4 pose whose rotation columns are x, y, z.

 `np.isclose(a, b)` becomes exact equality. `np.isclose(np.linalg.norm(v), 1)`
 is then the same test as `NormSq(v) == 1` (lemma `Geometry.UnitNorm`), so
 the checks below need no square root.
 */
module PoseFrame {
  import opened Geometry
  import opened Matrix
  import opened Wrappers

  /** Which of the three assertions of `create_6d_pose_matrix` failed, in the order they are made. */
  datatype FrameError = XAxisNotUnit | ZAxisNotUnit | AxesNotOrthogonal

  /**
   `np.array([x, y, z]).T` written into `np.eye(4)` with `t` as the last
   column: the rows x, y, z become columns 0, 1, 2 of the pose.
   */
  function PoseFromAxes(x: Vec3, y: Vec3, z: Vec3, t: Vec3): (m: Mat4)
    ensures IsAffine(m)
    ensures Column(m, 0) == x && Column(m, 1) == y && Column(m, 2) == z && Column(m, 3) == t
  {
    assert At(t, 0) == t.x && At(t, 1) == t.y && At(t, 2) == t.z;
    Homogeneous(Transpose(Rows(x, y, z)), t)
  }

  /**
   The handedness step: negate `y` when (x × y) · z < 0. Whatever the three
   vectors, the result is `y` or its negation and makes (x × y) · z
   non-negative; the test is strict, so `y` is kept when the product is 0.
   */
  function RightHanded(x: Vec3, y: Vec3, z: Vec3): (r: Vec3)
    ensures r == y || r == Neg(y)
    ensures Dot(Cross(x, r), z) >= 0.0
    ensures Dot(Cross(x, y), z) >= 0.0 ==> r == y
  {
    if Dot(Cross(x, y), z) < 0.0 then
      TripleProductNeg(x, y, z);
      Neg(y)
    else
      y
  }

  /**
   What `create_6d_pose_matrix(x_axis, z_axis, translation)` returns or
   raises. `n` is the length `np.linalg.norm` computes for x × z; once the
   checks pass it exists and is 1 (`CrossOfOrthonormalIsUnit`).
   */
  ghost function PoseMatrix(x: Vec3, z: Vec3, t: Vec3): Result<Mat4, FrameError> {
    if NormSq(x) != 1.0 then Failure(XAxisNotUnit)
    else if NormSq(z) != 1.0 then Failure(ZAxisNotUnit)
    else if Dot(x, z) != 0.0 then Failure(AxesNotOrthogonal)
    else
      var y := Cross(x, z);
      CrossOfOrthonormalIsUnit(x, z);
      assert IsNorm(y, 1.0);
      var n :| IsNorm(y, n);
      UnitNorm(y, n);
      Success(PoseFromAxes(x, RightHanded(x, Scale(1.0 / n, y), z), z, t))
  }

  /**
   The builder itself: the three checks, y = normalize(x × z), the
   handedness flip, the rotation `[x, y, z].T`, then the matrix assembly.
   `norm` is `np.linalg.norm`, given as any function that returns each
   vector's length.
   */
  method CreatePoseMatrix(x: Vec3, z: Vec3, t: Vec3, norm: Vec3 -> real) returns (res: Result<Mat4, FrameError>)
    requires forall v :: IsNorm(v, norm(v))
    ensures res == PoseMatrix(x, z, t)
  {
    UnitNorm(x, norm(x));
    UnitNorm(z, norm(z));
    if norm(x) != 1.0 {
      return Failure(XAxisNotUnit);
    }
    if norm(z) != 1.0 {
      return Failure(ZAxisNotUnit);
    }
    if Dot(x, z) != 0.0 {
      return Failure(AxesNotOrthogonal);
    }
    PoseMatrixOfFrame(x, z, t);
    var y := Cross(x, z);
    y := Scale(1.0 / norm(y), y);
    if Dot(Cross(x, y), z) < 0.0 {
      y := Neg(y);
    }
    var rotation := Transpose(Rows(x, y, z));
    var m := AssemblePose(rotation, t);
    res := Success(m);
  }

  /**
   `pose_matrix = np.eye(4)`, then `pose_matrix[:3, :3] = rotation` one
   entry at a time, then `pose_matrix[:3, 3] = translation`.
   */
  method AssemblePose(rotation: Mat3, t: Vec3) returns (m: Mat4)
    ensures m == Homogeneous(rotation, t)
  {
    var pose := new real[4, 4];
    forall r, c | 0 <= r < 4 && 0 <= c < 4 {
      pose[r, c] := if r == c then 1.0 else 0.0;
    }
    var i := 0;
    while i < 3
      invariant 0 <= i <= 3
      invariant forall r, c :: 0 <= r < 4 && 0 <= c < 4 ==>
        pose[r, c] == if r < i && c < 3 then rotation[r][c] else if r == c then 1.0 else 0.0
    {
      var j := 0;
      while j < 3
        invariant 0 <= j <= 3
        invariant forall r, c :: 0 <= r < 4 && 0 <= c < 4 ==>
          pose[r, c] == if (r < i || (r == i && c < j)) && c < 3 then rotation[r][c] else if r == c then 1.0 else 0.0
      {
        pose[i, j] := rotation[i][j];
        j := j + 1;
      }
      i := i + 1;
    }
    var k := 0;
    while k < 3
      invariant 0 <= k <= 3
      invariant forall r, c :: 0 <= r < 4 && 0 <= c < 4 ==>
        pose[r, c] == if r < 3 && c < 3 then rotation[r][c] else if r < k && c == 3 then At(t, r) else if r == c then 1.0 else 0.0
    {
      pose[k, 3] := At(t, k);
      k := k + 1;
    }
    m := seq(4, r requires 0 <= r < 4 reads pose => seq(4, c requires 0 <= c < 4 reads pose => pose[r, c]));
    ghost var h := Homogeneous(rotation, t);
    forall r | 0 <= r < 4 ensures m[r] == h[r] {
      assert forall c :: 0 <= c < 4 ==> m[r][c] == pose[r, c];
    }
  }

  /** Once the checks pass, normalising x × z leaves it unchanged, so the builder's y is the handed x × z. */
  lemma PoseMatrixOfFrame(x: Vec3, z: Vec3, t: Vec3)
    requires NormSq(x) == 1.0 && NormSq(z) == 1.0 && Dot(x, z) == 0.0
    ensures forall n :: IsNorm(Cross(x, z), n) ==> n == 1.0 && Scale(1.0 / n, Cross(x, z)) == Cross(x, z)
    ensures PoseMatrix(x, z, t) == Success(PoseFromAxes(x, RightHanded(x, Cross(x, z), z), z, t))
  {
    CrossOfOrthonormalIsUnit(x, z);
    forall n | IsNorm(Cross(x, z), n)
      ensures n == 1.0 && Scale(1.0 / n, Cross(x, z)) == Cross(x, z)
    {
      UnitNorm(Cross(x, z), n);
    }
  }

  /** For a unit x orthogonal to a unit z, x × z has length 1 (Lagrange's identity). */
  lemma CrossOfOrthonormalIsUnit(x: Vec3, z: Vec3)
    requires NormSq(x) == 1.0 && NormSq(z) == 1.0 && Dot(x, z) == 0.0
    ensures NormSq(Cross(x, z)) == 1.0
  {
    Lagrange(x, z);
  }

  /**
   With np.linalg.norm's lengths `nx` of x and `nz` of z: the builder raises
   for |x| != 1 first, then for |z| != 1, then for x · z != 0, and succeeds
   exactly when none of the three holds.
   */
  lemma PoseMatrixChecks(x: Vec3, z: Vec3, t: Vec3, nx: real, nz: real)
    requires IsNorm(x, nx) && IsNorm(z, nz)
    ensures PoseMatrix(x, z, t) == Failure(XAxisNotUnit) <==> nx != 1.0
    ensures PoseMatrix(x, z, t) == Failure(ZAxisNotUnit) <==> nx == 1.0 && nz != 1.0
    ensures PoseMatrix(x, z, t) == Failure(AxesNotOrthogonal) <==> nx == 1.0 && nz == 1.0 && Dot(x, z) != 0.0
    ensures PoseMatrix(x, z, t).Success? <==> nx == 1.0 && nz == 1.0 && Dot(x, z) == 0.0
  {
    UnitNorm(x, nx);
    UnitNorm(z, nz);
  }

  /**
   For unit, orthogonal x and z the handedness test always fires:
   x × (x × z) = x (x · z) − z (x · x) = −z, so (x × y) · z = −1 < 0 for
   y = x × z, and the final y is −(x × z) = z × x.
   */
  lemma FlipAlwaysFires(x: Vec3, z: Vec3)
    requires NormSq(x) == 1.0 && NormSq(z) == 1.0 && Dot(x, z) == 0.0
    ensures Dot(Cross(x, Cross(x, z)), z) == -1.0
    ensures RightHanded(x, Cross(x, z), z) == Cross(z, x)
  {
    DoubleCross(x, z);
    assert Cross(x, Cross(x, z)) == Neg(z);
    CrossAntiCommutes(x, z);
  }

  /**
   The layout of a successful pose: bottom row [0, 0, 0, 1], translation in
   column 3, the input x and z unchanged in columns 0 and 2, and in column 1
   the unit vector z × x, orthogonal to both.
   */
  lemma PoseMatrixLayout(x: Vec3, z: Vec3, t: Vec3)
    requires PoseMatrix(x, z, t).Success?
    ensures var m := PoseMatrix(x, z, t).value;
      IsAffine(m) && Column(m, 3) == t &&
      Column(m, 0) == x && Column(m, 2) == z && Column(m, 1) == Cross(z, x) &&
      NormSq(Column(m, 1)) == 1.0 && Dot(Column(m, 1), x) == 0.0 && Dot(Column(m, 1), z) == 0.0
  {
    PoseMatrixOfFrame(x, z, t);
    FlipAlwaysFires(x, z);
    CrossOrthogonal(z, x);
    CrossOfOrthonormalIsUnit(z, x);
  }

  /**
   The frame x, z × x, z of unit, orthogonal x and z is orthonormal and
   right-handed: (x × (z × x)) · z = z · z = 1.
   */
  lemma RightHandedFrame(x: Vec3, z: Vec3)
    requires NormSq(x) == 1.0 && NormSq(z) == 1.0 && Dot(x, z) == 0.0
    ensures var y := Cross(z, x);
      NormSq(y) == 1.0 && Dot(x, y) == 0.0 && Dot(y, z) == 0.0 && Det3(x, y, z) == 1.0
  {
    var y := Cross(z, x);
    CrossOfOrthonormalIsUnit(z, x);
    CrossOrthogonal(z, x);
    assert Dot(x, y) == Dot(y, x);
    CrossAntiCommutes(z, x);
    DoubleCross(x, z);
    assert Cross(x, Cross(x, z)) == Neg(z);
    assert Cross(x, y) == z;
    Det3IsTripleProduct(x, y, z);
  }

  /** A successful pose is a rigid-body transform: orthonormal rotation columns with determinant +1. */
  lemma PoseMatrixIsRigid(x: Vec3, z: Vec3, t: Vec3)
    requires PoseMatrix(x, z, t).Success?
    ensures IsRigid(PoseMatrix(x, z, t).value)
  {
    var m := PoseMatrix(x, z, t).value;
    PoseMatrixLayout(x, z, t);
    RightHandedFrame(x, z);
    assert Column(m, 0) == x && Column(m, 1) == Cross(z, x) && Column(m, 2) == z;
  }

  /**
   A successful pose can be undone: `RigidInverse` of it times it is the
   identity, so every point it moves is moved back.
   */
  lemma PoseMatrixInvertible(x: Vec3, z: Vec3, t: Vec3)
    requires PoseMatrix(x, z, t).Success?
    ensures var m := PoseMatrix(x, z, t).value;
      Mul(RigidInverse(m), m) == Identity() &&
      forall p :: Transform(RigidInverse(m), Transform(m, p, 1.0), 1.0) == p
  {
    var m := PoseMatrix(x, z, t).value;
    PoseMatrixIsRigid(x, z, t);
    RigidInverseLeft(m);
    forall p ensures Transform(RigidInverse(m), Transform(m, p, 1.0), 1.0) == p {
      TransformMul(RigidInverse(m), m, p, 1.0);
      TransformIdentity(p, 1.0);
    }
  }
}
