/**
 `PointCloudPoseEstimator` (utils/my_utils.py) once its box is fitted: the
 target pose in the world frame (`target_6d_pose`), the half-length of the
 longest edge (`get_normal_translation`) and the whole pose pipeline
 (`get_6d_pose`).

 The estimator's two configuration matrices are fixed when it is built and
 never written again; they are the `Calibration` below. `np.linalg.inv` is
 not computed: the calibration carries the inverse of the camera offset
 alongside it.
 */
module PoseEstimator {
  import opened Geometry
  import opened Matrix
  import opened Wrappers
  import opened PoseFrame
  import opened AxisSelection

  /** `init_ef_matrix`, `cam_offset_matrix` and `np.linalg.inv(cam_offset_matrix)`. */
  datatype Calibration = Calibration(initEf: Mat4, camOffset: Mat4, camOffsetInv: Mat4)

  predicate ValidCalibration(cal: Calibration) {
    IsInverse(cal.camOffset, cal.camOffsetInv)
  }

  /** `init_ef_matrix @ np.linalg.inv(cam_offset_matrix)`: maps camera coordinates to world coordinates. */
  function CameraToWorld(cal: Calibration): Mat4 {
    Mul(cal.initEf, cal.camOffsetInv)
  }

  /**
   `target_6d_pose(x_unit_vec, z_unit_vec, obb)` with `gt == False`: the
   pose built on the box centre, carried into the world frame by
   `init_ef @ inv(cam_offset) @ pose` in that order. Its only errors are
   those of the pose builder.
   */
  ghost function TargetPose(x: Vec3, z: Vec3, center: Vec3, cal: Calibration): (r: Result<Mat4, FrameError>)
    requires ValidCalibration(cal)
    ensures r.Failure? <==> PoseMatrix(x, z, center).Failure?
    ensures r.Failure? ==> r.error == PoseMatrix(x, z, center).error
  {
    match PoseMatrix(x, z, center)
    case Failure(e) => Failure(e)
    case Success(pose) => Success(Mul(Mul(cal.initEf, cal.camOffsetInv), pose))
  }

  /**
   What the world pose means: its rotation columns are the camera-frame axes
   x, z × x, z carried as directions, and its translation is the box centre
   carried as a point, by the camera-to-world transform.
   */
  lemma TargetPoseInWorld(x: Vec3, z: Vec3, center: Vec3, cal: Calibration)
    requires ValidCalibration(cal) && TargetPose(x, z, center, cal).Success?
    ensures var w, m := TargetPose(x, z, center, cal).value, CameraToWorld(cal);
      Column(w, 0) == Transform(m, x, 0.0) &&
      Column(w, 1) == Transform(m, Cross(z, x), 0.0) &&
      Column(w, 2) == Transform(m, z, 0.0) &&
      Column(w, 3) == Transform(m, center, 1.0)
  {
    var pose := PoseMatrix(x, z, center).value;
    PoseMatrixLayout(x, z, center);
    MulColumns(CameraToWorld(cal), pose);
  }

  /** When `init_ef_matrix` and `cam_offset_matrix` are affine, so is the world pose. */
  lemma TargetPoseAffine(x: Vec3, z: Vec3, center: Vec3, cal: Calibration)
    requires ValidCalibration(cal) && TargetPose(x, z, center, cal).Success?
    requires IsAffine(cal.initEf) && IsAffine(cal.camOffset)
    ensures IsAffine(TargetPose(x, z, center, cal).value)
  {
    PoseMatrixLayout(x, z, center);
    InverseOfAffine(cal.camOffset, cal.camOffsetInv);
    MulAffine(cal.initEf, cal.camOffsetInv);
    MulAffine(CameraToWorld(cal), PoseMatrix(x, z, center).value);
  }

  /**
   Moving the box centre changes only the translation column: the rotation
   block and the bottom row of the world pose stay as they were.
   */
  lemma RotationIgnoresTranslation(x: Vec3, z: Vec3, t1: Vec3, t2: Vec3, cal: Calibration)
    requires ValidCalibration(cal) && TargetPose(x, z, t1, cal).Success?
    ensures TargetPose(x, z, t2, cal).Success?
    ensures var w1, w2 := TargetPose(x, z, t1, cal).value, TargetPose(x, z, t2, cal).value;
      forall i, j :: 0 <= i < 4 && 0 <= j < 3 ==> w1[i][j] == w2[i][j]
  {
    PoseMatrixOfFrame(x, z, t1);
    PoseMatrixOfFrame(x, z, t2);
  }

  /**
   The chain can be undone: with the inverse of `init_ef_matrix`,
   `cam_offset @ inv(init_ef) @ world_pose` gives back the camera-frame pose.
   */
  lemma TargetPoseUndone(x: Vec3, z: Vec3, center: Vec3, cal: Calibration, initEfInv: Mat4)
    requires ValidCalibration(cal) && IsInverse(cal.initEf, initEfInv)
    requires TargetPose(x, z, center, cal).Success?
    ensures Mul(Mul(cal.camOffset, initEfInv), TargetPose(x, z, center, cal).value) == PoseMatrix(x, z, center).value
  {
    var e, c, ei, ci := cal.initEf, cal.camOffset, initEfInv, cal.camOffsetInv;
    var p := PoseMatrix(x, z, center).value;
    calc {
      Mul(Mul(c, ei), Mul(Mul(e, ci), p));
    == { MulAssoc(c, ei, Mul(Mul(e, ci), p)); }
      Mul(c, Mul(ei, Mul(Mul(e, ci), p)));
    == { MulAssoc(e, ci, p); MulAssoc(ei, e, Mul(ci, p)); }
      Mul(c, Mul(Mul(ei, e), Mul(ci, p)));
    == { MulIdentityLeft(Mul(ci, p)); }
      Mul(c, Mul(ci, p));
    == { MulAssoc(c, ci, p); MulIdentityLeft(p); }
      p;
    }
  }

  /**
   `get_normal_translation`: half the length of the longest box edge. Twice
   the result is the length of the edge `np.argmax` picks, and no edge is
   longer.
   */
  function GetNormalTranslation(box: OrientedBox, lengths: seq<real>): (r: real)
    requires HasEightCorners(box) && AreEdgeLengths(box, lengths)
    ensures IsNorm(Edge(box, ArgMax(lengths)), 2.0 * r)
    ensures forall k :: 0 <= k < 3 ==> NormSq(Edge(box, k)) <= NormSq(Edge(box, ArgMax(lengths)))
  {
    var longest := ArgMax(lengths);
    forall k | 0 <= k < 3
      ensures NormSq(Edge(box, k)) <= NormSq(Edge(box, longest))
    {
      NormMonotone(Edge(box, k), lengths[k], Edge(box, longest), lengths[longest]);
    }
    TargetZTranslation(lengths)
  }

  /**
   `get_6d_pose` on the reachable path (`self.gt` is False): the shortest
   edge, through `create_arrow(..., face_detection_x=True)`, is the x axis;
   the longest, through `create_arrow(..., face_detection_z=True)`, is the z
   axis; the pose sits on the box centre. `create_arrow` lives in a file that
   is not part of this model, so its two uses are the parameters
   `towardArrow` and `normalArrow`, about which nothing is assumed.
   */
  ghost function Get6dPose(box: OrientedBox, lengths: seq<real>, towardArrow: Vec3 -> Vec3, normalArrow: Vec3 -> Vec3,
                           cal: Calibration): Result<Mat4, FrameError>
    requires HasEightCorners(box) && AreEdgeLengths(box, lengths) && ValidCalibration(cal)
  {
    var vector := EdgeVectors(box);
    var minIndex := ArgMin(lengths);
    var maxIndex := ArgMax(lengths);
    var normalUnit := normalArrow(vector[maxIndex]);
    var towardUnit := towardArrow(vector[minIndex]);
    TargetPose(towardUnit, normalUnit, box.center, cal)
  }

  /**
   The world pose `get_6d_pose` returns has, as its x column, the arrow of
   the shortest edge and, as its z column, the arrow of the longest edge,
   both carried into the world frame, and the box centre as its origin.
   */
  lemma Get6dPoseAxes(box: OrientedBox, lengths: seq<real>, towardArrow: Vec3 -> Vec3, normalArrow: Vec3 -> Vec3,
                      cal: Calibration)
    requires HasEightCorners(box) && AreEdgeLengths(box, lengths) && ValidCalibration(cal)
    requires Get6dPose(box, lengths, towardArrow, normalArrow, cal).Success?
    ensures var w, m := Get6dPose(box, lengths, towardArrow, normalArrow, cal).value, CameraToWorld(cal);
      var shortest, longest := ArgMin(lengths), ArgMax(lengths);
      (forall k :: 0 <= k < 3 ==> NormSq(Edge(box, shortest)) <= NormSq(Edge(box, k)) <= NormSq(Edge(box, longest))) &&
      Column(w, 0) == Transform(m, towardArrow(Edge(box, shortest)), 0.0) &&
      Column(w, 2) == Transform(m, normalArrow(Edge(box, longest)), 0.0) &&
      Column(w, 3) == Transform(m, box.center, 1.0)
  {
    var shortest, longest := ArgMin(lengths), ArgMax(lengths);
    forall k | 0 <= k < 3
      ensures NormSq(Edge(box, shortest)) <= NormSq(Edge(box, k)) <= NormSq(Edge(box, longest))
    {
      NormMonotone(Edge(box, shortest), lengths[shortest], Edge(box, k), lengths[k]);
      NormMonotone(Edge(box, k), lengths[k], Edge(box, longest), lengths[longest]);
    }
    TargetPoseInWorld(towardArrow(Edge(box, shortest)), normalArrow(Edge(box, longest)), box.center, cal);
  }

  /**
   A box with three equal edges (a cube) makes `argmin` and `argmax` both
   pick edge 0. If the two arrows then give the same unit vector or opposite
   unit vectors, x · z is 1 or −1, the orthogonality assertion fails and
   `get_6d_pose` raises.
   */
  lemma CubeBoxRaises(box: OrientedBox, lengths: seq<real>, towardArrow: Vec3 -> Vec3, normalArrow: Vec3 -> Vec3,
                      cal: Calibration)
    requires HasEightCorners(box) && AreEdgeLengths(box, lengths) && ValidCalibration(cal)
    requires lengths[0] == lengths[1] == lengths[2]
    requires normalArrow(Edge(box, 0)) == towardArrow(Edge(box, 0)) || normalArrow(Edge(box, 0)) == Neg(towardArrow(Edge(box, 0)))
    requires NormSq(towardArrow(Edge(box, 0))) == 1.0
    ensures Get6dPose(box, lengths, towardArrow, normalArrow, cal) == Failure(AxesNotOrthogonal)
  {
    SameEdgeIffAllEqual(lengths);
    var u, n := towardArrow(Edge(box, 0)), normalArrow(Edge(box, 0));
    assert NormSq(n) == 1.0 && (Dot(u, n) == 1.0 || Dot(u, n) == -1.0) by {
      if n != u {
        assert n == Neg(u);
        assert NormSq(Neg(u)) == NormSq(u) && Dot(u, Neg(u)) == -NormSq(u);
      }
    }
    assert EdgeVectors(box)[0] == Edge(box, 0);
    assert PoseMatrix(u, n, box.center) == Failure(AxesNotOrthogonal);
  }
}
