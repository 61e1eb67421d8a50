/**
 Edge selection on the oriented bounding box, shared by
 `PointCloudPoseEstimator.get_normal_translation` and `get_6d_pose`
 (utils/my_utils.py): the three edges from corner 0, their lengths, the
 shortest edge (`np.argmin`, the "toward" direction), the longest edge
 (`np.argmax`, the "normal" direction) and half the longest length.

 The box comes from open3d, which is not part of this model: it is given as
 its centre and the eight points `get_box_points()` returns. The lengths are
 what `np.linalg.norm` returns for the three edges, related to them by
 `Geometry.IsNorm`.
 */
module AxisSelection {
  import opened Geometry

  datatype OrientedBox = OrientedBox(center: Vec3, corners: seq<Vec3>)

  /** open3d's box always has eight corner points. */
  predicate HasEightCorners(box: OrientedBox) {
    |box.corners| == 8
  }

  /** Edge `k` (0, 1, 2) runs from corner k + 1 to corner 0: `box_points[0] - box_points[k + 1]`. */
  function Edge(box: OrientedBox, k: nat): (e: Vec3)
    requires HasEightCorners(box) && k < 3
    ensures Sub(box.corners[0], e) == box.corners[k + 1]
  {
    Sub(box.corners[0], box.corners[k + 1])
  }

  /** `vector = np.array([x_vec, y_vec, z_vec])` */
  function EdgeVectors(box: OrientedBox): (v: seq<Vec3>)
    requires HasEightCorners(box)
    ensures |v| == 3 && forall k :: 0 <= k < 3 ==> v[k] == Edge(box, k)
  {
    [Edge(box, 0), Edge(box, 1), Edge(box, 2)]
  }

  /** `length = np.array([x_length, y_length, z_length])`: each entry is the length of its edge. */
  predicate AreEdgeLengths(box: OrientedBox, lengths: seq<real>)
    requires HasEightCorners(box)
  {
    |lengths| == 3 && forall k :: 0 <= k < 3 ==> IsNorm(Edge(box, k), lengths[k])
  }

  /** `np.argmin(s)`: the first index holding the smallest value. */
  function ArgMin(s: seq<real>): (k: nat)
    requires |s| > 0
    ensures k < |s|
    ensures forall i :: 0 <= i < |s| ==> s[k] <= s[i]
    ensures forall i :: 0 <= i < k ==> s[i] > s[k]
  {
    if |s| == 1 then 0
    else
      var k := ArgMin(s[..|s| - 1]);
      if s[|s| - 1] < s[k] then |s| - 1 else k
  }

  /** `np.argmax(s)`: the first index holding the largest value. */
  function ArgMax(s: seq<real>): (k: nat)
    requires |s| > 0
    ensures k < |s|
    ensures forall i :: 0 <= i < |s| ==> s[k] >= s[i]
    ensures forall i :: 0 <= i < k ==> s[i] < s[k]
  {
    if |s| == 1 then 0
    else
      var k := ArgMax(s[..|s| - 1]);
      if s[|s| - 1] > s[k] then |s| - 1 else k
  }

  /** Only one index is the first to hold the smallest value. */
  lemma ArgMinUnique(s: seq<real>, k: nat)
    requires k < |s|
    requires forall i :: 0 <= i < |s| ==> s[k] <= s[i]
    requires forall i :: 0 <= i < k ==> s[i] > s[k]
    ensures ArgMin(s) == k
  {
  }

  /** Only one index is the first to hold the largest value. */
  lemma ArgMaxUnique(s: seq<real>, k: nat)
    requires k < |s|
    requires forall i :: 0 <= i < |s| ==> s[k] >= s[i]
    requires forall i :: 0 <= i < k ==> s[i] < s[k]
    ensures ArgMax(s) == k
  {
  }

  /** `target_z_translation = length[max_length_index] / 2` */
  function TargetZTranslation(lengths: seq<real>): (r: real)
    requires |lengths| == 3
    ensures forall i :: 0 <= i < 3 ==> 2.0 * r >= lengths[i]
    ensures exists i :: 0 <= i < 3 && 2.0 * r == lengths[i]
  {
    lengths[ArgMax(lengths)] / 2.0
  }

  /** The squared length of each edge, which orders the edges as their lengths do. */
  function SquaredLengths(box: OrientedBox): (s: seq<real>)
    requires HasEightCorners(box)
    ensures |s| == 3 && forall k :: 0 <= k < 3 ==> s[k] == NormSq(Edge(box, k))
  {
    [NormSq(Edge(box, 0)), NormSq(Edge(box, 1)), NormSq(Edge(box, 2))]
  }

  /**
   The choice of edges does not depend on the square root: selecting on
   the squared lengths picks the same shortest and longest edges.
   */
  lemma SelectionBySquaredLength(box: OrientedBox, lengths: seq<real>)
    requires HasEightCorners(box) && AreEdgeLengths(box, lengths)
    ensures ArgMin(lengths) == ArgMin(SquaredLengths(box))
    ensures ArgMax(lengths) == ArgMax(SquaredLengths(box))
  {
    var sq := SquaredLengths(box);
    forall i, j | 0 <= i < 3 && 0 <= j < 3
      ensures lengths[i] <= lengths[j] <==> sq[i] <= sq[j]
    {
      NormMonotone(Edge(box, i), lengths[i], Edge(box, j), lengths[j]);
    }
    ArgMinUnique(sq, ArgMin(lengths));
    ArgMaxUnique(sq, ArgMax(lengths));
  }

  /**
   The shortest and the longest edge are the same index exactly when all
   three lengths are equal, and then both are edge 0: the two roles are not
   always given to distinct edges.
   */
  lemma SameEdgeIffAllEqual(lengths: seq<real>)
    requires |lengths| == 3
    ensures ArgMin(lengths) == ArgMax(lengths) <==> lengths[0] == lengths[1] == lengths[2]
    ensures lengths[0] == lengths[1] == lengths[2] ==> ArgMin(lengths) == 0 && ArgMax(lengths) == 0
  {
  }

  /**
   Edge lengths 1, 2 and 0.5 (in the order of edges 0, 1, 2): the shortest
   ("toward") edge is edge 2, the longest ("normal") edge is edge 1, and the
   translation is 1.
   */
  lemma SelectionOnExampleLengths(lengths: seq<real>)
    requires lengths == [1.0, 2.0, 0.5]
    ensures ArgMin(lengths) == 2 && ArgMax(lengths) == 1
    ensures TargetZTranslation(lengths) == 1.0
  {
    ArgMinUnique(lengths, 2);
    ArgMaxUnique(lengths, 1);
  }
}
