# Pose construction of the point-cloud pose estimator

This project models the geometric core of `PointCloudPoseEstimator` in
`utils/my_utils.py`, part of a 6-DoF grasp-pose pipeline. The estimator takes
an object's oriented bounding box. It picks the box's shortest edge as the
"toward" (x) axis and its longest edge as the "normal" (z) axis. It builds a
right-handed 4x4 pose on the box centre and carries that pose from the camera
frame to the world frame with `init_ef_matrix @ inv(cam_offset_matrix) @ pose`.

All arithmetic is exact over Dafny's `real`. The project has these modules:

- `Geometry` (geometry.dfy): 3-vectors and the numpy operations on them. It
  also holds the length relation `IsNorm`, because the model has no square
  root.
- `Matrix` (matrix.dfy): 4x4 matrices as `seq<seq<real>>`, with product,
  columns, affine and rigid transforms, and associativity. It also holds the
  3x3 rotation block with `np.array` of three rows and its transpose, and
  the inverse of a rigid transform.
- `Wrappers` (wrappers.dfy): `Result`, which stands for a raised exception.
- `PoseFrame` (pose_frame.dfy): `create_6d_pose_matrix`. The ghost function
  `PoseMatrix` specifies it. The method `CreatePoseMatrix` implements it: it
  transposes the rows x, y, z and fills a 4x4 array the way the source
  overwrites `np.eye(4)`.
- `AxisSelection` (axis_selection.dfy): the edge vectors, `np.argmin` and
  `np.argmax`, and `target_z_translation`.
- `PoseEstimator` (pose_estimator.dfy): `target_6d_pose`,
  `get_normal_translation` and `get_6d_pose`.

What the proofs establish:

- The builder's y starts as normalize(x × z). Since x and z are unit and
  orthogonal, x × (x × z) = −z, so the handedness test at lines 85-87 always
  fires. The y that comes out is z × x.
- The resulting rotation block has orthonormal columns and determinant +1,
  so the pose is undone by its rigid inverse [Rᵀ | −Rᵀt].
- Columns 0 and 2 are exactly the inputs x and z. Column 3 is the translation.
  The bottom row is [0, 0, 0, 1].
- Choosing edges by length gives the same result as choosing them by squared
  length.
- When all three edges have equal length, argmin and argmax coincide.

## Model

| member | source | states |
|---|---|---|
| `Geometry.UnitNorm` | utils/my_utils.py:76-77 | a vector's length is 1 exactly when its squared length is 1, so the unit-length assertions need no square root |
| `Geometry.NormMonotone` | utils/my_utils.py:50-52 | edge lengths and squared edge lengths are ordered alike |
| `PoseFrame.PoseFromAxes` | utils/my_utils.py:90-95 | transposing the rows x, y, z and writing them into `np.eye(4)` with the translation puts x, y, z in columns 0-2 and t in column 3 over the bottom row [0, 0, 0, 1] |
| `PoseFrame.PoseMatrix` | utils/my_utils.py:66-97 | definition of what the builder returns or raises; its properties are stated by `PoseMatrixChecks`, `FlipAlwaysFires`, `PoseMatrixLayout`, `PoseMatrixIsRigid` and `PoseMatrixInvertible` |
| `PoseFrame.RightHanded` | utils/my_utils.py:84-87 | the handedness step returns y or −y, afterwards (x × y) · z ≥ 0 for any three vectors, and y is kept whenever (x × y) · z ≥ 0 (the test is strict) |
| `PoseFrame.CreatePoseMatrix` | utils/my_utils.py:66-97 | the builder (two norm checks and one dot-product check, y = x × z divided by its norm, flip, `[x, y, z].T`, matrix assembly) returns exactly `PoseMatrix(x, z, t)` for any function that returns each vector's length |
| `PoseFrame.AssemblePose` | utils/my_utils.py:92-95 | starting from `np.eye(4)`, writing the 3x3 rotation entry by entry into the upper-left block and then the translation into the top of the last column yields the transform with that rotation block and translation |
| `PoseFrame.PoseMatrixOfFrame` | utils/my_utils.py:81-82 | once the checks pass, the norm of x × z is 1 and normalising leaves it unchanged |
| `PoseFrame.CrossOfOrthonormalIsUnit` | utils/my_utils.py:81-82 | for unit, orthogonal x and z, x × z has squared length 1 |
| `PoseFrame.PoseMatrixChecks` | utils/my_utils.py:76-78 | the builder fails with XAxisNotUnit iff \|x\| ≠ 1; with ZAxisNotUnit iff \|x\| = 1 and \|z\| ≠ 1; with AxesNotOrthogonal iff both are unit and x · z ≠ 0; it succeeds iff none of these holds |
| `PoseFrame.FlipAlwaysFires` | utils/my_utils.py:81-87 | for valid inputs (x × (x × z)) · z = −1 < 0, so the flip always happens and the final y is z × x |
| `PoseFrame.PoseMatrixLayout` | utils/my_utils.py:89-95 | a successful pose is affine, has the input x in column 0, the input z in column 2, t in column 3, and in column 1 the unit vector z × x, orthogonal to x and z |
| `PoseFrame.PoseMatrixIsRigid` | utils/my_utils.py:80-97 | a successful pose is a rigid transform: orthonormal rotation columns with determinant +1 |
| `PoseFrame.PoseMatrixInvertible` | utils/my_utils.py:89-97 | a successful pose times its rigid inverse is the identity, and every point the pose moves is moved back |
| `AxisSelection.Edge` | utils/my_utils.py:47-49 | edge k is the vector that takes corner k + 1 to corner 0 (`box_points[0] - box_points[k + 1]`) |
| `AxisSelection.AreEdgeLengths` | utils/my_utils.py:50-52 | definition: entry k of the length array is a length of edge k; it is used by `SelectionBySquaredLength`, `GetNormalTranslation` and `Get6dPoseAxes` |
| `AxisSelection.ArgMin` | utils/my_utils.py:59 | the index returned holds a value ≤ every entry, and every earlier entry is strictly larger (the first minimum) |
| `AxisSelection.ArgMax` | utils/my_utils.py:60 | the index returned holds a value ≥ every entry, and every earlier entry is strictly smaller (the first maximum) |
| `AxisSelection.ArgMinUnique` | utils/my_utils.py:59 | the first-minimum property determines the argmin index |
| `AxisSelection.ArgMaxUnique` | utils/my_utils.py:60 | the first-maximum property determines the argmax index |
| `AxisSelection.TargetZTranslation` | utils/my_utils.py:62 | twice the result is at least every length and equals one of them: half the maximum length |
| `AxisSelection.SelectionBySquaredLength` | utils/my_utils.py:50-60 | argmin and argmax over the lengths equal argmin and argmax over the squared lengths |
| `AxisSelection.SameEdgeIffAllEqual` | utils/my_utils.py:59-60 | argmin and argmax coincide iff the three lengths are equal, and then both are 0 |
| `AxisSelection.SelectionOnExampleLengths` | utils/my_utils.py:132-135 | for edge lengths [1, 2, 0.5] the toward edge is index 2, the normal edge is index 1, and the translation is 1 |
| `PoseEstimator.TargetPose` | utils/my_utils.py:99-116 | the world pose fails exactly when the builder fails, with the same error; the only errors are the builder's |
| `PoseEstimator.TargetPoseInWorld` | utils/my_utils.py:111-114 | the world pose's columns are x, z × x and z carried as directions, and the box centre carried as a point, by `init_ef @ inv(cam_offset)` |
| `PoseEstimator.CameraToWorld` | utils/my_utils.py:114 | definition of `init_ef_matrix @ inv(cam_offset_matrix)`; what it does to the pose is stated by `TargetPoseInWorld` and `Get6dPoseAxes` |
| `PoseEstimator.TargetPoseAffine` | utils/my_utils.py:114 | with affine `init_ef_matrix` and `cam_offset_matrix` the world pose is affine |
| `PoseEstimator.RotationIgnoresTranslation` | utils/my_utils.py:111-114 | changing only the translation leaves columns 0-2 of the world pose unchanged |
| `PoseEstimator.TargetPoseUndone` | utils/my_utils.py:114 | `cam_offset @ inv(init_ef) @ world_pose` recovers the camera-frame pose, so the product is taken in the fixed order init_ef, inv(cam_offset), pose |
| `PoseEstimator.GetNormalTranslation` | utils/my_utils.py:45-63 | twice the result is the length of the argmax edge, and no edge is longer |
| `PoseEstimator.Get6dPose` | utils/my_utils.py:118-149 | definition of `get_6d_pose`: the arrows of the argmin and argmax edges passed to `target_6d_pose` with the box; its properties are stated by `Get6dPoseAxes` and `CubeBoxRaises` |
| `PoseEstimator.Get6dPoseAxes` | utils/my_utils.py:118-149 | a successful `get_6d_pose` has the shortest edge's arrow as x and the longest edge's arrow as z (both carried to the world frame), and the box centre as origin |
| `PoseEstimator.CubeBoxRaises` | utils/my_utils.py:132-149 | for a box with three equal edges, if the two arrows give the same unit vector or opposite unit vectors, `get_6d_pose` raises on the orthogonality assertion |
| `Matrix.MulAssoc` | utils/my_utils.py:114 | `(a @ b) @ c == a @ (b @ c)`, so the chain's grouping does not matter |
| `Matrix.MulColumns` | utils/my_utils.py:114 | right-multiplying by an affine matrix carries its columns: directions for 0-2, a point for 3 |
| `Matrix.TransformMul` | utils/my_utils.py:114 | applying `a @ b` (b affine) to a point or direction is applying b, then a |
| `Matrix.InverseOfAffine` | utils/my_utils.py:114 | the two-sided inverse of an affine matrix is affine, so `inv(cam_offset_matrix)` keeps the bottom row [0, 0, 0, 1] |
| `Matrix.RigidInverseLeft` | utils/my_utils.py:89-97 | for a rigid transform m, `RigidInverse(m) @ m` is the identity |

## Left out

- The three checks of `create_6d_pose_matrix` are Python `assert` statements; the model follows the default interpreter mode, in which they run. Under `python -O` they are removed and the builder never raises.
- Floating point: `np.isclose` with its default tolerances is exact equality here. Near-unit or near-orthogonal inputs that numpy accepts are rejected by the model.
- `np.linalg.norm` is a square root, which the model does not compute. Lengths are the relation `IsNorm`; `CreatePoseMatrix` takes the norm as a function parameter that returns each vector's length. The edge lengths are inputs tied to their edges by `AreEdgeLengths`. The one norm the builder divides by is proved to be exactly 1.
- `np.linalg.inv(cam_offset_matrix)` is not computed. The inverse is supplied in `Calibration` and required to be a two-sided inverse. A singular offset makes numpy raise; the model does not include that case.
- Fitting the oriented bounding box (`get_oriented_bounding_box`, open3d's `estimate_normals` and `get_oriented_bounding_box`) is a foreign library call. The box's centre and eight corners are inputs.
- `create_arrow` comes from `utils/utils.py`, which is not part of this model. Its two uses are the function parameters `towardArrow` and `normalArrow`. Nothing is assumed about how they normalise or about their `face_detection_*` flags.
- `self.gt` is always False, so only that path of `target_6d_pose` is modelled. With `gt` True, `target_pose_world` is never bound and the return raises. `get_6d_pose` ignores its own `gt` and `vis` parameters.
- `load_point_clouds` (file I/O), the visualisation call, the coordinate-frame mesh and the debug `print`s are left out. The `target_z_translation` that `get_6d_pose` computes is only printed there, so it appears only through `GetNormalTranslation`.
- The point-cloud fields of the estimator (`pc_segments`, `pc_segments_noise`, `pc_segments_noise_pcd`) are written only by I/O and open3d code, so they are not modelled.
- `contact_graspnet/inference_multiview.py` (network setup, inference, file I/O, argument parsing) is not part of this model.
- The code has no checks for degenerate geometry, zero-length axes or a singular offset, and nothing keeps the toward and normal roles on distinct edges. The model follows the code: `SameEdgeIffAllEqual` shows the roles coincide on a box with three equal edges, and `CubeBoxRaises` shows where that leads.
- Matrix.RigidInverseLeft: only `RigidInverse(m) @ m` is proved to be the identity; the product in the other order, `m @ RigidInverse(m)`, is not proved.
