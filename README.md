# calib_camera_pose: camera extrinsic calibration, modelled in Dafny

`calib_camera_pose.py` locates a chessboard in two cameras (Baxter's left-hand
color camera and an RGB-D camera) and, on the user's key presses, combines the
chessboard poses with the robot's poses into two 4x4 transforms:
`T_baxter_to_chess` (key `a`) and `T_arm_to_depth` (key `b`). This project
models the logic in that script:

- `topic_name.dfy` (module `TopicName`): `getStrBeforeLastChar` and the
  image-topic to camera-info-topic rewrite of `sub_camera_info`. Python's
  `s[::-1]`, `str.find` and `s[:k]` are modelled with Python's semantics
  (`Reverse`, `Find`, `SliceTo`), so the one-liner's edge cases come out as
  they do in Python.
- `intrinsics.dfy` (module `Intrinsics`): the row-major reshape of
  CameraInfo's flat `K` into a 3x3 matrix in `sub_camera_K_and_D`.
- `matrices.dfy` (module `Matrices`): square real matrices with numpy's
  `.dot` and `np.identity`, and the algebra the calibration relies on
  (associativity, identity laws).
- `transforms.dfy` (module `Transforms`): `form_T`, and `np.linalg.inv` on
  a rigid transform written in closed form, `[[Rᵀ, -Rᵀp], [0, 1]]`, with proofs
  that it is the two-sided inverse and the only one.
- `capture.dfy` (module `Capture`): the main loop. `Dispatch` is the pure
  meaning of one command, `Trace` of a run of cycles; the class
  `CalibrationSession` holds the only persistent state, `T_baxter_to_chess`
  as an `Option` (initially `None`), with `Step` (the `a`/`b` dispatch),
  `CollectPoses` (the per-camera loop that builds `Rs` and `ps`) and `Run`
  (the `while not rospy.is_shutdown()` loop over a finite list of cycles).
- `wrappers.dfy` (module `Wrappers`): the `Option` type.

Arithmetic is over Dafny's `real`, an exact idealisation of numpy's doubles.
In debug mode (`DEBUG_MODE = True` in the source) both robot transforms are
the identity; this is the `DebugIdentity` value of `RobotPoses`, while `Live`
carries the transforms the robot reports.

Three behaviours of the code that the model keeps as they are:

- Capture `a` and `b` use `Rs[0], ps[0]` and `Rs[1], ps[1]` whether or not the
  chessboard was found; the `found` flag only decides what is drawn. There is
  no detection-success precondition.
- The inverse is numpy's generic `np.linalg.inv`, with no check that the
  rotation is orthonormal. The model computes the rigid closed form on every
  4x4 matrix. `RigidInverseIsTheInverse` shows that for rigid transforms this
  equals the exact inverse.
- A command `b` before any `a` prints a message and nothing else. It raises no error.

## Model

| member | source | states |
|---|---|---|
| TopicName.Reverse | src_main/calib_camera_pose/calib_camera_pose.py:40 | `s[::-1]`: same length, entry i is entry \|s\|-1-i of the input |
| TopicName.SliceTo | src_main/calib_camera_pose/calib_camera_pose.py:40 | `s[:k]`: always a prefix of `s`; a bound 0 <= k <= \|s\| keeps k characters, a bound -\|s\| <= k < 0 keeps \|s\|+k |
| TopicName.Find | src_main/calib_camera_pose/calib_camera_pose.py:40 | `str.find` for one character: -1 exactly when the character is absent, otherwise the index of its first occurrence |
| TopicName.GetStrBeforeLastChar | src_main/calib_camera_pose/calib_camera_pose.py:40 | whatever the input, the result is a prefix of the string |
| TopicName.FindReversed | src_main/calib_camera_pose/calib_camera_pose.py:40 | searching the reversed string finds the last occurrence, counted from the end |
| TopicName.BeforeLastCharInterior | src_main/calib_camera_pose/calib_camera_pose.py:40 | if the last `c` is at index i < \|s\|-1, the result is `s[..i+1]`: length i+1, ending with `c` |
| TopicName.BeforeLastCharAtEnd | src_main/calib_camera_pose/calib_camera_pose.py:40 | if `c` is the final character, `find` gives 0, the slice is `s[:-0]` and the result is empty |
| TopicName.BeforeLastCharAbsent | src_main/calib_camera_pose/calib_camera_pose.py:40 | if `c` does not occur, `find` gives -1, the slice is `s[:1]`: the first character, or empty for an empty string |
| TopicName.CameraInfoTopic | src_main/calib_camera_pose/calib_camera_pose.py:42-44 | the derived topic ends with "camera_info", and what precedes it is a prefix of the image topic |
| TopicName.CameraInfoTopicReplacesLastSegment | src_main/calib_camera_pose/calib_camera_pose.py:43-44 | when the last '/' is not the final character, the info topic is the text up to and including that '/' followed by "camera_info" |
| TopicName.CameraInfoTopicOfImageRaw | src_main/calib_camera_pose/calib_camera_pose.py:43-44 | for any slash-free namespace ns (such as "usb_cam"), `ns/image_raw` becomes `ns/camera_info` |
| TopicName.CameraInfoTopicWithoutNamespace | src_main/calib_camera_pose/calib_camera_pose.py:44 | a topic without any '/' keeps its first character before "camera_info" ("image_raw" becomes "icamera_info"; "" becomes "camera_info") |
| TopicName.CameraInfoTopicWithTrailingSlash | src_main/calib_camera_pose/calib_camera_pose.py:44 | a topic ending in '/' gives "camera_info" alone |
| Intrinsics.ReshapeK | src_main/calib_camera_pose/calib_camera_pose.py:50 | the reshape succeeds exactly when there are 9 values, and then K[i][j] == flat[3*i+j] (row-major) |
| Intrinsics.FlattenReshapeK | src_main/calib_camera_pose/calib_camera_pose.py:50 | the reshape loses nothing: flattening the 3x3 K row by row gives back the message's 9 values |
| Intrinsics.ReshapeKFlatten | src_main/calib_camera_pose/calib_camera_pose.py:50 | every 3x3 matrix is the reshape of its row-major flattening |
| Intrinsics.IntrinsicsOf | src_main/calib_camera_pose/calib_camera_pose.py:48-52 | K and D are read from a CameraInfo exactly when K has 9 values; K flattens back to the message's K, and D is the message's D |
| Matrices.Mul | src_main/calib_camera_pose/calib_camera_pose.py:150 | the `.dot` product of two n by n matrices is n by n; its laws are MulAssociative, MulIdentityLeft and MulIdentityRight |
| Matrices.Identity | src_main/calib_camera_pose/calib_camera_pose.py:146 | `np.identity(n)` is n by n; it is a two-sided unit of the product (MulIdentityLeft, MulIdentityRight) |
| Matrices.MulAssociative | src_main/calib_camera_pose/calib_camera_pose.py:169 | the matrix product is associative, so the chain `a.dot(b).dot(c)` does not depend on grouping |
| Matrices.MulIdentityLeft | src_main/calib_camera_pose/calib_camera_pose.py:146-150 | `np.identity(n).dot(A) == A` |
| Matrices.MulIdentityRight | src_main/calib_camera_pose/calib_camera_pose.py:166-169 | `A.dot(np.identity(n)) == A`, a step of the inverse proofs (RigidInverseIsTheInverse) and of ArmToDepthClosesChain |
| Matrices.MatVecMul | src_main/calib_camera_pose/calib_camera_pose.py:166-167 | (A B) v == A (B v), the step of RigidInverseRight that cancels R Rᵀ p |
| Transforms.FormT | src_main/calib_camera_pose/calib_camera_pose.py:144 | `form_T(R, p)` is a 4x4 matrix with bottom row [0, 0, 0, 1]; FormTBlocks and HomogeneousIsFormT make it a bijection with homogeneous matrices |
| Transforms.FormTBlocks | src_main/calib_camera_pose/calib_camera_pose.py:144 | `form_T(R, p)` has bottom row [0, 0, 0, 1], and its top-left block and last column read back as R and p |
| Transforms.HomogeneousIsFormT | src_main/calib_camera_pose/calib_camera_pose.py:163-167 | every 4x4 matrix with bottom row [0, 0, 0, 1] is `form_T` of its own blocks |
| Transforms.FormTMul | src_main/calib_camera_pose/calib_camera_pose.py:150 | `form_T(R, p) · form_T(S, q) == form_T(R S, R q + p)` |
| Transforms.IdentityIsFormT | src_main/calib_camera_pose/calib_camera_pose.py:146 | `form_T(I, 0)` is the 4x4 identity |
| Transforms.IdentityIsRigid | src_main/calib_camera_pose/calib_camera_pose.py:160 | the debug-mode robot transform `np.identity(4)` is rigid |
| Transforms.RigidInverse | src_main/calib_camera_pose/calib_camera_pose.py:166-167 | `np.linalg.inv` in closed form yields a homogeneous 4x4 matrix; RigidInverseRight, RigidInverseLeft and RigidInverseIsTheInverse show it is the inverse of a rigid transform |
| Transforms.RigidInverseRight | src_main/calib_camera_pose/calib_camera_pose.py:166-167 | for a rigid transform T, T · inv(T) is the identity |
| Transforms.RigidInverseLeft | src_main/calib_camera_pose/calib_camera_pose.py:166-167 | for a rigid transform T, inv(T) · T is the identity |
| Transforms.RigidInverseIsTheInverse | src_main/calib_camera_pose/calib_camera_pose.py:166-167 | any X with T · X = I is the closed form, so the closed form is what an exact `np.linalg.inv` returns |
| Transforms.RigidInverseOfIdentity | src_main/calib_camera_pose/calib_camera_pose.py:167 | the inverse of the identity is the identity |
| Matrices.TransposeMul | src_main/calib_camera_pose/calib_camera_pose.py:169 | the transpose of a product is the product of the transposes in reverse order, (R S)ᵀ == Sᵀ Rᵀ |
| Matrices.TransposeTranspose | src_main/calib_camera_pose/calib_camera_pose.py:166-167 | transposing twice gives back the matrix |
| Transforms.MulHomogeneous | src_main/calib_camera_pose/calib_camera_pose.py:150 | the `.dot` of two matrices with bottom row [0, 0, 0, 1] again has bottom row [0, 0, 0, 1] |
| Transforms.OrthonormalMul | src_main/calib_camera_pose/calib_camera_pose.py:150 | the product of two orthonormal rotations is orthonormal |
| Transforms.MulRigid | src_main/calib_camera_pose/calib_camera_pose.py:150 | the `.dot` of two rigid transforms is a rigid transform |
| Transforms.RigidInverseRigid | src_main/calib_camera_pose/calib_camera_pose.py:166-167 | `np.linalg.inv` of a rigid transform is rigid |
| Capture.BaxterToColor | src_main/calib_camera_pose/calib_camera_pose.py:145-149 | `T_baxter_to_color` is `np.identity(4)` for `DebugIdentity` and the robot's reported 4x4 color-camera pose for `Live` |
| Capture.BaxterToArm | src_main/calib_camera_pose/calib_camera_pose.py:159-163 | `T_baxter_to_arm` is `np.identity(4)` for `DebugIdentity` and the robot's reported 4x4 pose of the depth camera's mount frame for `Live` |
| Capture.BaxterToChess | src_main/calib_camera_pose/calib_camera_pose.py:150 | `T_baxter_to_color.dot(T_color_to_chess)` is a 4x4 matrix; in debug mode it is `form_T(Rs[0], ps[0])` (CaptureAInDebugMode) |
| Capture.ArmToDepth | src_main/calib_camera_pose/calib_camera_pose.py:169 | `T_arm_to_baxter.dot(T_baxter_to_chess).dot(T_chess_to_depth)` is a 4x4 matrix; it closes the kinematic chain (ArmToDepthClosesChain) |
| Capture.Dispatch | src_main/calib_camera_pose/calib_camera_pose.py:143-171 | only 'a' saves T_baxter_to_chess, and then the stored value is what it saved; any key other than 'a' leaves the stored value unchanged; a saved T_arm_to_depth comes only from 'b' with a stored value |
| Capture.DispatchCycle | src_main/calib_camera_pose/calib_camera_pose.py:112-171 | one cycle's poses, collected per camera, dispatched on its key; the stored value stays a 4x4 matrix or None |
| Capture.Trace | src_main/calib_camera_pose/calib_camera_pose.py:105-173 | a run of the loop keeps the stored value a 4x4 matrix or None and produces one outcome per cycle; its laws are the Trace lemmas below |
| Capture.CaptureAOverwrites | src_main/calib_camera_pose/calib_camera_pose.py:143-152 | key 'a' stores and saves `T_baxter_to_color · form_T(Rs[0], ps[0])`, whatever was stored before |
| Capture.CaptureAInDebugMode | src_main/calib_camera_pose/calib_camera_pose.py:143-150 | in debug mode the stored transform is `form_T(Rs[0], ps[0])` itself |
| Capture.SecondCaptureWins | src_main/calib_camera_pose/calib_camera_pose.py:143-152 | after two 'a' commands only the second result is stored |
| Capture.CaptureBNeedsCaptureA | src_main/calib_camera_pose/calib_camera_pose.py:154-156 | 'b' while nothing is stored leaves the state `None` and produces only the message |
| Capture.CaptureBKeepsState | src_main/calib_camera_pose/calib_camera_pose.py:157-171 | 'b' with a stored T saves `inv(T_baxter_to_arm) · T · inv(form_T(Rs[1], ps[1]))` and leaves T stored |
| Capture.OtherKeysDoNothing | src_main/calib_camera_pose/calib_camera_pose.py:140-173 | any other key, or the timeout, changes nothing and saves nothing |
| Capture.ArmToDepthClosesChain | src_main/calib_camera_pose/calib_camera_pose.py:158-169 | for a rigid arm pose and an orthonormal depth rotation, `T_baxter_to_arm · T_arm_to_depth · T_depth_to_chess` gives the stored `T_baxter_to_chess` back |
| Capture.DebugCaptureCancels | src_main/calib_camera_pose/calib_camera_pose.py:143-171 | in debug mode, with both detections the same rigid pose, 'a' then 'b' saves the 4x4 identity |
| Capture.CoincidentCamerasScenario | src_main/calib_camera_pose/calib_camera_pose.py:143-171 | debug mode, R = I and p = (0, 0, 1) for both cameras: 'a' stores `form_T(I, (0, 0, 1))` and 'b' saves the identity |
| Capture.TraceWithoutCaptureKeepsState | src_main/calib_camera_pose/calib_camera_pose.py:105-173 | over a run with no 'a', the stored transform does not change |
| Capture.TraceKeepsLastCapture | src_main/calib_camera_pose/calib_camera_pose.py:105-173 | after a run, the store holds what the run's last 'a' computed from that cycle's detection and robot pose |
| Capture.NoArmToDepthWithoutCapture | src_main/calib_camera_pose/calib_camera_pose.py:105-173 | a run that starts unset and never sees 'a' never saves a `T_arm_to_depth` |
| Capture.TraceOutcomeAt | src_main/calib_camera_pose/calib_camera_pose.py:105-173 | outcome j of a run is the dispatch of cycle j on the state the earlier cycles left |
| Capture.DispatchKeepsHomogeneous | src_main/calib_camera_pose/calib_camera_pose.py:143-171 | when the stored T_baxter_to_chess and the robot's two poses have bottom row [0, 0, 0, 1], so do the new stored value and any T_baxter_to_chess or T_arm_to_depth saved |
| Capture.DispatchKeepsRigid | src_main/calib_camera_pose/calib_camera_pose.py:143-171 | when the stored value and the robot's poses are rigid and the detected rotation the key uses is orthonormal, the new stored value and anything saved are rigid |
| Capture.TraceKeepsHomogeneous | src_main/calib_camera_pose/calib_camera_pose.py:105-173 | over a run whose robot poses are homogeneous, the store and every saved transform stay homogeneous |
| Capture.TraceKeepsRigid | src_main/calib_camera_pose/calib_camera_pose.py:105-173 | over a run whose robot poses are rigid and whose used rotations are orthonormal, the store and every saved transform stay rigid |
| Capture.CaptureBUsesLastCapture | src_main/calib_camera_pose/calib_camera_pose.py:154-171 | a 'b' in cycle j saves ArmToDepth of what the last earlier 'a' stored, however old, with cycle j's own depth detection and arm pose |
| Capture.CalibrationSession.constructor | src_main/calib_camera_pose/calib_camera_pose.py:66 | `T_baxter_to_chess` starts as `None` |
| Capture.CalibrationSession.CollectPoses | src_main/calib_camera_pose/calib_camera_pose.py:112-128 | `Rs` and `ps` hold each camera's R and p in camera order, whether or not the board was found |
| Capture.CalibrationSession.Step | src_main/calib_camera_pose/calib_camera_pose.py:140-171 | the new stored transform and the outcome are those of `Dispatch` on the old stored transform |
| Capture.CalibrationSession.Run | src_main/calib_camera_pose/calib_camera_pose.py:105-173 | the stored transform and the outcomes after the loop are those of `Trace` over the cycles |

## Left out

- ROS transport and lifecycle (`init_node`, `get_param`, `wait_for_message`, the image publisher, `sleep`, `spin`, the CvBridge conversions): I/O. Image topics, images and CameraInfo messages are inputs.
- Chessboard detection and drawing (`getChessboardPose` and the `draw*` helpers): they live in `lib_cam_calib`, which is not part of this model. Each camera's detection is an input to the cycle.
- The robot's pose queries and `pose2T`: foreign libraries. Their 4x4 results are inputs (`RobotPoses.Live`).
- `form_T` comes from `lib_geo_trans_ros`, which is not part of this model. It is modelled as the `[[R, p], [0, 0, 0, 1]]` embedding.
- `np.savetxt`, the console messages and the image concatenation (`np.hstack`): effects without logic. A save is the step's `Outcome`.
- `waitKeyPress`: keyboard polling. The key, or the timeout, is an input.
- Strings: the script runs under Python 2, where line 40 slices byte strings; `TopicName` works on characters. Topics are taken as ASCII, as ROS topic names are, so the two agree.
- Floating point: the algebra is exact over `real`, with no rounding and no tolerance.
- `np.linalg.inv` on a matrix that is not a rigid transform: the model always applies the rigid closed form, and proves it to be the inverse only for rigid transforms.
- Capture.CalibrationSession.Step: requires every cycle's R to be 3x3, p to have 3 entries and the robot transforms to be 4x4, also when detection failed and also for the camera the key does not use. This is because the model has no value for a failed detection's R and p, so it does not model a crash on such values, nor a cycle with malformed values and no key.
- Capture.CalibrationSession.Run: the same shape requirement on every cycle, for the same reason.
- Capture.Dispatch, Capture.DispatchCycle, Capture.Trace: the same shape requirement, for the same reason.
- The global `T_arm_to_depth` (line 67) is read only by the print and save in the same `'b'` branch (lines 170-171), never in a later cycle, so it is not part of the state. Its value is in the `SavedArmToDepth` outcome.
- The loop's infinite run until shutdown: `Run` takes the finite list of cycles that happen before shutdown.
- A `found` check before a capture: the source has none (see above), and neither does the model.
