/** Reading a camera's intrinsics from its CameraInfo message (sub_camera_K_and_D). */
module Intrinsics {
  import opened Wrappers
  import opened Matrices

  /** The two fields of a CameraInfo message the calibration reads: flat K and D. */
  datatype CameraInfo = CameraInfo(k: seq<real>, d: seq<real>)

  /** The intrinsic matrix and the distortion coefficients of one camera. */
  datatype CameraIntrinsics = CameraIntrinsics(k: Matrix, d: seq<real>)

  /**
    `np.array(K).reshape((3, 3))`: the flat values are laid out row by row;
    numpy refuses any length other than 9.
  */
  function ReshapeK(flat: seq<real>): (k: Option<Matrix>)
    ensures k.Some? <==> |flat| == 9
    ensures k.Some? ==> IsMatrix(k.value, 3, 3)
    ensures k.Some? ==> forall i, j :: 0 <= i < 3 && 0 <= j < 3 ==> k.value[i][j] == flat[3 * i + j]
  {
    if |flat| != 9 then None
    else Some(seq(3, i requires 0 <= i < 3 => flat[3 * i..3 * i + 3]))
  }

  /** Row-major flattening of a 3x3 matrix, the layout of CameraInfo's K. */
  function Flatten(k: Matrix): (flat: seq<real>)
    requires IsMatrix(k, 3, 3)
    ensures |flat| == 9
  {
    k[0] + k[1] + k[2]
  }

  /** Reshaping loses nothing: flattening the matrix gives back the message's values. */
  lemma FlattenReshapeK(flat: seq<real>)
    requires |flat| == 9
    ensures Flatten(ReshapeK(flat).value) == flat
  {
    var k := ReshapeK(flat).value;
    assert k[0] == flat[..3] && k[1] == flat[3..6] && k[2] == flat[6..];
    assert flat == flat[..3] + flat[3..6] + flat[6..];
  }

  /** Every 3x3 matrix is the reshape of its row-major flattening. */
  lemma ReshapeKFlatten(k: Matrix)
    requires IsMatrix(k, 3, 3)
    ensures ReshapeK(Flatten(k)) == Some(k)
  {
    var flat := Flatten(k);
    var r := ReshapeK(flat).value;
    assert flat[0..3] == k[0] && flat[3..6] == k[1] && flat[6..9] == k[2];
    assert r[0] == k[0] && r[1] == k[1] && r[2] == k[2];
    assert forall i :: 0 <= i < 3 ==> r[i] == k[i];
    assert r == k;
    assert ReshapeK(flat) == Some(r);
  }

  /**
    `sub_camera_K_and_D` once the message has arrived: K reshaped to 3x3,
    D taken as it is.
  */
  function IntrinsicsOf(info: CameraInfo): (r: Option<CameraIntrinsics>)
    ensures r.Some? <==> |info.k| == 9
    ensures r.Some? ==> IsMatrix(r.value.k, 3, 3) && Flatten(r.value.k) == info.k && r.value.d == info.d
  {
    match ReshapeK(info.k)
    case None => None
    case Some(k) =>
      FlattenReshapeK(info.k);
      Some(CameraIntrinsics(k, info.d))
  }
}
