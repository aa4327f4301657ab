/**
 * The camera record a game adapter fills in for every frame, and its JSON
 * form: either the Euler layout (fov, aspect ratio, location, rotation) or
 * the matrix layout (the 3x4 camera-to-world matrix flattened row-major,
 * and the vertical field of view).
 *
 * Floating-point fields are `real`: the serialiser only copies them.
 */
module CameraData {
  import opened Wrappers
  import opened JsonValues

  /** CamMatrixStatus, in declaration order. */
  datatype CamMatrixStatus = Uninitialized | PositionGood | RotationGood | AllGood | Wip

  /** The integer value of each enumerator. */
  function StatusValue(s: CamMatrixStatus): (v: int)
    ensures 0 <= v <= 4
  {
    match s
    case Uninitialized => 0
    case PositionGood => 1
    case RotationGood => 2
    case AllGood => 3
    case Wip => 4
  }

  /** The enumerator with a given value, if one is declared. */
  function StatusOfValue(v: int): (s: Option<CamMatrixStatus>)
    ensures s.Some? <==> 0 <= v <= 4
  {
    if v == 0 then Some(Uninitialized)
    else if v == 1 then Some(PositionGood)
    else if v == 2 then Some(RotationGood)
    else if v == 3 then Some(AllGood)
    else if v == 4 then Some(Wip)
    else None
  }

  /** The values are 0..4 in declaration order, one per enumerator. */
  lemma StatusValuesRoundTrip(s: CamMatrixStatus, v: int)
    ensures StatusOfValue(StatusValue(s)) == Some(s)
    ensures StatusOfValue(v) == Some(s) ==> StatusValue(s) == v
    ensures StatusValue(Uninitialized) == 0 && StatusValue(PositionGood) == 1 && StatusValue(RotationGood) == 2
    ensures StatusValue(AllGood) == 3 && StatusValue(Wip) == 4
  {
  }

  /** A three-component vector; a default one is zero. */
  datatype EulerVec = EulerVec(x: real, y: real, z: real)

  const ZeroVec := EulerVec(0.0, 0.0, 0.0)

  /** A 3x4 matrix as three rows of four entries. */
  predicate IsMat34(m: seq<seq<real>>) {
    |m| == 3 && forall r :: 0 <= r < 3 ==> |m[r]| == 4
  }

  type Mat34 = m: seq<seq<real>> | IsMat34(m)
    witness [[0.0, 0.0, 0.0, 0.0], [0.0, 0.0, 0.0, 0.0], [0.0, 0.0, 0.0, 0.0]]

  datatype CamMatrixData = CamMatrixData(
    extrinsicStatus: CamMatrixStatus,
    extrinsicCam2World: Mat34,
    fovVDegrees: real,
    fovHDegrees: real,
    isEulerFormat: bool,
    pos: EulerVec,
    eulerDeg: EulerVec,  // x = pitch, y = roll, z = yaw
    aspectRatio: real)

  /** The field-of-view sentinel of a fresh record. */
  const UnsetFov: real := -9999.0

  /**
   * A default-initialised record. The matrix member has no initialiser, so
   * its entries are whatever the caller passes here.
   */
  function DefaultCamMatrixData(m: Mat34): (d: CamMatrixData)
    ensures d.extrinsicStatus == Uninitialized && StatusValue(d.extrinsicStatus) == 0
    ensures d.fovVDegrees == UnsetFov && d.fovHDegrees == UnsetFov
    ensures !d.isEulerFormat && d.pos == ZeroVec && d.eulerDeg == ZeroVec && d.aspectRatio == 0.0
    ensures d.extrinsicCam2World == m
  {
    CamMatrixData(Uninitialized, m, UnsetFov, UnsetFov, false, ZeroVec, ZeroVec, 0.0)
  }

  /** intrinsic_status(): some field of view has been set to a positive value. */
  predicate IntrinsicStatus(d: CamMatrixData) {
    d.fovVDegrees > 0.0 || d.fovHDegrees > 0.0
  }

  /** A fresh record has no intrinsics; setting either field of view to a positive value gives it some. */
  lemma IntrinsicStatusOfDefault(m: Mat34, fov: real)
    ensures !IntrinsicStatus(DefaultCamMatrixData(m))
    ensures fov > 0.0 ==> IntrinsicStatus(DefaultCamMatrixData(m).(fovVDegrees := fov))
    ensures fov > 0.0 ==> IntrinsicStatus(DefaultCamMatrixData(m).(fovHDegrees := fov))
    ensures fov <= 0.0 ==> !IntrinsicStatus(DefaultCamMatrixData(m).(fovVDegrees := fov))
    ensures fov <= 0.0 ==> !IntrinsicStatus(DefaultCamMatrixData(m).(fovHDegrees := fov))
  {
  }

  /** The 3x4 matrix read row by row. */
  function RowMajor(m: Mat34): (flat: seq<real>)
  {
    m[0] + m[1] + m[2]
  }

  /** Twelve entries read back into three rows of four. */
  function Rows(flat: seq<real>): (m: Mat34)
    requires |flat| == 12
  {
    [flat[0..4], flat[4..8], flat[8..12]]
  }

  /** Row-major order puts entry (r, c) at r * 4 + c, and reading the rows back gives the matrix. */
  lemma RowMajorIndex(m: Mat34)
    ensures |RowMajor(m)| == 12
    ensures forall r, c :: 0 <= r < 3 && 0 <= c < 4 ==> RowMajor(m)[r * 4 + c] == m[r][c]
    ensures Rows(RowMajor(m)) == m
  {
    var flat := RowMajor(m);
    assert flat[0..4] == m[0];
    assert flat[4..8] == m[1];
    assert flat[8..12] == m[2];
  }

  /** The nested loop of into_json that pushes the matrix entries one by one. */
  method FlattenMatrix(m: Mat34) returns (flat: seq<real>)
    ensures flat == RowMajor(m)
  {
    flat := [];
    for r := 0 to 3
      invariant flat == if r == 0 then [] else if r == 1 then m[0] else if r == 2 then m[0] + m[1] else RowMajor(m)
    {
      for c := 0 to 4
        invariant flat == (if r == 0 then [] else if r == 1 then m[0] else m[0] + m[1]) + m[r][..c]
      {
        assert m[r][..c + 1] == m[r][..c] + [m[r][c]];
        flat := flat + [m[r][c]];
      }
      assert m[r][..4] == m[r];
    }
  }

  /** The keys into_json writes in each layout. */
  function OwnKeys(isEuler: bool): set<string> {
    if isEuler then {"fov", "aspect_ratio", "location", "rotation"} else {"extrinsic_cam2world", "fov_v_degrees"}
  }

  function Numbers(xs: seq<real>): (j: Json)
    ensures j.Arr? && |j.items| == |xs| && forall i :: 0 <= i < |xs| ==> j.items[i] == Num(xs[i])
  {
    Arr(seq(|xs|, i requires 0 <= i < |xs| => Num(xs[i])))
  }

  /**
   * into_json(rj): writes this record's keys into rj. Assigning a key turns
   * a null document into an object; on any other kind of document it
   * throws (None), before anything is written.
   */
  method IntoJson(d: CamMatrixData, rj: Json) returns (r: Option<Json>)
    ensures r.Some? <==> rj.Null? || rj.Obj?
    ensures r.Some? ==> r.value.Obj?
    ensures r.Some? ==> forall k :: k !in OwnKeys(d.isEulerFormat) ==>
      (k in r.value.fields <==> rj.Obj? && k in rj.fields) &&
      (k in r.value.fields ==> r.value.fields[k] == rj.fields[k])
    ensures r.Some? && d.isEulerFormat ==>
      var f := r.value.fields;
      && OwnKeys(true) <= f.Keys
      && f["fov"] == Num(d.fovVDegrees) && f["aspect_ratio"] == Num(d.aspectRatio)
      && f["location"] == Obj(map["x" := Num(d.pos.x), "y" := Num(d.pos.y), "z" := Num(d.pos.z)])
      && f["rotation"] == Obj(map["pitch" := Num(d.eulerDeg.x), "roll" := Num(d.eulerDeg.y), "yaw" := Num(d.eulerDeg.z)])
    ensures r.Some? && !d.isEulerFormat ==>
      var f := r.value.fields;
      && OwnKeys(false) <= f.Keys
      && f["fov_v_degrees"] == Num(d.fovVDegrees)
      && f["extrinsic_cam2world"].Arr? && |f["extrinsic_cam2world"].items| == 12
      && (forall row, col :: 0 <= row < 3 && 0 <= col < 4 ==>
            f["extrinsic_cam2world"].items[row * 4 + col] == Num(d.extrinsicCam2World[row][col]))
  {
    if !(rj.Null? || rj.Obj?) {
      return None;
    }
    var fields := if rj.Null? then map[] else rj.fields;
    if d.isEulerFormat {
      fields := fields["fov" := Num(d.fovVDegrees)];
      fields := fields["aspect_ratio" := Num(d.aspectRatio)];
      fields := fields["location" := Obj(map["x" := Num(d.pos.x), "y" := Num(d.pos.y), "z" := Num(d.pos.z)])];
      fields := fields["rotation" := Obj(map["pitch" := Num(d.eulerDeg.x), "roll" := Num(d.eulerDeg.y), "yaw" := Num(d.eulerDeg.z)])];
    } else {
      var flat := FlattenMatrix(d.extrinsicCam2World);
      RowMajorIndex(d.extrinsicCam2World);
      fields := fields["extrinsic_cam2world" := Numbers(flat)];
      fields := fields["fov_v_degrees" := Num(d.fovVDegrees)];
    }
    r := Some(Obj(fields));
  }
}
