/**
 * The IMU mapping: the `sensor_msgs/Imu` decoder, the quaternion validity
 * test, and what `imu_to_rerun` logs under `/{topic}/imu`.
 *
 * The squared norm of the validity test is taken over the exact values of
 * the four doubles; the rounding of the `f64` products and sums is not
 * modelled.  The two magnitudes are square roots: a magnitude entry keeps
 * the vector it is computed from.
 */
module Imu {
  import opened Wire
  import opened Strings

  datatype Quaternion = Quaternion(x: F64, y: F64, z: F64, w: F64)
  datatype Vector3 = Vector3(x: F64, y: F64, z: F64)
  datatype ImuData = ImuData(orientation: Quaternion, angularVelocity: Vector3, linearAcceleration: Vector3)

  // ---------------------------------------------------------------------
  // is_valid_quaternion
  // ---------------------------------------------------------------------

  /** `norm_sq > 0.01 && (norm_sq - 1.0).abs() < 0.1` over real numbers. */
  predicate NearUnit(x: real, y: real, z: real, w: real)
  {
    var n := x * x + y * y + z * z + w * w;
    n > 0.01 && -0.1 < n - 1.0 < 0.1
  }

  /** `is_valid_quaternion`: a NaN component makes every comparison false
    * and an infinite one makes the norm infinite, so a valid quaternion has
    * four finite components whose squared norm is near 1. */
  predicate IsValidQuaternion(q: Quaternion)
  {
    IsFinite64(q.x) && IsFinite64(q.y) && IsFinite64(q.z) && IsFinite64(q.w)
    && NearUnit(Real(q.x), Real(q.y), Real(q.z), Real(q.w))
  }

  /** The tolerance band: everything with squared norm in (0.9, 1.1) is
    * valid, nothing outside [0.9, 1.1] is; the `> 0.01` test never decides. */
  lemma NearUnitBand(x: real, y: real, z: real, w: real)
    ensures var n := x * x + y * y + z * z + w * w;
            NearUnit(x, y, z, w) <==> 0.9 < n < 1.1
  {
  }

  /** The quaternions of the unit tests, over their real values:
    * the identity and (0, 0, 0.1, 0.995) are valid; zero and
    * (0.5, 0.5, 0.5, 2) are not. */
  lemma QuaternionExamples()
    ensures NearUnit(0.0, 0.0, 0.0, 1.0)
    ensures NearUnit(0.0, 0.0, 0.1, 0.995)
    ensures !NearUnit(0.0, 0.0, 0.0, 0.0)
    ensures !NearUnit(0.5, 0.5, 0.5, 2.0)
  {
    assert 0.1 * 0.1 + 0.995 * 0.995 == 1.000025;
    assert 0.5 * 0.5 * 3.0 + 2.0 * 2.0 == 4.75;
  }

  /** As doubles: the identity quaternion is valid and the zero one is not. */
  lemma IdentityValid()
    ensures IsValidQuaternion(Quaternion(ZERO, ZERO, ZERO, ONE))
    ensures !IsValidQuaternion(Quaternion(ZERO, ZERO, ZERO, ZERO))
  {
    ConstantValues();
    QuaternionExamples();
  }

  // ---------------------------------------------------------------------
  // parse_ros_imu
  // ---------------------------------------------------------------------

  function QuaternionAt(p: Bytes, c: nat): Quaternion
    requires c + 32 <= |p|
  {
    Quaternion(F64At(p, c), F64At(p, c + 8), F64At(p, c + 16), F64At(p, c + 24))
  }

  function Vector3At(p: Bytes, c: nat): Vector3
    requires c + 24 <= |p|
  {
    Vector3(F64At(p, c), F64At(p, c + 8), F64At(p, c + 16))
  }

  /** `parse_ros_imu`: with the header ending at `h`, the orientation at
    * `h`, the angular velocity at `h + 104` and the linear acceleration at
    * `h + 200`, each after a length check; the two covariance matrices
    * between them are skipped without one. */
  function ImuOf(p: Bytes): (r: Result<ImuData>)
    ensures r.Ok? <==> |p| >= 16 && StringEnd(p, 12) + 224 <= |p|
    ensures r.Err? ==> r.error == Truncated
  {
    if |p| < 16 then Err(Truncated)
    else
      var h := StringEnd(p, 12);
      if |p| < h + 32 then Err(Truncated)
      else if |p| < h + 128 then Err(Truncated)
      else if |p| < h + 224 then Err(Truncated)
      else Ok(ImuData(QuaternionAt(p, h), Vector3At(p, h + 104), Vector3At(p, h + 200)))
  }

  /** `parse_ros_imu` with its cursor. */
  method ParseRosImu(p: Bytes) returns (r: Result<ImuData>)
    ensures r == ImuOf(p)
  {
    var h := SkipHeader(p, 0);
    if h.Err? { return Err(h.error); }
    var cursor := h.value;
    if |p| < cursor + 32 { return Err(Truncated); }
    var orientation := QuaternionAt(p, cursor);
    cursor := cursor + 32;
    cursor := cursor + 72;
    if |p| < cursor + 24 { return Err(Truncated); }
    var angular := Vector3At(p, cursor);
    cursor := cursor + 24;
    cursor := cursor + 72;
    if |p| < cursor + 24 { return Err(Truncated); }
    var linear := Vector3At(p, cursor);
    r := Ok(ImuData(orientation, angular, linear));
  }

  // ---------------------------------------------------------------------
  // The encoding, and the decoder's round trip
  // ---------------------------------------------------------------------

  /** `f64` values one after the other, eight little-endian bytes each. */
  function DoublesBytes(fs: seq<F64>): (b: Bytes)
    ensures |b| == 8 * |fs|
  {
    if |fs| == 0 then [] else fs[0].bytes + DoublesBytes(fs[1..])
  }

  /** Value `i` of a double array reads back from wherever the array sits. */
  lemma {:induction false} DoublesAt(pre: Bytes, fs: seq<F64>, post: Bytes, i: nat)
    requires i < |fs|
    ensures |pre| + 8 * i + 8 <= |pre + DoublesBytes(fs) + post|
    ensures F64At(pre + DoublesBytes(fs) + post, |pre| + 8 * i) == fs[i]
    decreases i
  {
    var tail := DoublesBytes(fs[1..]);
    assert pre + DoublesBytes(fs) + post == pre + fs[0].bytes + (tail + post);
    if i == 0 {
      F64Inside(pre, fs[0], tail + post);
    } else {
      assert pre + DoublesBytes(fs) + post == (pre + fs[0].bytes) + tail + post;
      DoublesAt(pre + fs[0].bytes, fs[1..], post, i - 1);
    }
  }

  function QuaternionBytes(q: Quaternion): (b: Bytes)
    ensures |b| == 32
  {
    DoublesBytes([q.x, q.y, q.z, q.w])
  }

  function Vector3Bytes(v: Vector3): (b: Bytes)
    ensures |b| == 24
  {
    DoublesBytes([v.x, v.y, v.z])
  }

  /** A quaternion read back from the end of a message. */
  lemma QuaternionEnd(pre: Bytes, q: Quaternion)
    ensures QuaternionAt(pre + QuaternionBytes(q), |pre|) == q
  {
    var fs := [q.x, q.y, q.z, q.w];
    assert pre + QuaternionBytes(q) == pre + DoublesBytes(fs) + [];
    DoublesAt(pre, fs, [], 0);
    DoublesAt(pre, fs, [], 1);
    DoublesAt(pre, fs, [], 2);
    DoublesAt(pre, fs, [], 3);
  }

  /** A vector read back from the end of a message. */
  lemma Vector3End(pre: Bytes, v: Vector3)
    ensures Vector3At(pre + Vector3Bytes(v), |pre|) == v
  {
    var fs := [v.x, v.y, v.z];
    assert pre + Vector3Bytes(v) == pre + DoublesBytes(fs) + [];
    DoublesAt(pre, fs, [], 0);
    DoublesAt(pre, fs, [], 1);
    DoublesAt(pre, fs, [], 2);
  }

  lemma QuaternionLeft(x: Bytes, y: Bytes, j: nat)
    requires j + 32 <= |x|
    ensures QuaternionAt(x + y, j) == QuaternionAt(x, j)
  {
    F64Left(x, y, j);
    F64Left(x, y, j + 8);
    F64Left(x, y, j + 16);
    F64Left(x, y, j + 24);
  }

  lemma Vector3Left(x: Bytes, y: Bytes, j: nat)
    requires j + 24 <= |x|
    ensures Vector3At(x + y, j) == Vector3At(x, j)
  {
    F64Left(x, y, j);
    F64Left(x, y, j + 8);
    F64Left(x, y, j + 16);
  }

  /** An IMU message as the ROS1 serialisation writes it, with seq and
    * stamp 0, up to the linear acceleration; `cov1` and `cov2` are the
    * orientation and angular velocity covariances, 72 bytes each. */
  function ImuPayload(frame: Bytes, d: ImuData, cov1: Bytes, cov2: Bytes): (b: Bytes)
    requires |frame| < TWO_32 && |cov1| == 72 && |cov2| == 72
    ensures |b| == 16 + |frame| + 224
  {
    U32Le(0) + U32Le(0) + U32Le(0) + Str(frame) + QuaternionBytes(d.orientation) + cov1
    + Vector3Bytes(d.angularVelocity) + cov2 + Vector3Bytes(d.linearAcceleration)
  }

  /** An encoded IMU message decodes to its three values whatever follows
    * it (the last covariance matrix, for one). */
  lemma ImuRoundTrip(frame: Bytes, d: ImuData, cov1: Bytes, cov2: Bytes, rest: Bytes)
    requires |frame| < TWO_32 && |cov1| == 72 && |cov2| == 72
    ensures ImuOf(ImuPayload(frame, d, cov1, cov2) + rest) == Ok(d)
  {
    var a0 := U32Le(0) + U32Le(0) + U32Le(0);
    var p1 := a0 + Str(frame);
    var p2 := p1 + QuaternionBytes(d.orientation);
    var p3 := p2 + cov1;
    var p4 := p3 + Vector3Bytes(d.angularVelocity);
    var p5 := p4 + cov2;
    var p6 := p5 + Vector3Bytes(d.linearAcceleration);
    var p := p6 + rest;
    StrEnd(a0, frame);
    U32AtLeft(p1, QuaternionBytes(d.orientation), 12);
    U32AtLeft(p2, cov1, 12);
    U32AtLeft(p3, Vector3Bytes(d.angularVelocity), 12);
    U32AtLeft(p4, cov2, 12);
    U32AtLeft(p5, Vector3Bytes(d.linearAcceleration), 12);
    U32AtLeft(p6, rest, 12);
    QuaternionEnd(p1, d.orientation);
    QuaternionLeft(p2, cov1, |p1|);
    QuaternionLeft(p3, Vector3Bytes(d.angularVelocity), |p1|);
    QuaternionLeft(p4, cov2, |p1|);
    QuaternionLeft(p5, Vector3Bytes(d.linearAcceleration), |p1|);
    QuaternionLeft(p6, rest, |p1|);
    Vector3End(p3, d.angularVelocity);
    Vector3Left(p4, cov2, |p3|);
    Vector3Left(p5, Vector3Bytes(d.linearAcceleration), |p3|);
    Vector3Left(p6, rest, |p3|);
    Vector3End(p5, d.linearAcceleration);
    Vector3Left(p6, rest, |p5|);
  }

  // ---------------------------------------------------------------------
  // imu_to_rerun
  // ---------------------------------------------------------------------

  datatype Rgb = Rgb(r: nat, g: nat, b: nat)

  /** The entries `imu_to_rerun` logs: a rotation, an arrow with its colour,
    * a magnitude scalar of a vector. */
  datatype ImuLog =
    | Rotation(path: string, q: Quaternion)
    | Arrow(path: string, v: Vector3, color: Rgb)
    | Magnitude(path: string, v: Vector3)

  /** `/{topic without its leading slashes}/imu`. */
  function ImuPath(topic: string): (path: string)
    ensures StartsWith(path, '/') && |path| >= 5 && path[|path| - 4..] == "/imu"
    ensures path[1..|path| - 4] == TrimLeadingSlashes(topic)
    ensures TrimLeadingSlashes(topic) != "" ==> !StartsWith(path[1..], '/')
  {
    "/" + TrimLeadingSlashes(topic) + "/imu"
  }

  const ORANGE: Rgb := Rgb(255, 165, 0)
  const RED: Rgb := Rgb(255, 0, 0)

  /** The entries for one decoded message, in logging order. */
  function ImuLogs(topic: string, d: ImuData): (logs: seq<ImuLog>)
  {
    var base := ImuPath(topic);
    (if IsValidQuaternion(d.orientation) then [Rotation(base + "/orientation", d.orientation)] else [])
    + [Arrow(base + "/angular_velocity", d.angularVelocity, ORANGE),
       Arrow(base + "/linear_acceleration", d.linearAcceleration, RED),
       Magnitude(base + "/angular_velocity_magnitude", d.angularVelocity),
       Magnitude(base + "/linear_acceleration_magnitude", d.linearAcceleration)]
  }

  /** `imu_to_rerun`: a decoding error is returned before anything is
    * logged. */
  function ImuEntry(topic: string, payload: Bytes): (r: Result<seq<ImuLog>>)
    ensures r.Ok? <==> ImuOf(payload).Ok?
  {
    var d :- ImuOf(payload);
    Ok(ImuLogs(topic, d))
  }

  /** The orientation is logged exactly when it is a valid quaternion, and
    * first; the two arrows and then the two magnitudes are always logged. */
  lemma ImuLogsShape(topic: string, d: ImuData)
    ensures var logs, base := ImuLogs(topic, d), ImuPath(topic);
            && |logs| == (if IsValidQuaternion(d.orientation) then 5 else 4)
            && (IsValidQuaternion(d.orientation) <==> logs[0].Rotation?)
            && (forall i :: 1 <= i < |logs| ==> !logs[i].Rotation?)
            && (IsValidQuaternion(d.orientation) ==> logs[0] == Rotation(base + "/orientation", d.orientation))
            && logs[|logs| - 4] == Arrow(base + "/angular_velocity", d.angularVelocity, ORANGE)
            && logs[|logs| - 3] == Arrow(base + "/linear_acceleration", d.linearAcceleration, RED)
            && logs[|logs| - 2] == Magnitude(base + "/angular_velocity_magnitude", d.angularVelocity)
            && logs[|logs| - 1] == Magnitude(base + "/linear_acceleration_magnitude", d.linearAcceleration)
  {
  }

  /** Every entry lies under `/{topic}/imu/`. */
  lemma ImuPathsUnder(topic: string, d: ImuData)
    ensures var logs, base := ImuLogs(topic, d), ImuPath(topic) + "/";
            forall i :: 0 <= i < |logs| ==> |base| <= |logs[i].path| && logs[i].path[..|base|] == base
  {
    var logs := ImuLogs(topic, d);
    forall i | 0 <= i < |logs|
      ensures |ImuPath(topic) + "/"| <= |logs[i].path| && logs[i].path[..|ImuPath(topic) + "/"|] == ImuPath(topic) + "/"
    {
      PathUnder(ImuPath(topic), logs[i].path);
    }
  }

  /** The paths of the entries, without the common prefix, are the five
    * suffixes. */
  lemma PathUnder(base: string, path: string)
    requires path in {base + "/orientation", base + "/angular_velocity", base + "/linear_acceleration",
                      base + "/angular_velocity_magnitude", base + "/linear_acceleration_magnitude"}
    ensures |base + "/"| <= |path| && path[..|base + "/"|] == base + "/"
  {
  }

  /** `imu_to_rerun` as a method. */
  method ImuToRerun(topic: string, payload: Bytes) returns (r: Result<seq<ImuLog>>)
    ensures r == ImuEntry(topic, payload)
  {
    var d := ParseRosImu(payload);
    if d.Err? { return Err(d.error); }
    var base := ImuPath(topic);
    var rotation: seq<ImuLog> := [];
    if IsValidQuaternion(d.value.orientation) {
      rotation := [Rotation(base + "/orientation", d.value.orientation)];
    }
    var logs := rotation
      + [Arrow(base + "/angular_velocity", d.value.angularVelocity, ORANGE),
         Arrow(base + "/linear_acceleration", d.value.linearAcceleration, RED),
         Magnitude(base + "/angular_velocity_magnitude", d.value.angularVelocity),
         Magnitude(base + "/linear_acceleration_magnitude", d.value.linearAcceleration)];
    r := Ok(logs);
  }
}
