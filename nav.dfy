/**
 * The navigation mappings: the `nav_msgs/Odometry`,
 * `geometry_msgs/PoseStamped` and `nav_msgs/Path` decoders, the rename
 * tables that choose entity paths, and what `odometry_to_rerun`,
 * `pose_stamped_to_rerun` and `path_to_rerun` log.
 *
 * A `geometry_msgs/Pose` is read exactly like the transform of the TF
 * decoder (three f64 of position, then x, y, z, w of orientation), so it is
 * that `Transform`; `pose_to_isometry` is the `Local` isometry term.  The
 * optional transform graph is a `TfGraph`, and its `resolve` is called as
 * the source calls it.
 */
module Nav {
  import opened Options
  import opened Wire
  import opened Strings
  import opened TfMessage
  import opened TfSelect
  import opened Reach
  import opened Tf

  type Pose = Transform

  datatype Header = Header(stamp: F64, frameId: string)

  datatype PoseStamped = PoseStamped(header: Header, pose: Pose)

  datatype PoseWithCovariance = PoseWithCovariance(pose: Pose)

  datatype Odometry = Odometry(header: Header, childFrameId: string, pose: PoseWithCovariance)

  datatype NavPath = NavPath(header: Header, poses: seq<PoseStamped>)

  // ---------------------------------------------------------------------
  // The decoders as functions of the payload
  // ---------------------------------------------------------------------

  /** `parse_header`: seq skipped without a check, the stamp read as one
    * checked f64 at `c + 4`, then the frame id string (checked length,
    * unchecked slice). */
  function HeaderAt(p: Bytes, c: nat): (r: Result<(Header, nat)>)
    ensures r.Ok? ==> c + 16 <= r.value.1 <= |p|
  {
    if c + 12 > |p| then Err(Truncated)
    else if c + 16 > |p| then Err(Truncated)
    else if StringEnd(p, c + 12) > |p| then Err(SlicePanic)
    else Ok((Header(F64At(p, c + 4), Text(p[c + 16..StringEnd(p, c + 12)])), StringEnd(p, c + 12)))
  }

  /** `parse_pose`: position and orientation, 56 bytes. */
  function PoseAt(p: Bytes, c: nat): (r: Result<(Pose, nat)>)
    ensures r.Ok? <==> c + 56 <= |p|
  {
    if c + 56 > |p| then Err(Truncated) else Ok((TransformAt(p, c), c + 56))
  }

  /** `parse_pose_stamped`: a header, then a pose. */
  function PoseStampedAt(p: Bytes, c: nat): (r: Result<(PoseStamped, nat)>)
    ensures r.Ok? ==> c + 72 <= r.value.1 <= |p|
  {
    var header := HeaderAt(p, c);
    if header.Err? then Err(header.error)
    else if header.value.1 + 56 > |p| then Err(Truncated)
    else Ok((PoseStamped(header.value.0, TransformAt(p, header.value.1)), header.value.1 + 56))
  }

  /** `n` pose records one after the other from `c`. */
  function PosesFrom(p: Bytes, c: nat, n: nat): (r: Result<(seq<PoseStamped>, nat)>)
    ensures r.Ok? ==> |r.value.0| == n && c <= r.value.1
    decreases n
  {
    if n == 0 then Ok(([], c))
    else
      var first := PoseStampedAt(p, c);
      if first.Err? then Err(first.error)
      else
        var rest := PosesFrom(p, first.value.1, n - 1);
        if rest.Err? then Err(rest.error)
        else Ok(([first.value.0] + rest.value.0, rest.value.1))
  }

  /** `parse_path`: a header, a u32 count, then exactly that many records. */
  function PathOf(p: Bytes): Result<NavPath>
  {
    var header := HeaderAt(p, 0);
    if header.Err? then Err(header.error)
    else
      var c := header.value.1;
      if c + 4 > |p| then Err(Truncated)
      else
        var poses := PosesFrom(p, c + 4, U32At(p, c));
        if poses.Err? then Err(poses.error)
        else Ok(NavPath(header.value.0, poses.value.0))
  }

  /** `parse_odometry`: a header, the child frame id, then the pose.  The
    * 288 covariance bytes after the pose are stepped over without a check,
    * so a message that stops right after the pose still decodes. */
  function OdometryOf(p: Bytes): Result<Odometry>
  {
    var header := HeaderAt(p, 0);
    if header.Err? then Err(header.error)
    else
      var k := header.value.1;
      if k + 4 > |p| then Err(Truncated)
      else if StringEnd(p, k) > |p| then Err(SlicePanic)
      else
        var pose := PoseAt(p, StringEnd(p, k));
        if pose.Err? then Err(pose.error)
        else Ok(Odometry(header.value.0, Text(p[k + 4..StringEnd(p, k)]), PoseWithCovariance(pose.value.0)))
  }

  /** A result of `PosesFrom` behind records already read. */
  function PrefixPoses(acc: seq<PoseStamped>, r: Result<(seq<PoseStamped>, nat)>): Result<(seq<PoseStamped>, nat)>
  {
    if r.Ok? then Ok((acc + r.value.0, r.value.1)) else r
  }

  // ---------------------------------------------------------------------
  // The cursor readers
  // ---------------------------------------------------------------------

  method ParseHeader(p: Bytes, c: nat) returns (r: Result<Header>, next: nat)
    ensures Pack(r, next) == HeaderAt(p, c)
  {
    var stamp, frame;
    stamp, next := ReadF64(p, c + 4);
    if stamp.Err? { return Err(stamp.error), next; }
    frame, next := ParseString(p, next);
    if frame.Err? { return Err(frame.error), next; }
    r := Ok(Header(stamp.value, frame.value));
  }

  method ParsePose(p: Bytes, c: nat) returns (r: Result<Pose>, next: nat)
    ensures Pack(r, next) == PoseAt(p, c)
  {
    var position, orientation;
    position, next := ParseVector3(p, c);
    if position.Err? { return Err(position.error), next; }
    orientation, next := ParseQuaternion(p, next);
    if orientation.Err? { return Err(orientation.error), next; }
    r := Ok(Transform(position.value, orientation.value));
  }

  method ParsePoseStamped(p: Bytes, c: nat) returns (r: Result<PoseStamped>, next: nat)
    ensures Pack(r, next) == PoseStampedAt(p, c)
  {
    var header, pose;
    header, next := ParseHeader(p, c);
    if header.Err? { return Err(header.error), next; }
    pose, next := ParsePose(p, next);
    if pose.Err? { return Err(pose.error), next; }
    r := Ok(PoseStamped(header.value, pose.value));
  }

  /** `parse_pose_with_covariance`: the pose, then the cursor moved past the
    * 36 covariance doubles whether or not they are there. */
  method ParsePoseWithCovariance(p: Bytes, c: nat) returns (r: Result<PoseWithCovariance>, next: nat)
    ensures r.Ok? <==> PoseAt(p, c).Ok?
    ensures r.Ok? ==> r.value == PoseWithCovariance(PoseAt(p, c).value.0) && next == c + 56 + 36 * 8
    ensures r.Err? ==> r.error == PoseAt(p, c).error
  {
    var pose;
    pose, next := ParsePose(p, c);
    if pose.Err? { return Err(pose.error), next; }
    r := Ok(PoseWithCovariance(pose.value));
    next := next + 36 * 8;
  }

  method ParseOdometry(p: Bytes) returns (r: Result<Odometry>)
    ensures r == OdometryOf(p)
  {
    var header, child, pose, cursor;
    header, cursor := ParseHeader(p, 0);
    if header.Err? { return Err(header.error); }
    child, cursor := ParseString(p, cursor);
    if child.Err? { return Err(child.error); }
    pose, cursor := ParsePoseWithCovariance(p, cursor);
    if pose.Err? { return Err(pose.error); }
    r := Ok(Odometry(header.value, child.value, pose.value));
  }

  method ParsePath(p: Bytes) returns (r: Result<NavPath>)
    ensures r == PathOf(p)
  {
    var header, cursor := ParseHeader(p, 0);
    if header.Err? { return Err(header.error); }
    var len;
    len, cursor := ReadU32(p, cursor);
    if len.Err? { return Err(len.error); }
    var poses, _ := ReadPoses(p, cursor, len.value);
    if poses.Err? { return Err(poses.error); }
    r := Ok(NavPath(header.value, poses.value));
  }

  /** The `for _ in 0..len` loop of `parse_path`. */
  method ReadPoses(p: Bytes, c: nat, n: nat) returns (r: Result<seq<PoseStamped>>, next: nat)
    ensures Pack(r, next) == PosesFrom(p, c, n)
  {
    var poses: seq<PoseStamped> := [];
    var cursor := c;
    var remaining := n;
    PrefixPosesEmpty(PosesFrom(p, c, n));
    while remaining > 0
      invariant PosesFrom(p, c, n) == PrefixPoses(poses, PosesFrom(p, cursor, remaining))
    {
      var pose, after := ParsePoseStamped(p, cursor);
      if pose.Err? {
        PosesUnfold(p, cursor, remaining);
        return Err(pose.error), cursor;
      }
      PosesAdvance(p, c, n, poses, cursor, remaining, pose.value, after);
      poses := poses + [pose.value];
      cursor := after;
      remaining := remaining - 1;
    }
    PrefixPosesDone(poses, p, cursor);
    r, next := Ok(poses), cursor;
  }

  /** One more record read keeps the loop invariant of `ReadPoses`. */
  lemma PosesAdvance(p: Bytes, c: nat, n: nat, poses: seq<PoseStamped>, cursor: nat, remaining: nat,
                     pose: PoseStamped, next: nat)
    requires remaining > 0 && PosesFrom(p, c, n) == PrefixPoses(poses, PosesFrom(p, cursor, remaining))
    requires PoseStampedAt(p, cursor) == Ok((pose, next))
    ensures PosesFrom(p, c, n) == PrefixPoses(poses + [pose], PosesFrom(p, next, remaining - 1))
  {
    PosesUnfold(p, cursor, remaining);
    PrefixPosesAssoc(poses, [pose], PosesFrom(p, next, remaining - 1));
  }

  lemma PosesUnfold(p: Bytes, c: nat, n: nat)
    requires n > 0
    ensures PoseStampedAt(p, c).Err? ==> PosesFrom(p, c, n) == Err(PoseStampedAt(p, c).error)
    ensures PoseStampedAt(p, c).Ok? ==>
      PosesFrom(p, c, n) == PrefixPoses([PoseStampedAt(p, c).value.0], PosesFrom(p, PoseStampedAt(p, c).value.1, n - 1))
  {
  }

  lemma PrefixPosesEmpty(r: Result<(seq<PoseStamped>, nat)>)
    ensures PrefixPoses([], r) == r
  {
    if r.Ok? {
      assert [] + r.value.0 == r.value.0;
    }
  }

  lemma PrefixPosesDone(poses: seq<PoseStamped>, p: Bytes, c: nat)
    ensures PrefixPoses(poses, PosesFrom(p, c, 0)) == Ok((poses, c))
  {
    assert poses + [] == poses;
  }

  lemma PrefixPosesAssoc(a: seq<PoseStamped>, b: seq<PoseStamped>, r: Result<(seq<PoseStamped>, nat)>)
    ensures PrefixPoses(a, PrefixPoses(b, r)) == PrefixPoses(a + b, r)
  {
    if r.Ok? {
      assert a + (b + r.value.0) == (a + b) + r.value.0;
    }
  }

  // ---------------------------------------------------------------------
  // The encoding, and the decoders' round trips
  // ---------------------------------------------------------------------

  /** One pose record before encoding: the frame id's bytes, the stamp and
    * the pose. */
  datatype PoseRecord = PoseRecord(frame: Bytes, stamp: F64, pose: Pose)

  /** A record whose frame id fits the u32 length prefix. */
  type Record = rec: PoseRecord | |rec.frame| < TWO_32
    witness PoseRecord([], ZERO, Transform(Vector3(ZERO, ZERO, ZERO), Quaternion(ZERO, ZERO, ZERO, ONE)))

  /** A header with seq 0. */
  function HeaderBytes(frame: Bytes, stamp: F64): (b: Bytes)
    requires |frame| < TWO_32
    ensures |b| == 16 + |frame|
  {
    U32Le(0) + stamp.bytes + Str(frame)
  }

  function RecordBytes(rec: Record): (b: Bytes)
    ensures |b| == 72 + |rec.frame|
  {
    HeaderBytes(rec.frame, rec.stamp) + TransformBytes(rec.pose)
  }

  function RecordsBytes(recs: seq<Record>): Bytes
  {
    if |recs| == 0 then [] else RecordBytes(recs[0]) + RecordsBytes(recs[1..])
  }

  /** What a record decodes to. */
  function Decoded(rec: Record): PoseStamped
  {
    PoseStamped(Header(rec.stamp, Text(rec.frame)), rec.pose)
  }

  function DecodedAll(recs: seq<Record>): (r: seq<PoseStamped>)
    ensures |r| == |recs|
  {
    if |recs| == 0 then [] else [Decoded(recs[0])] + DecodedAll(recs[1..])
  }

  /** A header read back from the end of a message. */
  lemma HeaderEnd(a: Bytes, frame: Bytes, stamp: F64)
    requires |frame| < TWO_32
    ensures HeaderAt(a + HeaderBytes(frame, stamp), |a|)
            == Ok((Header(stamp, Text(frame)), |a| + 16 + |frame|))
  {
    var q0 := a + U32Le(0) + stamp.bytes;
    assert a + HeaderBytes(frame, stamp) == q0 + Str(frame);
    F64Inside(a + U32Le(0), stamp, []);
    assert a + U32Le(0) + stamp.bytes + [] == q0;
    F64Left(q0, Str(frame), |a| + 4);
    StrEnd(q0, frame);
  }

  /** A header read from the front part of a message ignores what follows. */
  lemma HeaderLeft(x: Bytes, y: Bytes, c: nat)
    requires HeaderAt(x, c).Ok?
    ensures HeaderAt(x + y, c) == HeaderAt(x, c)
  {
    F64Left(x, y, c + 4);
    U32AtLeft(x, y, c + 12);
    SliceLeft(x, y, c + 16, StringEnd(x, c + 12));
  }

  lemma TransformLeft(x: Bytes, y: Bytes, c: nat)
    requires c + 56 <= |x|
    ensures TransformAt(x + y, c) == TransformAt(x, c)
  {
    F64Left(x, y, c);
    F64Left(x, y, c + 8);
    F64Left(x, y, c + 16);
    F64Left(x, y, c + 24);
    F64Left(x, y, c + 32);
    F64Left(x, y, c + 40);
    F64Left(x, y, c + 48);
  }

  /** A pose record read back from the end of a message. */
  lemma RecordEnd(a: Bytes, rec: Record)
    ensures PoseStampedAt(a + RecordBytes(rec), |a|) == Ok((Decoded(rec), |a| + |RecordBytes(rec)|))
  {
    var h := a + HeaderBytes(rec.frame, rec.stamp);
    assert a + RecordBytes(rec) == h + TransformBytes(rec.pose);
    HeaderEnd(a, rec.frame, rec.stamp);
    HeaderLeft(h, TransformBytes(rec.pose), |a|);
    TransformBytesRoundTrip(h, rec.pose);
  }

  /** A pose record read from the front part of a message ignores what
    * follows. */
  lemma RecordLeft(x: Bytes, y: Bytes, c: nat)
    requires PoseStampedAt(x, c).Ok?
    ensures PoseStampedAt(x + y, c) == PoseStampedAt(x, c)
  {
    HeaderLeft(x, y, c);
    TransformLeft(x, y, HeaderAt(x, c).value.1);
  }

  /** `PosesFrom` of one record followed by the others. */
  lemma PosesCons(p: Bytes, c: nat, n: nat, first: PoseStamped, k: nat, rest: seq<PoseStamped>, next: nat)
    requires n > 0 && PoseStampedAt(p, c) == Ok((first, k)) && PosesFrom(p, k, n - 1) == Ok((rest, next))
    ensures PosesFrom(p, c, n) == Ok(([first] + rest, next))
  {
  }

  /** The number of bytes the records take up when encoded. */
  function RecordsSize(recs: seq<Record>): nat
  {
    if |recs| == 0 then 0 else 72 + |recs[0].frame| + RecordsSize(recs[1..])
  }

  lemma RecordsBytesCons(recs: seq<Record>)
    requires |recs| > 0
    ensures RecordsBytes(recs) == RecordBytes(recs[0]) + RecordsBytes(recs[1..])
  {
  }

  lemma DecodedCons(recs: seq<Record>)
    requires |recs| > 0
    ensures DecodedAll(recs) == [Decoded(recs[0])] + DecodedAll(recs[1..])
  {
  }

  /** Record `rec` is encoded in `p` at `c`. */
  ghost predicate RecordIn(p: Bytes, c: nat, rec: Record)
  {
    c + |RecordBytes(rec)| <= |p| && p[c..c + |RecordBytes(rec)|] == RecordBytes(rec)
  }

  /** Each record of `recs` reads back from `p`, one after the other from
    * `c`. */
  ghost predicate Placed(p: Bytes, c: nat, recs: seq<Record>)
    decreases |recs|
  {
    |recs| > 0 ==>
      PoseStampedAt(p, c) == Ok((Decoded(recs[0]), c + 72 + |recs[0].frame|))
      && Placed(p, c + 72 + |recs[0].frame|, recs[1..])
  }

  /** An encoded record reads back from wherever it sits. */
  lemma RecordRoundTrip(p: Bytes, c: nat, rec: Record)
    requires RecordIn(p, c, rec)
    ensures PoseStampedAt(p, c) == Ok((Decoded(rec), c + 72 + |rec.frame|))
  {
    var rb := RecordBytes(rec);
    SliceAround(p, c, rb);
    RecordEnd(p[..c], rec);
    RecordLeft(p[..c] + rb, p[c + |rb|..], c);
  }

  /** Placed records read back one after the other. */
  lemma {:induction false} PlacedPoses(p: Bytes, c: nat, recs: seq<Record>)
    requires Placed(p, c, recs)
    ensures PosesFrom(p, c, |recs|) == Ok((DecodedAll(recs), c + RecordsSize(recs)))
    decreases |recs|
  {
    if |recs| > 0 {
      var next := c + 72 + |recs[0].frame|;
      PlacedPoses(p, next, recs[1..]);
      PosesStep(p, c, recs, next);
    }
  }

  /** The records read back when the first one does and the rest do. */
  lemma {:induction false} PosesStep(p: Bytes, c: nat, recs: seq<Record>, next: nat)
    requires |recs| > 0 && next == c + 72 + |recs[0].frame|
    requires PoseStampedAt(p, c) == Ok((Decoded(recs[0]), next))
    requires PosesFrom(p, next, |recs| - 1) == Ok((DecodedAll(recs[1..]), next + RecordsSize(recs[1..])))
    ensures PosesFrom(p, c, |recs|) == Ok((DecodedAll(recs), c + RecordsSize(recs)))
  {
    PosesCons(p, c, |recs|, Decoded(recs[0]), next, DecodedAll(recs[1..]), next + RecordsSize(recs[1..]));
    DecodedCons(recs);
  }

  /** Each record of `recs` is encoded in `p`, one after the other from
    * `c`. */
  ghost predicate RecordsIn(p: Bytes, c: nat, recs: seq<Record>)
    decreases |recs|
  {
    |recs| > 0 ==> RecordIn(p, c, recs[0]) && RecordsIn(p, c + 72 + |recs[0].frame|, recs[1..])
  }

  /** The encoded records, found in place, are found one by one. */
  lemma {:induction false} RecordsInOf(p: Bytes, c: nat, recs: seq<Record>)
    requires c + |RecordsBytes(recs)| <= |p| && p[c..c + |RecordsBytes(recs)|] == RecordsBytes(recs)
    ensures RecordsIn(p, c, recs)
    decreases |recs|
  {
    if |recs| > 0 {
      var rb, tb := RecordBytes(recs[0]), RecordsBytes(recs[1..]);
      RecordsBytesCons(recs);
      SliceParts(p, c, rb, tb);
      RecordsInOf(p, c + |rb|, recs[1..]);
    }
  }

  /** Records encoded one after the other read back one after the other. */
  lemma {:induction false} PlacedOf(p: Bytes, c: nat, recs: seq<Record>)
    requires RecordsIn(p, c, recs)
    ensures Placed(p, c, recs)
    decreases |recs|
  {
    if |recs| > 0 {
      RecordRoundTrip(p, c, recs[0]);
      PlacedOf(p, c + 72 + |recs[0].frame|, recs[1..]);
      PlacedCons(p, c, recs);
    }
  }

  lemma PlacedCons(p: Bytes, c: nat, recs: seq<Record>)
    requires |recs| > 0 && PoseStampedAt(p, c) == Ok((Decoded(recs[0]), c + 72 + |recs[0].frame|))
    requires Placed(p, c + 72 + |recs[0].frame|, recs[1..])
    ensures Placed(p, c, recs)
  {
  }

  /** A path as the ROS1 serialisation writes it, with seq 0. */
  function PathPayload(frame: Bytes, stamp: F64, recs: seq<Record>): Bytes
    requires |frame| < TWO_32 && |recs| < TWO_32
  {
    HeaderBytes(frame, stamp) + U32Le(|recs|) + RecordsBytes(recs)
  }

  /** `PathOf` from its three parts. */
  lemma PathOfParts(p: Bytes, header: Header, c: nat, n: nat, poses: seq<PoseStamped>, next: nat)
    requires HeaderAt(p, 0) == Ok((header, c)) && c + 4 <= |p| && U32At(p, c) == n
    requires PosesFrom(p, c + 4, n) == Ok((poses, next))
    ensures PathOf(p) == Ok(NavPath(header, poses))
  {
  }

  /** An encoded path decodes to its header and its records, in order,
    * whatever follows it. */
  lemma {:induction false} PathRoundTrip(frame: Bytes, stamp: F64, recs: seq<Record>, rest: Bytes)
    requires |frame| < TWO_32 && |recs| < TWO_32
    ensures PathOf(PathPayload(frame, stamp, recs) + rest)
            == Ok(NavPath(Header(stamp, Text(frame)), DecodedAll(recs)))
  {
    var h := HeaderBytes(frame, stamp);
    var p := PathPayload(frame, stamp, recs) + rest;
    PathFrame(p, frame, stamp, |recs|, RecordsBytes(recs), rest);
    RecordsInOf(p, |h| + 4, recs);
    PlacedOf(p, |h| + 4, recs);
    PathDecodes(p, Header(stamp, Text(frame)), |h|, recs);
  }

  /** A path whose header and pose count are found in place, and whose
    * records read back one after the other. */
  lemma {:induction false} PathDecodes(p: Bytes, header: Header, c: nat, recs: seq<Record>)
    requires HeaderAt(p, 0) == Ok((header, c)) && c + 4 <= |p| && U32At(p, c) == |recs|
    requires Placed(p, c + 4, recs)
    ensures PathOf(p) == Ok(NavPath(header, DecodedAll(recs)))
  {
    PlacedPoses(p, c + 4, recs);
    PathOfParts(p, header, c, |recs|, DecodedAll(recs), c + 4 + RecordsSize(recs));
  }

  /** The header and the pose count of an encoded path, and where its
    * records sit, whatever the records are. */
  lemma PathFrame(p: Bytes, frame: Bytes, stamp: F64, n: nat, body: Bytes, rest: Bytes)
    requires |frame| < TWO_32 && n < TWO_32
    requires p == HeaderBytes(frame, stamp) + U32Le(n) + body + rest
    ensures HeaderAt(p, 0) == Ok((Header(stamp, Text(frame)), |HeaderBytes(frame, stamp)|))
    ensures |HeaderBytes(frame, stamp)| + 4 + |body| <= |p|
    ensures U32At(p, |HeaderBytes(frame, stamp)|) == n
    ensures p[|HeaderBytes(frame, stamp)| + 4..|HeaderBytes(frame, stamp)| + 4 + |body|] == body
  {
    var h := HeaderBytes(frame, stamp);
    var hc := h + U32Le(n);
    HeaderEnd([], frame, stamp);
    assert [] + h == h;
    HeaderLeft(h, U32Le(n), 0);
    HeaderLeft(hc, body, 0);
    HeaderLeft(hc + body, rest, 0);
    U32AtEnd(h, n);
    U32AtLeft(hc, body, |h|);
    U32AtLeft(hc + body, rest, |h|);
    SliceInside(hc, body, rest);
  }

  /** An odometry message up to its pose, as the ROS1 serialisation writes
    * it with seq 0; the covariance and the twist would follow. */
  function OdometryPayload(frame: Bytes, stamp: F64, child: Bytes, pose: Pose): (b: Bytes)
    requires |frame| < TWO_32 && |child| < TWO_32
  {
    HeaderBytes(frame, stamp) + Str(child) + TransformBytes(pose)
  }

  /** An encoded odometry message decodes to its header, child frame and
    * pose, whatever follows the pose, nothing included. */
  lemma {:induction false} OdometryRoundTrip(frame: Bytes, stamp: F64, child: Bytes, pose: Pose, rest: Bytes)
    requires |frame| < TWO_32 && |child| < TWO_32
    ensures OdometryOf(OdometryPayload(frame, stamp, child, pose) + rest)
            == Ok(Odometry(Header(stamp, Text(frame)), Text(child), PoseWithCovariance(pose)))
  {
    OdometryAt(OdometryPayload(frame, stamp, child, pose) + rest, frame, stamp, child, pose, rest);
  }

  /** `OdometryRoundTrip` for a message `p` known by its parts. */
  lemma {:induction false} OdometryAt(p: Bytes, frame: Bytes, stamp: F64, child: Bytes, pose: Pose, rest: Bytes)
    requires |frame| < TWO_32 && |child| < TWO_32
    requires p == OdometryPayload(frame, stamp, child, pose) + rest
    ensures OdometryOf(p) == Ok(Odometry(Header(stamp, Text(frame)), Text(child), PoseWithCovariance(pose)))
  {
    var h := HeaderBytes(frame, stamp);
    OdometryFrame(p, frame, stamp, child, TransformBytes(pose), rest);
    TransformFromSlice(p, |h| + 4 + |child|, pose);
    OdometryOfParts(p, Header(stamp, Text(frame)), |h|, pose);
  }

  /** The header and the child frame id of an encoded odometry message,
    * and where the bytes after them sit, whatever those bytes are. */
  lemma {:induction false} OdometryFrame(p: Bytes, frame: Bytes, stamp: F64, child: Bytes, body: Bytes, rest: Bytes)
    requires |frame| < TWO_32 && |child| < TWO_32
    requires p == HeaderBytes(frame, stamp) + Str(child) + body + rest
    ensures HeaderAt(p, 0) == Ok((Header(stamp, Text(frame)), |HeaderBytes(frame, stamp)|))
    ensures |HeaderBytes(frame, stamp)| + 4 + |child| + |body| <= |p|
    ensures StringEnd(p, |HeaderBytes(frame, stamp)|) == |HeaderBytes(frame, stamp)| + 4 + |child|
    ensures p[|HeaderBytes(frame, stamp)| + 4..|HeaderBytes(frame, stamp)| + 4 + |child|] == child
    ensures p[|HeaderBytes(frame, stamp)| + 4 + |child|..|HeaderBytes(frame, stamp)| + 4 + |child| + |body|] == body
  {
    var h := HeaderBytes(frame, stamp);
    var hs := h + Str(child);
    HeaderEnd([], frame, stamp);
    assert [] + h == h;
    HeaderLeft(h, Str(child), 0);
    HeaderLeft(hs, body, 0);
    HeaderLeft(hs + body, rest, 0);
    StrEnd(h, child);
    U32AtLeft(hs, body, |h|);
    U32AtLeft(hs + body, rest, |h|);
    SliceLeft(hs, body, |h| + 4, |hs|);
    SliceLeft(hs + body, rest, |h| + 4, |hs|);
    SliceInside(hs, body, rest);
  }

  /** A pose read back from wherever its bytes sit. */
  lemma {:induction false} TransformFromSlice(p: Bytes, at: nat, pose: Pose)
    requires at + 56 <= |p| && p[at..at + 56] == TransformBytes(pose)
    ensures TransformAt(p, at) == pose
  {
    SliceAround(p, at, TransformBytes(pose));
    TransformBytesRoundTrip(p[..at], pose);
    TransformLeft(p[..at] + TransformBytes(pose), p[at + 56..], at);
  }

  /** `OdometryOf` from its parts. */
  lemma {:induction false} OdometryOfParts(p: Bytes, header: Header, k: nat, pose: Pose)
    requires HeaderAt(p, 0) == Ok((header, k)) && k + 4 <= |p| && StringEnd(p, k) + 56 <= |p|
    requires TransformAt(p, StringEnd(p, k)) == pose
    ensures OdometryOf(p) == Ok(Odometry(header, Text(p[k + 4..StringEnd(p, k)]), PoseWithCovariance(pose)))
  {
  }

  /** A path whose count promises more records than the payload holds
    * fails, however the bytes after the count look. */
  lemma {:induction false} ShortPosesFail(p: Bytes, c: nat, n: nat)
    requires n > 0 && |p| < c + 72 * n
    ensures PosesFrom(p, c, n).Err?
    decreases n
  {
    if n > 1 && PoseStampedAt(p, c).Ok? {
      ShortPosesFail(p, PoseStampedAt(p, c).value.1, n - 1);
    }
  }

  // ---------------------------------------------------------------------
  // Entity paths
  // ---------------------------------------------------------------------

  /** `map_topic_to_path(topic, topic_renames).unwrap_or_else(..)`: the
    * rename of the first `topic=path` entry, otherwise
    * `/{root}/{kind}/{topic}`. */
  function TopicPath(topic: string, renames: seq<string>, root: string, kind: string): (r: string)
    ensures (forall i :: 0 <= i < |renames| ==> !MapsKey(renames[i], topic)) ==> r == "/" + root + "/" + kind + "/" + topic
    ensures (exists i :: 0 <= i < |renames| && MapsKey(renames[i], topic)) ==>
      exists i :: 0 <= i < |renames| && Maps(renames[i], topic, r)
                  && forall j :: 0 <= j < i ==> !MapsKey(renames[j], topic)
  {
    match Lookup(topic, renames)
    case Some(p) => p
    case None => "/" + root + "/" + kind + "/" + topic
  }

  // ---------------------------------------------------------------------
  // The transform-graph fallback
  // ---------------------------------------------------------------------

  /** What `resolve(target, source, ..)` may have returned: a composition
    * along a chain of edges from the source to the target, nothing when
    * the two are not connected, and the identity from a frame to itself. */
  ghost predicate Resolves(g: TfGraph, target: string, source: string, at: real, mode: TfMode, r: Option<Iso>)
    reads g
  {
    && (r.Some? ==> exists path :: IsChain(g.Keys(), path, source, target) && g.ComposeAlong(path, at, mode) == r)
    && (!Connected(g.Keys(), source, target) ==> r.None?)
    && (source == target ==> r == Some(Identity))
  }

  /** What the optional graph resolved: nothing without a graph. */
  ghost predicate ResolvedBy(tf: Option<TfGraph>, target: string, source: string, at: real, mode: TfMode, r: Option<Iso>)
    reads if tf.Some? then {tf.value} else {}
  {
    && (tf.None? ==> r.None?)
    && (tf.Some? ==> Resolves(tf.value, target, source, at, mode, r))
  }

  /** `if let Some(tf) = tf_graph && let Some(root_iso) = tf.resolve(..)`. */
  method ResolveIn(tf: Option<TfGraph>, target: string, source: string, at: real, mode: TfMode)
    returns (r: Option<Iso>)
    ensures ResolvedBy(tf, target, source, at, mode, r)
  {
    if tf.None? {
      return None;
    }
    ghost var path;
    r, path := tf.value.Resolve(target, source, at, mode);
  }

  /** The isometry that is logged: `root_iso * iso` when the frame resolved
    * to the root, the local one otherwise. */
  function FinalIso(local: Iso, resolved: Option<Iso>): (r: Iso)
    ensures resolved.None? ==> r == local
    ensures resolved.Some? ==> r == Compose(resolved.value, local)
  {
    if resolved.Some? then Compose(resolved.value, local) else local
  }

  /** Without a graph, or for a frame that the graph cannot join to the
    * root, the local pose is kept; the root frame itself is composed with
    * the identity. */
  lemma FallbackToLocal(tf: Option<TfGraph>, root: string, frame: string, at: real, mode: TfMode, r: Option<Iso>, local: Iso)
    requires ResolvedBy(tf, root, frame, at, mode, r)
    ensures tf.None? ==> FinalIso(local, r) == local
    ensures tf.Some? && !Connected(tf.value.Keys(), frame, root) ==> FinalIso(local, r) == local
    ensures tf.Some? && frame == root ==> FinalIso(local, r) == Compose(Identity, local)
  {
  }

  // ---------------------------------------------------------------------
  // What is logged
  // ---------------------------------------------------------------------

  /** A `Transform3D` at an entity path, or one `LineStrips3D` strip whose
    * points are the translations of the isometries. */
  datatype NavLog =
    | Transform3D(path: string, iso: Iso)
    | LineStrip3D(path: string, points: seq<Iso>)

  /** `odometry_to_rerun`: the local transform at the child frame's path,
    * then, when the parent frame resolved to the root, the composed one at
    * the same path (the parent path `log_transform` takes is not used). */
  function OdometryLogs(o: Odometry, root: string, mapFrame: seq<string>, resolved: Option<Iso>): (logs: seq<NavLog>)
    ensures |logs| == (if resolved.Some? then 2 else 1)
    ensures forall i :: 0 <= i < |logs| ==>
      logs[i] == Transform3D(MapFrameToPath(o.childFrameId, root, mapFrame),
                             FinalIso(Local(o.pose.pose), if i == 0 then None else resolved))
  {
    var child := MapFrameToPath(o.childFrameId, root, mapFrame);
    var local := Local(o.pose.pose);
    if resolved.Some? then [Transform3D(child, local), Transform3D(child, Compose(resolved.value, local))]
    else [Transform3D(child, local)]
  }

  method OdometryToRerun(ts: real, payload: Bytes, root: string, mapFrame: seq<string>,
                         tf: Option<TfGraph>, mode: TfMode)
    returns (r: Result<seq<NavLog>>, ghost resolved: Option<Iso>)
    ensures OdometryOf(payload).Err? ==> r == Err(OdometryOf(payload).error)
    ensures OdometryOf(payload).Ok? ==>
      && r == Ok(OdometryLogs(OdometryOf(payload).value, root, mapFrame, resolved))
      && ResolvedBy(tf, root, OdometryOf(payload).value.header.frameId, ts, mode, resolved)
  {
    var odom := ParseOdometry(payload);
    if odom.Err? {
      return Err(odom.error), None;
    }
    var o := odom.value;
    var childPath := MapFrameToPath(o.childFrameId, root, mapFrame);
    var iso := Local(o.pose.pose);
    var rootIso := ResolveIn(tf, root, o.header.frameId, ts, mode);
    resolved := rootIso;
    if rootIso.Some? {
      r := Ok([Transform3D(childPath, iso), Transform3D(childPath, Compose(rootIso.value, iso))]);
    } else {
      r := Ok([Transform3D(childPath, iso)]);
    }
  }

  /** `pose_stamped_to_rerun`: one transform at the topic's path, resolved
    * to the root at the bag time when the graph can. */
  method PoseStampedToRerun(topic: string, ts: real, payload: Bytes, root: string, renames: seq<string>,
                            tf: Option<TfGraph>, mode: TfMode)
    returns (r: Result<NavLog>, ghost resolved: Option<Iso>)
    ensures PoseStampedAt(payload, 0).Err? ==> r == Err(PoseStampedAt(payload, 0).error)
    ensures PoseStampedAt(payload, 0).Ok? ==>
      var ps := PoseStampedAt(payload, 0).value.0;
      && r == Ok(Transform3D(TopicPath(topic, renames, root, "poses"), FinalIso(Local(ps.pose), resolved)))
      && ResolvedBy(tf, root, ps.header.frameId, ts, mode, resolved)
  {
    var ps, _ := ParsePoseStamped(payload, 0);
    if ps.Err? {
      return Err(ps.error), None;
    }
    var entityPath := TopicPath(topic, renames, root, "poses");
    var iso := Local(ps.value.pose);
    var rootIso := ResolveIn(tf, root, ps.value.header.frameId, ts, mode);
    resolved := rootIso;
    var finalIso := if rootIso.Some? then Compose(rootIso.value, iso) else iso;
    r := Ok(Transform3D(entityPath, finalIso));
  }

  /** The points of a path: one per pose, each pose's final isometry. */
  function PathPoints(poses: seq<PoseStamped>, resolved: seq<Option<Iso>>): (pts: seq<Iso>)
    requires |resolved| == |poses|
    ensures |pts| == |poses|
    ensures forall i :: 0 <= i < |poses| ==> pts[i] == FinalIso(Local(poses[i].pose), resolved[i])
  {
    seq(|poses|, i requires 0 <= i < |poses| => FinalIso(Local(poses[i].pose), resolved[i]))
  }

  /** `path_to_rerun` logs one strip, and only when the path has a pose. */
  function PathLogs(path: string, poses: seq<PoseStamped>, resolved: seq<Option<Iso>>): (logs: seq<NavLog>)
    requires |resolved| == |poses|
    ensures |logs| == (if |poses| == 0 then 0 else 1)
    ensures |poses| > 0 ==> logs[0] == LineStrip3D(path, PathPoints(poses, resolved))
  {
    if |poses| == 0 then [] else [LineStrip3D(path, PathPoints(poses, resolved))]
  }

  /** Every pose was resolved from its own frame at its own header stamp (a
    * NaN or infinite stamp is time 0). */
  ghost predicate ResolvedEach(tf: Option<TfGraph>, root: string, poses: seq<PoseStamped>, mode: TfMode,
                               resolved: seq<Option<Iso>>)
    reads if tf.Some? then {tf.value} else {}
  {
    && |resolved| == |poses|
    && forall i :: 0 <= i < |poses| ==>
         ResolvedBy(tf, root, poses[i].header.frameId, Real(poses[i].header.stamp), mode, resolved[i])
  }

  /** The loop of `path_to_rerun`: one point per pose, in order. */
  method PlacePoses(poses: seq<PoseStamped>, root: string, tf: Option<TfGraph>, mode: TfMode)
    returns (points: seq<Iso>, ghost resolved: seq<Option<Iso>>)
    ensures ResolvedEach(tf, root, poses, mode, resolved)
    ensures points == PathPoints(poses, resolved)
  {
    points := [];
    resolved := [];
    var i := 0;
    while i < |poses|
      invariant 0 <= i <= |poses|
      invariant |points| == i && |resolved| == i
      invariant forall j :: 0 <= j < i ==> points[j] == FinalIso(Local(poses[j].pose), resolved[j])
      invariant forall j :: 0 <= j < i ==>
        ResolvedBy(tf, root, poses[j].header.frameId, Real(poses[j].header.stamp), mode, resolved[j])
    {
      var pose := poses[i];
      var rootIso := ResolveIn(tf, root, pose.header.frameId, Real(pose.header.stamp), mode);
      var finalIso := if rootIso.Some? then Compose(rootIso.value, Local(pose.pose)) else Local(pose.pose);
      points := points + [finalIso];
      resolved := resolved + [rootIso];
      i := i + 1;
    }
  }

  /** `path_to_rerun`. */
  method PathToRerun(topic: string, payload: Bytes, root: string, renames: seq<string>,
                     tf: Option<TfGraph>, mode: TfMode)
    returns (r: Result<seq<NavLog>>, ghost resolved: seq<Option<Iso>>)
    ensures PathOf(payload).Err? ==> r == Err(PathOf(payload).error)
    ensures PathOf(payload).Ok? ==>
      && ResolvedEach(tf, root, PathOf(payload).value.poses, mode, resolved)
      && r == Ok(PathLogs(TopicPath(topic, renames, root, "paths"), PathOf(payload).value.poses, resolved))
  {
    var path := ParsePath(payload);
    if path.Err? {
      return Err(path.error), [];
    }
    var entityPath := TopicPath(topic, renames, root, "paths");
    var points;
    points, resolved := PlacePoses(path.value.poses, root, tf, mode);
    if |points| > 0 {
      r := Ok([LineStrip3D(entityPath, points)]);
    } else {
      r := Ok([]);
    }
  }
}
