/**
 * The `tf2_msgs/TFMessage` decoder of the transform mapping: the payload is
 * read as a run of `geometry_msgs/TransformStamped` records until the cursor
 * reaches the end.  Each record is a header (seq and stamp skipped without a
 * check, then the frame id), the child frame id, three f64 of translation
 * and four f64 of rotation.  Strings have a checked length and an unchecked
 * slice (a panic, `SlicePanic`, when the length runs past the end).
 */
module TfMessage {
  import opened Wire

  datatype Vector3 = Vector3(x: F64, y: F64, z: F64)

  datatype Quaternion = Quaternion(x: F64, y: F64, z: F64, w: F64)

  datatype Transform = Transform(translation: Vector3, rotation: Quaternion)

  datatype TransformStamped = TransformStamped(parent: string, child: string, transform: Transform)

  /** The 7 f64 of a transform starting at `v`. */
  function TransformAt(p: Bytes, v: nat): Transform
    requires v + 56 <= |p|
  {
    Transform(Vector3(F64At(p, v), F64At(p, v + 8), F64At(p, v + 16)),
              Quaternion(F64At(p, v + 24), F64At(p, v + 32), F64At(p, v + 40), F64At(p, v + 48)))
  }

  /** One record at `c` and the cursor after it. */
  function StampedAt(p: Bytes, c: nat): (r: Result<(TransformStamped, nat)>)
    ensures r.Ok? ==> c + 76 <= r.value.1 <= |p|
  {
    var h := c + 12;
    if h + 4 > |p| then Err(Truncated)
    else if StringEnd(p, h) > |p| then Err(SlicePanic)
    else
      var k := StringEnd(p, h);
      if k + 4 > |p| then Err(Truncated)
      else if StringEnd(p, k) > |p| then Err(SlicePanic)
      else
        var v := StringEnd(p, k);
        if v + 56 > |p| then Err(Truncated)
        else Ok((TransformStamped(Text(p[h + 4..k]), Text(p[k + 4..v]), TransformAt(p, v)), v + 56))
  }

  /** All records from `c` to the end of the payload. */
  function Transforms(p: Bytes, c: nat): Result<seq<TransformStamped>>
    decreases |p| - c
  {
    if c >= |p| then Ok([])
    else
      match StampedAt(p, c)
      case Err(e) => Err(e)
      case Ok(first) =>
        match Transforms(p, first.1)
        case Err(e) => Err(e)
        case Ok(rest) => Ok([first.0] + rest)
  }

  /** The result of the whole decoder. */
  function TfMessageOf(p: Bytes): Result<seq<TransformStamped>>
  {
    Transforms(p, 0)
  }

  function PrefixWith(acc: seq<TransformStamped>, r: Result<seq<TransformStamped>>): Result<seq<TransformStamped>>
  {
    if r.Ok? then Ok(acc + r.value) else r
  }

  // ---------------------------------------------------------------------
  // The cursor readers
  // ---------------------------------------------------------------------

  /** `parse_header`: skip seq and stamp, then the frame id. */
  method ParseHeader(p: Bytes, c: nat) returns (r: Result<string>, next: nat)
    ensures c + 16 > |p| ==> r == Err(Truncated)
    ensures c + 16 <= |p| && StringEnd(p, c + 12) > |p| ==> r == Err(SlicePanic)
    ensures r.Ok? <==> c + 16 <= |p| && StringEnd(p, c + 12) <= |p|
    ensures r.Ok? ==> r.value == Text(p[c + 16..StringEnd(p, c + 12)]) && next == StringEnd(p, c + 12)
  {
    r, next := ParseString(p, c + 12);
  }

  method ParseVector3(p: Bytes, c: nat) returns (r: Result<Vector3>, next: nat)
    ensures r.Ok? <==> c + 24 <= |p|
    ensures r.Ok? ==> r.value == Vector3(F64At(p, c), F64At(p, c + 8), F64At(p, c + 16)) && next == c + 24
    ensures r.Err? ==> r.error == Truncated
  {
    var x, y, z;
    x, next := ReadF64(p, c);
    if x.Err? { return Err(Truncated), next; }
    y, next := ReadF64(p, next);
    if y.Err? { return Err(Truncated), next; }
    z, next := ReadF64(p, next);
    if z.Err? { return Err(Truncated), next; }
    r := Ok(Vector3(x.value, y.value, z.value));
  }

  method ParseQuaternion(p: Bytes, c: nat) returns (r: Result<Quaternion>, next: nat)
    ensures r.Ok? <==> c + 32 <= |p|
    ensures r.Ok? ==> r.value == Quaternion(F64At(p, c), F64At(p, c + 8), F64At(p, c + 16), F64At(p, c + 24))
                      && next == c + 32
    ensures r.Err? ==> r.error == Truncated
  {
    var x, y, z, w;
    x, next := ReadF64(p, c);
    if x.Err? { return Err(Truncated), next; }
    y, next := ReadF64(p, next);
    if y.Err? { return Err(Truncated), next; }
    z, next := ReadF64(p, next);
    if z.Err? { return Err(Truncated), next; }
    w, next := ReadF64(p, next);
    if w.Err? { return Err(Truncated), next; }
    r := Ok(Quaternion(x.value, y.value, z.value, w.value));
  }

  method ParseTransform(p: Bytes, c: nat) returns (r: Result<Transform>, next: nat)
    ensures r.Ok? <==> c + 56 <= |p|
    ensures r.Ok? ==> r.value == TransformAt(p, c) && next == c + 56
    ensures r.Err? ==> r.error == Truncated
  {
    var translation, rotation;
    translation, next := ParseVector3(p, c);
    if translation.Err? { return Err(Truncated), next; }
    rotation, next := ParseQuaternion(p, next);
    if rotation.Err? { return Err(Truncated), next; }
    r := Ok(Transform(translation.value, rotation.value));
  }

  /** `parse_transform_stamped`. */
  method ParseTransformStamped(p: Bytes, c: nat) returns (r: Result<TransformStamped>, next: nat)
    ensures Pack(r, next) == StampedAt(p, c)
  {
    var parent, child, transform;
    parent, next := ParseHeader(p, c);
    if parent.Err? { return Err(parent.error), next; }
    child, next := ParseString(p, next);
    if child.Err? { return Err(child.error), next; }
    transform, next := ParseTransform(p, next);
    if transform.Err? { return Err(transform.error), next; }
    r := Ok(TransformStamped(parent.value, child.value, transform.value));
  }

  /** `parse_tf_message`: decode records while the cursor is inside the payload. */
  method ParseTfMessage(p: Bytes) returns (r: Result<seq<TransformStamped>>)
    ensures r == TfMessageOf(p)
  {
    var cursor := 0;
    var transforms: seq<TransformStamped> := [];
    if Transforms(p, 0).Ok? {
      assert [] + Transforms(p, 0).value == Transforms(p, 0).value;
    }
    while cursor < |p|
      invariant TfMessageOf(p) == PrefixWith(transforms, Transforms(p, cursor))
      decreases |p| - cursor
    {
      var tf, next := ParseTransformStamped(p, cursor);
      TransformsUnfold(p, cursor);
      if tf.Err? {
        return Err(tf.error);
      }
      PrefixAssoc(transforms, [tf.value], Transforms(p, next));
      transforms := transforms + [tf.value];
      cursor := next;
    }
    assert transforms + [] == transforms;
    return Ok(transforms);
  }

  lemma TransformsUnfold(p: Bytes, c: nat)
    requires c < |p|
    ensures StampedAt(p, c).Err? ==> Transforms(p, c) == Err(StampedAt(p, c).error)
    ensures StampedAt(p, c).Ok? ==>
      Transforms(p, c) == PrefixWith([StampedAt(p, c).value.0], Transforms(p, StampedAt(p, c).value.1))
  {
  }

  lemma PrefixAssoc(a: seq<TransformStamped>, b: seq<TransformStamped>, r: Result<seq<TransformStamped>>)
    ensures PrefixWith(a, PrefixWith(b, r)) == PrefixWith(a + b, r)
  {
    if r.Ok? {
      assert a + (b + r.value) == (a + b) + r.value;
    }
  }

  // ---------------------------------------------------------------------
  // The encoder of the unit tests and its round trip
  // ---------------------------------------------------------------------

  /** The 56 bytes of a transform. */
  function TransformBytes(t: Transform): (b: Bytes)
    ensures |b| == 56
  {
    t.translation.x.bytes + t.translation.y.bytes + t.translation.z.bytes
    + t.rotation.x.bytes + t.rotation.y.bytes + t.rotation.z.bytes + t.rotation.w.bytes
  }

  /** `create_tf_static_payload`: seq 0, stamp 0, the parent and child names
    * and the seven values. */
  function Payload(parent: Bytes, child: Bytes, t: Transform): (b: Bytes)
    requires |parent| < TWO_32 && |child| < TWO_32
    ensures |b| == 76 + |parent| + |child|
  {
    U32Le(0) + [0, 0, 0, 0, 0, 0, 0, 0] + Str(parent) + Str(child) + TransformBytes(t)
  }

  lemma TransformBytesRoundTrip(pre: Bytes, t: Transform)
    ensures TransformAt(pre + TransformBytes(t), |pre|) == t
  {
    var p := pre + TransformBytes(t);
    var v := |pre|;
    assert p[v..v + 8] == t.translation.x.bytes;
    assert p[v + 8..v + 16] == t.translation.y.bytes;
    assert p[v + 16..v + 24] == t.translation.z.bytes;
    assert p[v + 24..v + 32] == t.rotation.x.bytes;
    assert p[v + 32..v + 40] == t.rotation.y.bytes;
    assert p[v + 40..v + 48] == t.rotation.z.bytes;
    assert p[v + 48..v + 56] == t.rotation.w.bytes;
  }

  /** The two lengths inside a payload, read back. */
  lemma PayloadLengths(parent: Bytes, child: Bytes, t: Transform, n: nat)
    requires |parent| < TWO_32 && |child| < TWO_32
    requires 16 <= n <= |Payload(parent, child, t)|
    ensures U32At(Payload(parent, child, t)[..n], 12) == |parent|
    ensures 20 + |parent| <= n ==> U32At(Payload(parent, child, t)[..n], 16 + |parent|) == |child|
  {
    ParentLength(parent, child, t, n);
    if 20 + |parent| <= n {
      ChildLength(parent, child, t, n);
    }
  }

  lemma ParentLength(parent: Bytes, child: Bytes, t: Transform, n: nat)
    requires |parent| < TWO_32 && |child| < TWO_32
    requires 16 <= n <= |Payload(parent, child, t)|
    ensures U32At(Payload(parent, child, t)[..n], 12) == |parent|
  {
    var q := Payload(parent, child, t)[..n];
    var l := U32Le(|parent|);
    assert q[12] == l[0] && q[13] == l[1] && q[14] == l[2] && q[15] == l[3];
    U32LeRoundTrip(|parent|);
  }

  lemma ChildLength(parent: Bytes, child: Bytes, t: Transform, n: nat)
    requires |parent| < TWO_32 && |child| < TWO_32
    requires 20 + |parent| <= n <= |Payload(parent, child, t)|
    ensures U32At(Payload(parent, child, t)[..n], 16 + |parent|) == |child|
  {
    var q := Payload(parent, child, t)[..n];
    var l := U32Le(|child|);
    var k := 16 + |parent|;
    assert q[k] == l[0] && q[k + 1] == l[1] && q[k + 2] == l[2] && q[k + 3] == l[3];
    U32LeRoundTrip(|child|);
  }

  /** A payload built as in the unit tests decodes to exactly one transform
    * with the same parent, child and seven values. */
  lemma PayloadRoundTrip(parent: Bytes, child: Bytes, t: Transform)
    requires |parent| < TWO_32 && |child| < TWO_32
    ensures TfMessageOf(Payload(parent, child, t)) == Ok([TransformStamped(Text(parent), Text(child), t)])
  {
    var p := Payload(parent, child, t);
    PayloadLengths(parent, child, t, |p|);
    assert p[..|p|] == p;
    var k := 16 + |parent|;
    var v := 20 + |parent| + |child|;
    assert p[16..k] == parent;
    assert p[k + 4..v] == child;
    assert p == (U32Le(0) + [0, 0, 0, 0, 0, 0, 0, 0] + Str(parent) + Str(child)) + TransformBytes(t);
    TransformBytesRoundTrip(U32Le(0) + [0, 0, 0, 0, 0, 0, 0, 0] + Str(parent) + Str(child), t);
    var first := TransformStamped(Text(parent), Text(child), t);
    var end: nat := |p|;
    assert StampedAt(p, 0) == Ok((first, end));
    assert Transforms(p, |p|) == Ok([]);
    assert [first] + [] == [first];
  }

  /** The empty payload holds no transforms. */
  lemma EmptyMessage()
    ensures TfMessageOf([]) == Ok([])
  {
  }

  /** Cutting a test payload anywhere before its end makes decoding fail:
    * every read or slice that runs past the end is an error. */
  lemma TruncatedPayloadFails(parent: Bytes, child: Bytes, t: Transform, n: nat)
    requires |parent| < TWO_32 && |child| < TWO_32
    requires 0 < n < |Payload(parent, child, t)|
    ensures TfMessageOf(Payload(parent, child, t)[..n]).Err?
  {
    var q := Payload(parent, child, t)[..n];
    if n >= 16 {
      PayloadLengths(parent, child, t, n);
    }
    assert StampedAt(q, 0).Err?;
  }
}
