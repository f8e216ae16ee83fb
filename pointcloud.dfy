/**
 * The `sensor_msgs/PointCloud2` decoder of the point cloud mapping: the
 * header is skipped, the field table is read, big-endian clouds and clouds
 * without x, y and z are dropped, and then every `point_step` record of the
 * data yields a position (and a packed colour when the cloud has an `rgb` or
 * `rgba` field) unless one of its coordinates is not finite.
 *
 * The optional roll-pitch-yaw rotation applied to each position is floating
 * point trigonometry; a rotated position keeps the angles and the read
 * coordinates instead of the rotated values.
 */
module PointCloud {
  import opened Options
  import opened Wire
  import opened Strings

  /** One `sensor_msgs/PointField` entry. */
  datatype PointField = PointField(name: string, offset: nat, dataType: Byte, count: nat)

  /** Roll, pitch and yaw in degrees. */
  datatype Euler = Euler(roll: F64, pitch: F64, yaw: F64)

  /** A logged position: the coordinates read from a record and the rotation,
    * if any, that `apply_rotation` applies to them. */
  datatype Position = Position(x: F32, y: F32, z: F32, rotation: Option<Euler>)

  datatype Rgb = Rgb(r: Byte, g: Byte, b: Byte)

  /** What `parse_pointcloud2` returns. */
  datatype Cloud = Cloud(positions: seq<Position>, colors: Option<seq<Rgb>>)

  // ---------------------------------------------------------------------
  // The field table
  // ---------------------------------------------------------------------

  /** One field entry at `c`: name (checked string), offset u32, datatype u8,
    * count u32. */
  function FieldAt(p: Bytes, c: nat): (r: Result<(PointField, nat)>)
    ensures r.Ok? ==> c + 13 <= r.value.1 <= |p|
    ensures r.Err? ==> r.error == Truncated
  {
    if c + 4 > |p| then Err(Truncated)
    else
      var e := StringEnd(p, c);
      if e + 9 > |p| then Err(Truncated)
      else Ok((PointField(Text(p[c + 4..e]), U32At(p, e), p[e + 4], U32At(p, e + 5)), e + 9))
  }

  /** `n` field entries from `c`, in order. */
  function FieldsFrom(p: Bytes, c: nat, n: nat): (r: Result<(seq<PointField>, nat)>)
    ensures r.Ok? ==> |r.value.0| == n && c + 13 * n <= r.value.1
    ensures r.Ok? && n > 0 ==> r.value.1 <= |p|
    ensures r.Err? ==> r.error == Truncated
    decreases n
  {
    if n == 0 then Ok(([], c))
    else
      match FieldAt(p, c)
      case Err(e) => Err(e)
      case Ok((f, next)) =>
        match FieldsFrom(p, next, n - 1)
        case Err(e) => Err(e)
        case Ok((fs, end)) => Ok(([f] + fs, end))
  }

  /** `parse_fields`: the entry count, then that many entries. */
  function FieldsOf(p: Bytes, c: nat): (r: Result<(seq<PointField>, nat)>)
    ensures r.Ok? ==> c + 4 <= r.value.1 <= |p|
    ensures r.Err? ==> r.error == Truncated
  {
    if c + 4 > |p| then Err(Truncated) else FieldsFrom(p, c + 4, U32At(p, c))
  }

  function PrefixFields(acc: seq<PointField>, r: Result<(seq<PointField>, nat)>): Result<(seq<PointField>, nat)>
  {
    if r.Ok? then Ok((acc + r.value.0, r.value.1)) else r
  }

  method ReadField(p: Bytes, c: nat) returns (r: Result<PointField>, next: nat)
    ensures Pack(r, next) == FieldAt(p, c)
  {
    var name, offset, dataType, count;
    name, next := ReadString(p, c);
    if name.Err? { return Err(name.error), next; }
    offset, next := ReadU32(p, next);
    if offset.Err? { return Err(offset.error), next; }
    dataType, next := ReadU8(p, next);
    if dataType.Err? { return Err(dataType.error), next; }
    count, next := ReadU32(p, next);
    if count.Err? { return Err(count.error), next; }
    r := Ok(PointField(name.value, offset.value, dataType.value, count.value));
  }

  /** `parse_fields`, one entry per round. */
  method ParseFields(p: Bytes, c: nat) returns (r: Result<seq<PointField>>, next: nat)
    ensures Pack(r, next) == FieldsOf(p, c)
  {
    var len;
    len, next := ReadU32(p, c);
    if len.Err? { return Err(len.error), next; }
    var fields: seq<PointField> := [];
    var k := 0;
    PrefixNoFields(FieldsFrom(p, next, len.value));
    while k < len.value
      invariant k <= len.value
      invariant FieldsOf(p, c) == PrefixFields(fields, FieldsFrom(p, next, len.value - k))
    {
      var f, after := ReadField(p, next);
      FieldsAdvance(p, next, len.value - k, fields);
      if f.Err? {
        return Err(f.error), after;
      }
      fields := fields + [f.value];
      next := after;
      k := k + 1;
    }
    FieldsDone(p, next, fields);
    r := Ok(fields);
  }

  lemma PrefixNoFields(r: Result<(seq<PointField>, nat)>)
    ensures PrefixFields([], r) == r
  {
    if r.Ok? {
      assert [] + r.value.0 == r.value.0;
    }
  }

  /** Reading entry after entry: an error ends the table, a read entry is
    * appended. */
  lemma FieldsAdvance(p: Bytes, c: nat, m: nat, fields: seq<PointField>)
    requires m > 0
    ensures var here := PrefixFields(fields, FieldsFrom(p, c, m));
            match FieldAt(p, c)
            case Err(e) => here == Err(e)
            case Ok((f, after)) => here == PrefixFields(fields + [f], FieldsFrom(p, after, m - 1))
  {
    if FieldAt(p, c).Ok? {
      var (f, after) := FieldAt(p, c).value;
      var rest := FieldsFrom(p, after, m - 1);
      if rest.Ok? {
        assert fields + ([f] + rest.value.0) == fields + [f] + rest.value.0;
      }
    }
  }

  lemma FieldsDone(p: Bytes, c: nat, fields: seq<PointField>)
    ensures PrefixFields(fields, FieldsFrom(p, c, 0)) == Ok((fields, c))
  {
    assert fields + [] == fields;
  }

  /** A field as the unit tests write it, with its name as bytes. */
  datatype RawField = RawField(name: Bytes, offset: nat, dataType: Byte, count: nat)

  predicate Encodable(f: RawField)
  {
    |f.name| < TWO_32 && f.offset < TWO_32 && f.count < TWO_32
  }

  function FieldBytes(f: RawField): (b: Bytes)
    requires Encodable(f)
    ensures |b| == 13 + |f.name|
  {
    Str(f.name) + U32Le(f.offset) + [f.dataType] + U32Le(f.count)
  }

  function FieldsBytes(fs: seq<RawField>): Bytes
    requires forall i :: 0 <= i < |fs| ==> Encodable(fs[i])
  {
    if |fs| == 0 then [] else FieldBytes(fs[0]) + FieldsBytes(fs[1..])
  }

  function Decoded(f: RawField): PointField
  {
    PointField(Text(f.name), f.offset, f.dataType, f.count)
  }

  function DecodedAll(fs: seq<RawField>): (r: seq<PointField>)
    ensures |r| == |fs|
    ensures forall i :: 0 <= i < |fs| ==> r[i] == Decoded(fs[i])
  {
    if |fs| == 0 then [] else [Decoded(fs[0])] + DecodedAll(fs[1..])
  }

  /** The parts of the encoding of `f` sit in `p` from `c` on: the name's
    * length, the name, the offset, the datatype and the count. */
  ghost predicate EntryAt(p: Bytes, c: nat, f: RawField)
  {
    var e := c + 4 + |f.name|;
    && Encodable(f) && e + 9 <= |p|
    && U32At(p, c) == |f.name| && p[c + 4..e] == f.name
    && U32At(p, e) == f.offset && p[e + 4] == f.dataType && U32At(p, e + 5) == f.count
  }

  /** The parts of one encoded entry, read from the entry alone. */
  lemma FieldBytesParts(f: RawField)
    requires Encodable(f)
    ensures var fb, e := FieldBytes(f), 4 + |f.name|;
            && U32At(fb, 0) == |f.name| && fb[4..e] == f.name
            && U32At(fb, e) == f.offset && fb[e + 4] == f.dataType && U32At(fb, e + 5) == f.count
  {
    var n, o, k := U32Le(|f.name|), U32Le(f.offset), U32Le(f.count);
    var fb, e := FieldBytes(f), 4 + |f.name|;
    assert fb[..4] == n && fb[4..e] == f.name && fb[e..e + 4] == o && fb[e + 5..] == k;
    U32FromSlice(fb, 0, |f.name|);
    U32FromSlice(fb, e, f.offset);
    U32FromSlice(fb, e + 5, f.count);
  }

  /** An encoded entry has its parts where `EntryAt` expects them. */
  lemma EntryOf(a: Bytes, f: RawField, b: Bytes)
    requires Encodable(f)
    ensures EntryAt(a + FieldBytes(f) + b, |a|, f)
  {
    FieldBytesParts(f);
    PartsInside(a, FieldBytes(f), b, f);
  }

  /** Bytes holding the parts of an entry hold them in any message around
    * them. */
  lemma PartsInside(a: Bytes, fb: Bytes, b: Bytes, f: RawField)
    requires Encodable(f) && |fb| == 13 + |f.name|
    requires var e := 4 + |f.name|;
             && U32At(fb, 0) == |f.name| && fb[4..e] == f.name
             && U32At(fb, e) == f.offset && fb[e + 4] == f.dataType && U32At(fb, e + 5) == f.count
    ensures EntryAt(a + fb + b, |a|, f)
  {
    var p, e := a + fb + b, 4 + |f.name|;
    U32AtMiddle(a, fb, b, 0);
    SliceMiddle(a, fb, b, 4, e);
    U32AtMiddle(a, fb, b, e);
    assert p[|a| + e + 4] == fb[e + 4];
    U32AtMiddle(a, fb, b, e + 5);
  }

  /** One field entry reads back from wherever it sits. */
  lemma FieldRoundTrip(p: Bytes, c: nat, f: RawField)
    requires EntryAt(p, c, f)
    ensures FieldAt(p, c) == Ok((Decoded(f), c + 13 + |f.name|))
  {
  }

  /** A table of `m + 1` entries is its first entry and the `m` after it. */
  lemma FieldsCons(p: Bytes, c: nat, m: nat, f: PointField, next: nat, fs: seq<PointField>, end: nat)
    requires FieldAt(p, c) == Ok((f, next)) && FieldsFrom(p, next, m) == Ok((fs, end))
    ensures FieldsFrom(p, c, m + 1) == Ok(([f] + fs, end))
  {
  }

  /** The number of bytes the entries of `fs` take up when encoded. */
  function FieldsSize(fs: seq<RawField>): nat
  {
    if |fs| == 0 then 0 else 13 + |fs[0].name| + FieldsSize(fs[1..])
  }

  lemma {:induction false} FieldsSizeIs(fs: seq<RawField>)
    requires forall i :: 0 <= i < |fs| ==> Encodable(fs[i])
    ensures |FieldsBytes(fs)| == FieldsSize(fs)
    decreases |fs|
  {
    if |fs| > 0 {
      FieldsBytesCons(fs);
      FieldsSizeIs(fs[1..]);
    }
  }

  /** Each entry of `fs` is encoded in `p`, one after the other from `c`. */
  ghost predicate Placed(p: Bytes, c: nat, fs: seq<RawField>)
    decreases |fs|
  {
    |fs| > 0 ==> EntryAt(p, c, fs[0]) && Placed(p, c + 13 + |fs[0].name|, fs[1..])
  }

  /** An encoded field table reads back entry by entry from wherever it
    * sits. */
  lemma FieldsRoundTrip(p: Bytes, c: nat, fs: seq<RawField>)
    requires forall i :: 0 <= i < |fs| ==> Encodable(fs[i])
    requires c + |FieldsBytes(fs)| <= |p| && p[c..c + |FieldsBytes(fs)|] == FieldsBytes(fs)
    ensures FieldsFrom(p, c, |fs|) == Ok((DecodedAll(fs), c + |FieldsBytes(fs)|))
  {
    SliceAround(p, c, FieldsBytes(fs));
    PlacedOf(p, p[..c], fs, p[c + |FieldsBytes(fs)|..]);
    PlacedTable(p, c, fs);
    FieldsSizeIs(fs);
  }

  /** The encoded entries are found one by one, whatever surrounds them. */
  lemma {:induction false} PlacedOf(p: Bytes, pre: Bytes, fs: seq<RawField>, post: Bytes)
    requires forall i :: 0 <= i < |fs| ==> Encodable(fs[i])
    requires p == pre + FieldsBytes(fs) + post
    ensures Placed(p, |pre|, fs)
    decreases |fs|
  {
    if |fs| > 0 {
      var fb, tb := FieldBytes(fs[0]), FieldsBytes(fs[1..]);
      FieldsBytesCons(fs);
      Regroup(pre, fb, tb, post);
      EntryOf(pre, fs[0], tb + post);
      PlacedOf(p, pre + fb, fs[1..], post);
      PlacedCons(p, |pre|, fs, |pre + fb|);
    }
  }

  lemma {:induction false} PlacedCons(p: Bytes, c: nat, fs: seq<RawField>, next: nat)
    requires |fs| > 0 && next == c + 13 + |fs[0].name|
    requires EntryAt(p, c, fs[0]) && Placed(p, next, fs[1..])
    ensures Placed(p, c, fs)
  {
  }

  lemma {:induction false} PlacedTable(p: Bytes, c: nat, fs: seq<RawField>)
    requires Placed(p, c, fs)
    ensures FieldsFrom(p, c, |fs|) == Ok((DecodedAll(fs), c + FieldsSize(fs)))
    decreases |fs|
  {
    if |fs| > 0 {
      var f, tail := fs[0], fs[1..];
      var next := c + 13 + |f.name|;
      FieldRoundTrip(p, c, f);
      PlacedTable(p, next, tail);
      TableStep(p, c, fs, next);
    }
  }

  /** The table reads back when its first entry does and the rest does. */
  lemma {:induction false} TableStep(p: Bytes, c: nat, fs: seq<RawField>, next: nat)
    requires |fs| > 0 && next == c + 13 + |fs[0].name|
    requires FieldAt(p, c) == Ok((Decoded(fs[0]), next))
    requires FieldsFrom(p, next, |fs| - 1) == Ok((DecodedAll(fs[1..]), next + FieldsSize(fs[1..])))
    ensures FieldsFrom(p, c, |fs|) == Ok((DecodedAll(fs), c + FieldsSize(fs)))
  {
    FieldsCons(p, c, |fs| - 1, Decoded(fs[0]), next, DecodedAll(fs[1..]), next + FieldsSize(fs[1..]));
    DecodedCons(fs);
  }

  lemma FieldsBytesCons(fs: seq<RawField>)
    requires |fs| > 0 && forall i :: 0 <= i < |fs| ==> Encodable(fs[i])
    ensures forall i :: 0 <= i < |fs[1..]| ==> Encodable(fs[1..][i])
    ensures FieldsBytes(fs) == FieldBytes(fs[0]) + FieldsBytes(fs[1..])
  {
  }

  lemma DecodedCons(fs: seq<RawField>)
    requires |fs| > 0
    ensures DecodedAll(fs) == [Decoded(fs[0])] + DecodedAll(fs[1..])
  {
  }

  // ---------------------------------------------------------------------
  // Finding fields and reading records
  // ---------------------------------------------------------------------

  /** `fields.iter().find(|f| names contains f.name).map(|f| f.offset)`: the
    * offset of the first field with one of the names. */
  function FirstOffset(fields: seq<PointField>, names: set<string>): (r: Option<nat>)
    ensures r.None? <==> forall i :: 0 <= i < |fields| ==> fields[i].name !in names
    ensures r.Some? ==> exists i :: 0 <= i < |fields| && fields[i].name in names && fields[i].offset == r.value
                                    && forall j :: 0 <= j < i ==> fields[j].name !in names
  {
    if |fields| == 0 then None
    else if fields[0].name in names then Some(fields[0].offset)
    else
      var r := FirstOffset(fields[1..], names);
      assert forall j :: 1 <= j < |fields| ==> fields[j] == fields[1..][j - 1];
      if r.Some? then
        var i :| 0 <= i < |fields[1..]| && fields[1..][i].name in names && fields[1..][i].offset == r.value
                 && forall j :: 0 <= j < i ==> fields[1..][j].name !in names;
        assert fields[i + 1].name in names && fields[i + 1].offset == r.value;
        r
      else r
  }

  /** Some field of the table has one of the names. */
  predicate HasField(fields: seq<PointField>, names: set<string>)
  {
    exists i :: 0 <= i < |fields| && fields[i].name in names
  }

  /** The table names an x, a y and a z field. */
  predicate HasXyz(fields: seq<PointField>)
  {
    HasField(fields, {"x"}) && HasField(fields, {"y"}) && HasField(fields, {"z"})
  }

  /** `read_color_at`: the packed float's bits as a u32, red in bits 16..23,
    * green in 8..15, blue in 0..7. */
  /** The offset of the first field with one of the names. */
  lemma FirstOffsetAt(fields: seq<PointField>, names: set<string>, i: nat)
    requires i < |fields| && fields[i].name in names
    requires forall j :: 0 <= j < i ==> fields[j].name !in names
    ensures FirstOffset(fields, names) == Some(fields[i].offset)
  {
  }

  function ColorAt(point: Bytes, off: nat): Result<Rgb>
  {
    if off + 4 > |point| then Err(Truncated)
    else
      var bits := U32At(point, off);
      Ok(Rgb(bits / 0x1_0000 % 0x100, bits / 0x100 % 0x100, bits % 0x100))
  }

  /** The colour is the third, second and first byte of the packed field,
    * and reading fails exactly past the end of the record. */
  lemma ColorBytes(point: Bytes, off: nat)
    ensures ColorAt(point, off).Ok? <==> off + 4 <= |point|
    ensures ColorAt(point, off).Ok? ==> ColorAt(point, off).value == Rgb(point[off + 2], point[off + 1], point[off])
  {
    if off + 4 <= |point| {
      var b0: int, b1: int, b2: int, b3: int := point[off], point[off + 1], point[off + 2], point[off + 3];
      var bits := U32At(point, off);
      DivMod(bits, b1 + 0x100 * b2 + 0x1_0000 * b3, b0, 0x100);
      DivMod(b1 + 0x100 * b2 + 0x1_0000 * b3, b2 + 0x100 * b3, b1, 0x100);
      DivMod(bits, b2 + 0x100 * b3, b0 + 0x100 * b1, 0x1_0000);
      DivMod(b2 + 0x100 * b3, b3, b2, 0x100);
    }
  }

  /** The packing of the unit test, `(i << 16) | (i << 8) | i`, unpacks to
    * `[i, i, i]`. */
  lemma ColorOfGray(i: Byte)
    ensures ColorAt(U32Le(i * 0x1_0000 + i * 0x100 + i), 0) == Ok(Rgb(i, i, i))
  {
    var n: int := i * 0x1_0000 + i * 0x100 + i;
    U32LeRoundTrip(n);
    DivMod(n, i * 0x100 + i, i, 0x100);
    DivMod(i * 0x100 + i, i, i, 0x100);
    DivMod(n, i, i * 0x100 + i, 0x1_0000);
    DivMod(i, 0, i, 0x100);
  }

  /** `i as usize * point_step`, the offset of record `i` in the data. */
  function RecordStart(i: nat, step: nat): nat
  {
    if i == 0 then 0 else RecordStart(i - 1, step) + step
  }

  lemma {:induction false} RecordStartMono(a: nat, b: nat, step: nat)
    requires a <= b
    ensures RecordStart(a, step) <= RecordStart(b, step)
    decreases b
  {
    if a < b {
      RecordStartMono(a, b - 1, step);
    }
  }

  lemma {:induction false} RecordStartProduct(i: nat, step: nat)
    ensures RecordStart(i, step) == i * step
  {
    if i > 0 {
      RecordStartProduct(i - 1, step);
      assert (i - 1) * step + step == i * step;
    }
  }

  predicate FiniteXyz(x: F32, y: F32, z: F32)
  {
    IsFinite32(x) && IsFinite32(y) && IsFinite32(z)
  }

  /** Where the coordinates and colour of a record are. */
  datatype Layout = Layout(step: nat, x: nat, y: nat, z: nat, color: Option<nat>, rotation: Option<Euler>)

  function PrefixPoints(pos: seq<Position>, cols: seq<Rgb>, r: Result<(seq<Position>, seq<Rgb>)>): Result<(seq<Position>, seq<Rgb>)>
  {
    if r.Ok? then Ok((pos + r.value.0, cols + r.value.1)) else r
  }

  /** One record: an error when a coordinate (or the colour, for a finite
    * point) lies past its end, `None` when a coordinate is not finite, else
    * the position and, when the cloud has colours, the colour. */
  function RecordRead(point: Bytes, l: Layout): (r: Result<Option<(Position, Option<Rgb>)>>)
    ensures r.Err? ==> r.error == Truncated
    ensures r.Ok? && r.value.Some? ==>
      var q := r.value.value.0; FiniteXyz(q.x, q.y, q.z) && q.rotation == l.rotation
    ensures r.Ok? && r.value.Some? ==> (r.value.value.1.Some? <==> l.color.Some?)
  {
    if l.x + 4 > |point| || l.y + 4 > |point| || l.z + 4 > |point| then Err(Truncated)
    else
      var x, y, z := F32At(point, l.x), F32At(point, l.y), F32At(point, l.z);
      if !FiniteXyz(x, y, z) then Ok(None)
      else if l.color.None? then Ok(Some((Position(x, y, z, l.rotation), None)))
      else
        match ColorAt(point, l.color.value)
        case Err(e) => Err(e)
        case Ok(c) => Ok(Some((Position(x, y, z, l.rotation), Some(c))))
  }

  function Prepend(c: Option<Rgb>, cols: seq<Rgb>): seq<Rgb>
  {
    if c.Some? then [c.value] + cols else cols
  }

  /** The record loop from record `i` on: stop at `count` records or at the
    * first record that does not fit in the data, skip a record with a
    * non-finite coordinate, fail at the first record that fails. */
  function PointsFrom(data: Bytes, i: nat, count: nat, l: Layout): (r: Result<(seq<Position>, seq<Rgb>)>)
    ensures r.Ok? ==> i + |r.value.0| <= count || |r.value.0| == 0
    ensures r.Ok? && |r.value.0| > 0 ==> RecordStart(i + |r.value.0|, l.step) <= |data|
    ensures r.Ok? ==> if l.color.Some? then |r.value.1| == |r.value.0| else r.value.1 == []
    ensures r.Ok? ==> forall k :: 0 <= k < |r.value.0| ==>
      FiniteXyz(r.value.0[k].x, r.value.0[k].y, r.value.0[k].z) && r.value.0[k].rotation == l.rotation
    decreases count - i
  {
    if i >= count then Ok(([], []))
    else
      var start := RecordStart(i, l.step);
      if start + l.step > |data| then Ok(([], []))
      else
        match RecordRead(data[start..start + l.step], l)
        case Err(e) => Err(e)
        case Ok(None) =>
          var rest := PointsFrom(data, i + 1, count, l);
          RecordStartBefore(i + (if rest.Ok? then |rest.value.0| else 0), l.step);
          rest
        case Ok(Some((pos, c))) =>
          var rest := PointsFrom(data, i + 1, count, l);
          if rest.Err? then rest else Ok(([pos] + rest.value.0, Prepend(c, rest.value.1)))
  }

  /** The record loop fails only on a record too short for its fields. */
  lemma {:induction false} PointsTruncated(data: Bytes, i: nat, count: nat, l: Layout)
    ensures PointsFrom(data, i, count, l).Err? ==> PointsFrom(data, i, count, l).error == Truncated
    decreases count - i
  {
    if i < count && RecordStart(i, l.step) + l.step <= |data| {
      PointsTruncated(data, i + 1, count, l);
    }
  }

  lemma RecordStartBefore(i: nat, step: nat)
    ensures RecordStart(i, step) <= RecordStart(i + 1, step)
  {
  }

  /** A nonempty outcome comes from a record that fits, followed by the
    * outcome of the records after it. */
  lemma PointsShape(data: Bytes, i: nat, count: nat, l: Layout)
    requires PointsFrom(data, i, count, l).Ok? && |PointsFrom(data, i, count, l).value.0| > 0
    ensures i < count && RecordStart(i + 1, l.step) <= |data|
    ensures PointsFrom(data, i + 1, count, l).Ok?
    ensures var n, m := |PointsFrom(data, i, count, l).value.0|, |PointsFrom(data, i + 1, count, l).value.0|;
            n == m || n == m + 1
  {
  }

  /** At most `count` positions, and at most one per full record of the
    * data. */
  lemma {:induction false} PointsBound(data: Bytes, count: nat, l: Layout)
    requires PointsFrom(data, 0, count, l).Ok?
    ensures |PointsFrom(data, 0, count, l).value.0| <= count
    ensures l.step > 0 ==> |PointsFrom(data, 0, count, l).value.0| <= |data| / l.step
  {
    var n := |PointsFrom(data, 0, count, l).value.0|;
    if l.step > 0 {
      if n > 0 {
        RecordsInData(n, l.step, |data|);
      } else {
        RecordsInData(0, l.step, |data|);
      }
    }
  }

  /** The fields of a little-endian cloud that the decoder uses. */
  datatype RawCloud = RawCloud(height: nat, width: nat, fields: seq<PointField>, step: nat, data: Bytes)

  /** The message up to the point data: header, height, width, the field
    * table, `is_bigendian` (a big-endian cloud is `None`), `point_step`,
    * `row_step` and the data, whose length must fit in the payload. */
  function RawCloudOf(p: Bytes): (r: Result<Option<RawCloud>>)
    ensures |p| < 16 ==> r == Err(Truncated)
    ensures r.Err? ==> r.error == Truncated
    ensures r.Ok? && r.value.Some? ==> r.value.value.height < TWO_32 && r.value.value.width < TWO_32
  {
    if |p| < 16 then Err(Truncated)
    else
      var h := StringEnd(p, 12);
      if h + 8 > |p| then Err(Truncated)
      else
        match FieldsOf(p, h + 8)
        case Err(e) => Err(e)
        case Ok((fields, c)) => CloudTail(p, c, U32At(p, h), U32At(p, h + 4), fields)
  }

  /** The message after the field table, from `c`: a non-zero
    * `is_bigendian` byte drops the cloud, and a data array longer than what
    * is left of the payload is an error. */
  function CloudTail(p: Bytes, c: nat, height: nat, width: nat, fields: seq<PointField>): (r: Result<Option<RawCloud>>)
    ensures r == Ok(None) <==> c < |p| && p[c] != 0
    ensures r.Ok? && r.value.Some? <==> c + 13 <= |p| && p[c] == 0 && c + 13 + U32At(p, c + 9) <= |p|
    ensures r.Err? ==> r.error == Truncated
    ensures r.Ok? && r.value.Some? ==> r.value.value.height == height && r.value.value.width == width
    ensures r.Ok? && r.value.Some? ==> r.value.value.fields == fields && r.value.value.step == U32At(p, c + 1)
    ensures r.Ok? && r.value.Some? ==> r.value.value.data == p[c + 13..c + 13 + U32At(p, c + 9)]
  {
    if c + 1 > |p| then Err(Truncated)
    else if p[c] != 0 then Ok(None)
    else if c + 13 > |p| then Err(Truncated)
    else
      var dataLen := U32At(p, c + 9);
      if |p| < c + 13 + dataLen then Err(Truncated)
      else Ok(Some(RawCloud(height, width, fields, U32At(p, c + 1), p[c + 13..c + 13 + dataLen])))
  }

  /** The points of a little-endian cloud: none without x, y and z fields;
    * otherwise the record loop over `height * width` records, where the
    * `u32` product wraps around (the release build's arithmetic). */
  function PointsOfRaw(raw: RawCloud, rotation: Option<Euler>): (r: Result<Cloud>)
    ensures !HasXyz(raw.fields) ==> r == Ok(Cloud([], None))
    ensures r.Ok? && HasXyz(raw.fields) ==> (r.value.colors.Some? <==> HasField(raw.fields, {"rgb", "rgba"}))
    ensures r.Err? ==> r.error == Truncated
    ensures r.Ok? && r.value.colors.Some? ==> |r.value.colors.value| == |r.value.positions|
    ensures r.Ok? ==> forall k :: 0 <= k < |r.value.positions| ==>
      var q := r.value.positions[k]; FiniteXyz(q.x, q.y, q.z) && q.rotation == rotation
  {
    var x, y, z := FirstOffset(raw.fields, {"x"}), FirstOffset(raw.fields, {"y"}), FirstOffset(raw.fields, {"z"});
    if x.None? || y.None? || z.None? then Ok(Cloud([], None))
    else
      var color := FirstOffset(raw.fields, {"rgb", "rgba"});
      var l := Layout(raw.step, x.value, y.value, z.value, color, rotation);
      PointsTruncated(raw.data, 0, raw.height * raw.width % TWO_32, l);
      match PointsFrom(raw.data, 0, raw.height * raw.width % TWO_32, l)
      case Err(e) => Err(e)
      case Ok((pos, cols)) => Ok(Cloud(pos, if color.Some? then Some(cols) else None))
  }

  /** `parse_pointcloud2`. */
  function CloudOf(p: Bytes, rotation: Option<Euler>): (r: Result<Cloud>)
    ensures r.Err? ==> r.error == Truncated
    ensures r.Ok? && r.value.colors.Some? ==> |r.value.colors.value| == |r.value.positions|
    ensures r.Ok? ==> forall k :: 0 <= k < |r.value.positions| ==>
      var q := r.value.positions[k]; FiniteXyz(q.x, q.y, q.z) && q.rotation == rotation
  {
    match RawCloudOf(p)
    case Err(e) => Err(e)
    case Ok(None) => Ok(Cloud([], None))
    case Ok(Some(raw)) => PointsOfRaw(raw, rotation)
  }

  // ---------------------------------------------------------------------
  // The imperative decoder
  // ---------------------------------------------------------------------

  /** The body of the record loop: read x, y and z, skip a non-finite
    * point, read the colour. */
  method ReadRecord(point: Bytes, l: Layout) returns (r: Result<Option<(Position, Option<Rgb>)>>)
    ensures r == RecordRead(point, l)
  {
    var x, y, z, next;
    x, next := ReadF32(point, l.x);
    if x.Err? { return Err(x.error); }
    y, next := ReadF32(point, l.y);
    if y.Err? { return Err(y.error); }
    z, next := ReadF32(point, l.z);
    if z.Err? { return Err(z.error); }
    if !FiniteXyz(x.value, y.value, z.value) {
      return Ok(None);
    }
    var pos := Position(x.value, y.value, z.value, l.rotation);
    if l.color.None? {
      return Ok(Some((pos, None)));
    }
    var c := ColorAt(point, l.color.value);
    if c.Err? { return Err(c.error); }
    r := Ok(Some((pos, Some(c.value))));
  }

  lemma PrefixAdvance(positions: seq<Position>, colors: seq<Rgb>, pos: Position, c: Option<Rgb>,
                      rest: Result<(seq<Position>, seq<Rgb>)>)
    ensures var next := if rest.Err? then rest else Ok(([pos] + rest.value.0, Prepend(c, rest.value.1)));
            PrefixPoints(positions, colors, next)
            == PrefixPoints(positions + [pos], if c.Some? then colors + [c.value] else colors, rest)
  {
    if rest.Ok? {
      assert positions + ([pos] + rest.value.0) == positions + [pos] + rest.value.0;
      if c.Some? {
        assert colors + ([c.value] + rest.value.1) == colors + [c.value] + rest.value.1;
      }
    }
  }

  /** What reading record `i` does to the loop's outcome: an error ends it,
    * a skipped record leaves the accumulated points as they are, a read one
    * is appended. */
  lemma PointsAdvance(data: Bytes, i: nat, count: nat, l: Layout, positions: seq<Position>, colors: seq<Rgb>)
    requires i < count && RecordStart(i, l.step) + l.step <= |data|
    ensures var start := RecordStart(i, l.step);
            var rec := RecordRead(data[start..start + l.step], l);
            var here := PrefixPoints(positions, colors, PointsFrom(data, i, count, l));
            var rest := PointsFrom(data, i + 1, count, l);
            && (rec.Err? ==> here == Err(rec.error))
            && (rec.Ok? && rec.value.None? ==> here == PrefixPoints(positions, colors, rest))
            && (rec.Ok? && rec.value.Some? ==>
                 var (pos, c) := rec.value.value;
                 here == PrefixPoints(positions + [pos], if c.Some? then colors + [c.value] else colors, rest))
  {
    var start := RecordStart(i, l.step);
    var rec := RecordRead(data[start..start + l.step], l);
    if rec.Err? {
      PointsFail(data, i, count, l);
    } else if rec.value.None? {
      PointsSkip(data, i, count, l);
    } else {
      var (pos, c) := rec.value.value;
      PointsRead(data, i, count, l, pos, c);
      PrefixAdvance(positions, colors, pos, c, PointsFrom(data, i + 1, count, l));
    }
  }

  /** A record that fails to read ends the loop with its error. */
  lemma PointsFail(data: Bytes, i: nat, count: nat, l: Layout)
    requires i < count && RecordStart(i, l.step) + l.step <= |data|
    requires RecordRead(RecordAt(data, i, l.step), l).Err?
    ensures PointsFrom(data, i, count, l) == Err(RecordRead(RecordAt(data, i, l.step), l).error)
  {
  }

  /** A record read as `None` is skipped. */
  lemma PointsSkip(data: Bytes, i: nat, count: nat, l: Layout)
    requires i < count && RecordStart(i, l.step) + l.step <= |data|
    requires RecordRead(RecordAt(data, i, l.step), l) == Ok(None)
    ensures PointsFrom(data, i, count, l) == PointsFrom(data, i + 1, count, l)
  {
    var start := RecordStart(i, l.step);
    assert RecordRead(data[start..start + l.step], l) == Ok(None);
  }

  /** The body of the record loop for record `i`: read it and append its
    * position and colour, or report its error. */
  method CollectRecord(data: Bytes, i: nat, count: nat, l: Layout, positions: seq<Position>, colors: seq<Rgb>)
    returns (err: Option<Error>, positions': seq<Position>, colors': seq<Rgb>)
    requires i < count && RecordStart(i, l.step) + l.step <= |data|
    ensures var here := PrefixPoints(positions, colors, PointsFrom(data, i, count, l));
            if err.Some? then here == Err(err.value)
            else here == PrefixPoints(positions', colors', PointsFrom(data, i + 1, count, l))
  {
    var start := RecordStart(i, l.step);
    var point := data[start..start + l.step];
    PointsAdvance(data, i, count, l, positions, colors);
    var rec := ReadRecord(point, l);
    if rec.Err? {
      return Some(rec.error), positions, colors;
    }
    err, positions', colors' := None, positions, colors;
    if rec.value.Some? {
      var (pos, c) := rec.value.value;
      positions' := positions + [pos];
      if c.Some? {
        colors' := colors + [c.value];
      }
    }
  }

  /** The `for i in 0..(height * width)` loop, with its `break` at the first
    * record past the data and its `continue` on a non-finite coordinate. */
  method ReadPoints(data: Bytes, count: nat, l: Layout) returns (r: Result<(seq<Position>, seq<Rgb>)>)
    ensures r == PointsFrom(data, 0, count, l)
  {
    var positions: seq<Position> := [];
    var colors: seq<Rgb> := [];
    var i := 0;
    var all := PointsFrom(data, 0, count, l);
    PrefixNothing(all);
    while i < count
      invariant i <= count
      invariant all == PrefixPoints(positions, colors, PointsFrom(data, i, count, l))
    {
      var start := RecordStart(i, l.step);
      if start + l.step > |data| {
        PointsStop(data, i, count, l, positions, colors);
        return Ok((positions, colors));
      }
      var err;
      err, positions, colors := CollectRecord(data, i, count, l, positions, colors);
      if err.Some? {
        return Err(err.value);
      }
      i := i + 1;
    }
    PointsStop(data, i, count, l, positions, colors);
    r := Ok((positions, colors));
  }

  lemma PrefixNothing(r: Result<(seq<Position>, seq<Rgb>)>)
    ensures PrefixPoints([], [], r) == r
  {
    if r.Ok? {
      assert [] + r.value.0 == r.value.0 && [] + r.value.1 == r.value.1;
    }
  }

  /** The loop ends at `count` records or at the first one past the data. */
  lemma PointsStop(data: Bytes, i: nat, count: nat, l: Layout, positions: seq<Position>, colors: seq<Rgb>)
    requires i >= count || RecordStart(i, l.step) + l.step > |data|
    ensures PrefixPoints(positions, colors, PointsFrom(data, i, count, l)) == Ok((positions, colors))
  {
    assert positions + [] == positions && colors + [] == colors;
  }

  /** The cursor reads of `parse_pointcloud2` up to the point data. */
  method ReadRawCloud(p: Bytes) returns (r: Result<Option<RawCloud>>)
    ensures r == RawCloudOf(p)
  {
    var h := SkipHeader(p, 0);
    if h.Err? { return Err(h.error); }
    var height, width, fields;
    var cursor := h.value;
    height, cursor := ReadU32(p, cursor);
    if height.Err? { return Err(height.error); }
    width, cursor := ReadU32(p, cursor);
    if width.Err? { return Err(width.error); }
    fields, cursor := ParseFields(p, cursor);
    if fields.Err? { return Err(fields.error); }
    r := ReadCloudTail(p, cursor, height.value, width.value, fields.value);
  }

  /** The reads after the field table: `is_bigendian`, `point_step`,
    * `row_step` and the data. */
  method ReadCloudTail(p: Bytes, c: nat, height: nat, width: nat, fields: seq<PointField>)
    returns (r: Result<Option<RawCloud>>)
    ensures r == CloudTail(p, c, height, width, fields)
  {
    var isBig, step, rowStep, dataLen;
    var cursor := c;
    isBig, cursor := ReadU8(p, cursor);
    if isBig.Err? { return Err(isBig.error); }
    if isBig.value != 0 {
      return Ok(None);
    }
    step, cursor := ReadU32(p, cursor);
    if step.Err? { return Err(step.error); }
    rowStep, cursor := ReadU32(p, cursor);
    if rowStep.Err? { return Err(rowStep.error); }
    dataLen, cursor := ReadU32(p, cursor);
    if dataLen.Err? { return Err(dataLen.error); }
    if |p| < cursor + dataLen.value {
      return Err(Truncated);
    }
    r := Ok(Some(RawCloud(height, width, fields, step.value, p[cursor..cursor + dataLen.value])));
  }

  /** `parse_pointcloud2`: the message reads, the x, y, z and colour offsets,
    * then the record loop. */
  method ParsePointCloud2(p: Bytes, rotation: Option<Euler>) returns (r: Result<Cloud>)
    ensures r == CloudOf(p, rotation)
  {
    var raw := ReadRawCloud(p);
    if raw.Err? { return Err(raw.error); }
    if raw.value.None? {
      return Ok(Cloud([], None));
    }
    var fields := raw.value.value.fields;
    var x, y, z := FirstOffset(fields, {"x"}), FirstOffset(fields, {"y"}), FirstOffset(fields, {"z"});
    if x.None? || y.None? || z.None? {
      return Ok(Cloud([], None));
    }
    var color := FirstOffset(fields, {"rgb", "rgba"});
    var l := Layout(raw.value.value.step, x.value, y.value, z.value, color, rotation);
    var points := ReadPoints(raw.value.value.data, raw.value.value.height * raw.value.value.width % TWO_32, l);
    if points.Err? { return Err(points.error); }
    r := Ok(Cloud(points.value.0, if color.Some? then Some(points.value.1) else None));
  }

  /** `pointcloud2_to_rerun`: the points logged at the topic without its
    * leading slashes (`normalize_path`), with colours when the cloud has
    * them. */
  datatype PointsLog = PointsLog(path: string, cloud: Cloud)

  function PointCloudEntry(topic: string, payload: Bytes, rotation: Option<Euler>): (r: Result<PointsLog>)
    ensures r.Ok? <==> CloudOf(payload, rotation).Ok?
    ensures r.Ok? ==> r.value.cloud == CloudOf(payload, rotation).value
    ensures r.Ok? ==> !StartsWith(r.value.path, '/')
    ensures r.Ok? ==> |r.value.path| <= |topic| && r.value.path == topic[|topic| - |r.value.path|..]
    ensures r.Ok? ==> forall i :: 0 <= i < |topic| - |r.value.path| ==> topic[i] == '/'
  {
    var cloud :- CloudOf(payload, rotation);
    Ok(PointsLog(TrimLeadingSlashes(topic), cloud))
  }

  // ---------------------------------------------------------------------
  // Reading a cloud whose records are all finite
  // ---------------------------------------------------------------------

  /** Every coordinate, and the colour when there is one, lies inside a
    * record. */
  predicate Fits(l: Layout)
  {
    l.x + 4 <= l.step && l.y + 4 <= l.step && l.z + 4 <= l.step
    && (l.color.Some? ==> l.color.value + 4 <= l.step)
  }

  /** Record `k` of the data. */
  function RecordAt(data: Bytes, k: nat, step: nat): (rec: Bytes)
    requires RecordStart(k, step) + step <= |data|
    ensures |rec| == step
  {
    data[RecordStart(k, step)..RecordStart(k, step) + step]
  }

  /** Record `k` lies inside the data and its coordinates are finite. */
  predicate FiniteRecord(data: Bytes, k: nat, l: Layout)
  {
    Fits(l) && RecordStart(k, l.step) + l.step <= |data|
    && var rec := RecordAt(data, k, l.step);
       FiniteXyz(F32At(rec, l.x), F32At(rec, l.y), F32At(rec, l.z))
  }

  /** The position of a record whose coordinates fit. */
  function FinitePosition(rec: Bytes, l: Layout): Position
    requires Fits(l) && |rec| == l.step
  {
    Position(F32At(rec, l.x), F32At(rec, l.y), F32At(rec, l.z), l.rotation)
  }

  /** The colour of a record whose colour field fits, when the cloud has
    * colours. */
  function FiniteColor(rec: Bytes, l: Layout): Option<Rgb>
    requires Fits(l) && |rec| == l.step
  {
    if l.color.Some? then Some(ColorAt(rec, l.color.value).value) else None
  }

  /** The positions and colours of records `i` to `n - 1`, all finite. */
  function FiniteRead(data: Bytes, i: nat, n: nat, l: Layout): (r: (seq<Position>, seq<Rgb>))
    requires forall k :: i <= k < n ==> FiniteRecord(data, k, l)
    ensures |r.0| == if i <= n then n - i else 0
    ensures |r.1| == if l.color.Some? then |r.0| else 0
    decreases n - i
  {
    if i >= n then ([], [])
    else
      assert FiniteRecord(data, i, l);
      var rec := RecordAt(data, i, l.step);
      var rest := FiniteRead(data, i + 1, n, l);
      ([FinitePosition(rec, l)] + rest.0, Prepend(FiniteColor(rec, l), rest.1))
  }

  /** Entry `k - i` of the read is the position, and the colour when the
    * cloud has colours, of record `k`. */
  lemma {:induction false} FiniteReadAt(data: Bytes, i: nat, n: nat, l: Layout, k: nat)
    requires forall j :: i <= j < n ==> FiniteRecord(data, j, l)
    requires i <= k < n
    ensures FiniteRecord(data, k, l)
    ensures FiniteRead(data, i, n, l).0[k - i] == FinitePosition(RecordAt(data, k, l.step), l)
    ensures l.color.Some? ==> FiniteRead(data, i, n, l).1[k - i] == ColorAt(RecordAt(data, k, l.step), l.color.value).value
    decreases k - i
  {
    if k > i {
      FiniteReadAt(data, i + 1, n, l, k);
    }
  }

  /** Records `0` to `n - 1`, all finite, read as the given points and
    * colours. */
  lemma ReadIs(data: Bytes, n: nat, l: Layout, ps: seq<Position>, cs: seq<Rgb>)
    requires l.color.Some? && |ps| == n && |cs| == n
    requires forall k :: 0 <= k < n ==> FiniteRecord(data, k, l)
                                        && FinitePosition(RecordAt(data, k, l.step), l) == ps[k]
                                        && ColorAt(RecordAt(data, k, l.step), l.color.value).value == cs[k]
    ensures FiniteRead(data, 0, n, l) == (ps, cs)
  {
    var read := FiniteRead(data, 0, n, l);
    forall k | 0 <= k < n
      ensures read.0[k] == ps[k] && read.1[k] == cs[k]
    {
      FiniteReadAt(data, 0, n, l, k);
    }
    assert read.0 == ps && read.1 == cs;
  }

  /** How many records the loop visits: `count`, or fewer when the data
    * holds fewer full records. */
  function Visited(dataLen: nat, count: nat, step: nat): nat
    requires step > 0
  {
    if count < dataLen / step then count else dataLen / step
  }

  lemma DivBounds(a: nat, s: nat)
    requires s > 0
    ensures (a / s) * s <= a < (a / s) * s + s
  {
  }

  /** A data of `len` bytes holds `len / s` full records of `s` bytes. */
  lemma RecordsInData(n: nat, s: nat, len: nat)
    requires s > 0 && RecordStart(n, s) <= len
    ensures n <= len / s
  {
    RecordStartProduct(n, s);
    DivBounds(len, s);
    if n > len / s {
      MulLess(len / s, n, s);
    }
  }

  /** The record after the last full one does not fit. */
  lemma LastRecordPastEnd(len: nat, s: nat)
    requires s > 0
    ensures RecordStart(len / s, s) + s > len
  {
    RecordStartProduct(len / s, s);
    DivBounds(len, s);
  }

  /** When every visited record is finite and the layout fits in a record,
    * the loop reads one position per visited record, in order. */
  lemma {:induction false} FiniteReadFrom(data: Bytes, i: nat, count: nat, l: Layout)
    requires Fits(l)
    requires i <= Visited(|data|, count, l.step)
    requires forall k :: i <= k < Visited(|data|, count, l.step) ==> FiniteRecord(data, k, l)
    ensures PointsFrom(data, i, count, l) == Ok(FiniteRead(data, i, Visited(|data|, count, l.step), l))
    decreases count - i
  {
    var n := Visited(|data|, count, l.step);
    if i == n {
      VisitedEnd(data, count, l);
    } else {
      FiniteStep(data, i, count, l);
      FiniteReadFrom(data, i + 1, count, l);
    }
  }

  /** A record whose coordinates are finite, under a layout that fits. */
  lemma FiniteRecordRead(rec: Bytes, l: Layout)
    requires Fits(l) && |rec| == l.step && FiniteXyz(F32At(rec, l.x), F32At(rec, l.y), F32At(rec, l.z))
    ensures RecordRead(rec, l) == Ok(Some((FinitePosition(rec, l), FiniteColor(rec, l))))
  {
  }

  /** The loop stops after the visited records. */
  lemma VisitedEnd(data: Bytes, count: nat, l: Layout)
    requires l.step > 0
    ensures PointsFrom(data, Visited(|data|, count, l.step), count, l) == Ok(([], []))
  {
    if Visited(|data|, count, l.step) < count {
      LastRecordPastEnd(|data|, l.step);
    }
  }

  /** A finite record that fits is read as its position and colour. */
  lemma FiniteStep(data: Bytes, i: nat, count: nat, l: Layout)
    requires i < count && FiniteRecord(data, i, l)
    ensures var rec := RecordAt(data, i, l.step);
            var rest := PointsFrom(data, i + 1, count, l);
            PointsFrom(data, i, count, l)
            == if rest.Err? then rest else Ok(([FinitePosition(rec, l)] + rest.value.0, Prepend(FiniteColor(rec, l), rest.value.1)))
  {
    var rec := RecordAt(data, i, l.step);
    FiniteRecordRead(rec, l);
    PointsRead(data, i, count, l, FinitePosition(rec, l), FiniteColor(rec, l));
  }

  /** A record read as a position and colour puts them before the points of
    * the records after it. */
  lemma PointsRead(data: Bytes, i: nat, count: nat, l: Layout, pos: Position, c: Option<Rgb>)
    requires i < count && RecordStart(i, l.step) + l.step <= |data|
    requires RecordRead(RecordAt(data, i, l.step), l) == Ok(Some((pos, c)))
    ensures var rest := PointsFrom(data, i + 1, count, l);
            PointsFrom(data, i, count, l) == if rest.Err? then rest else Ok(([pos] + rest.value.0, Prepend(c, rest.value.1)))
  {
  }

  /** A cloud whose message decodes has the points of the decoded message. */
  lemma CloudOfRaw(p: Bytes, raw: RawCloud, rotation: Option<Euler>)
    requires RawCloudOf(p) == Ok(Some(raw))
    ensures CloudOf(p, rotation) == PointsOfRaw(raw, rotation)
  {
  }

  /** A cloud with x, y, z and colour fields has the points and colours of
    * the record loop over its layout. */
  lemma ColoredPoints(raw: RawCloud, l: Layout, read: (seq<Position>, seq<Rgb>))
    requires FirstOffset(raw.fields, {"x"}) == Some(l.x) && FirstOffset(raw.fields, {"y"}) == Some(l.y)
    requires FirstOffset(raw.fields, {"z"}) == Some(l.z) && FirstOffset(raw.fields, {"rgb", "rgba"}) == l.color
    requires l.color.Some? && l.step == raw.step
    requires PointsFrom(raw.data, 0, raw.height * raw.width % TWO_32, l) == Ok(read)
    ensures PointsOfRaw(raw, l.rotation) == Ok(Cloud(read.0, Some(read.1)))
  {
  }

  /** The whole cloud, when all of it is finite. */
  lemma AllFinite(data: Bytes, count: nat, l: Layout)
    requires Fits(l)
    requires forall k :: 0 <= k < Visited(|data|, count, l.step) ==> FiniteRecord(data, k, l)
    ensures PointsFrom(data, 0, count, l) == Ok(FiniteRead(data, 0, Visited(|data|, count, l.step), l))
    ensures |PointsFrom(data, 0, count, l).value.0| == Visited(|data|, count, l.step)
  {
    FiniteReadFrom(data, 0, count, l);
  }

  /** A record with a non-finite coordinate adds nothing. */
  lemma NonFiniteSkipped(data: Bytes, i: nat, count: nat, l: Layout)
    requires Fits(l) && i < count && RecordStart(i, l.step) + l.step <= |data|
    requires !FiniteRecord(data, i, l)
    ensures PointsFrom(data, i, count, l) == PointsFrom(data, i + 1, count, l)
  {
    NonFiniteRead(RecordAt(data, i, l.step), l);
    PointsSkip(data, i, count, l);
  }

  lemma NonFiniteRead(rec: Bytes, l: Layout)
    requires Fits(l) && |rec| == l.step && !FiniteXyz(F32At(rec, l.x), F32At(rec, l.y), F32At(rec, l.z))
    ensures RecordRead(rec, l) == Ok(None)
  {
  }

  // ---------------------------------------------------------------------
  // Encoded clouds
  // ---------------------------------------------------------------------

  /** The message up to the field entries, as the ROS1 serialisation writes
    * it with seq and stamp 0: the header, height, width and the number of
    * fields. */
  function CloudHead(frame: Bytes, height: nat, width: nat, n: nat): (b: Bytes)
    requires |frame| < TWO_32 && height < TWO_32 && width < TWO_32 && n < TWO_32
    ensures |b| == 28 + |frame|
  {
    U32Le(0) + U32Le(0) + U32Le(0) + Str(frame) + U32Le(height) + U32Le(width) + U32Le(n)
  }

  /** The message after the field entries: a zero `is_bigendian`,
    * `point_step`, `row_step` and the data. */
  function CloudRest(step: nat, rowStep: nat, data: Bytes): (b: Bytes)
    requires step < TWO_32 && rowStep < TWO_32 && |data| < TWO_32
    ensures |b| == 13 + |data|
  {
    [0] + U32Le(step) + U32Le(rowStep) + Str(data)
  }

  /** The field entries that a message can hold. */
  predicate EncodableTable(fs: seq<RawField>)
  {
    |fs| < TWO_32 && forall i :: 0 <= i < |fs| ==> Encodable(fs[i])
  }

  /** A little-endian `sensor_msgs/PointCloud2` message. */
  function CloudPayload(frame: Bytes, height: nat, width: nat, fs: seq<RawField>,
                        step: nat, rowStep: nat, data: Bytes): Bytes
    requires |frame| < TWO_32 && height < TWO_32 && width < TWO_32 && EncodableTable(fs)
    requires step < TWO_32 && rowStep < TWO_32 && |data| < TWO_32
  {
    CloudHead(frame, height, width, |fs|) + FieldsBytes(fs) + CloudRest(step, rowStep, data)
  }

  /** Where the frame length, height, width and field count of an encoded
    * head lie, whatever follows it. */
  lemma HeadLayout(frame: Bytes, height: nat, width: nat, n: nat, rest: Bytes)
    requires |frame| < TWO_32 && height < TWO_32 && width < TWO_32 && n < TWO_32
    ensures var p, c := CloudHead(frame, height, width, n) + rest, 24 + |frame|;
            U32At(p, 12) == |frame| && U32At(p, c - 8) == height && U32At(p, c - 4) == width && U32At(p, c) == n
  {
    var a0 := U32Le(0) + U32Le(0) + U32Le(0);
    var p1 := a0 + Str(frame);
    var p2 := p1 + U32Le(height);
    var p3 := p2 + U32Le(width);
    var p4 := p3 + U32Le(n);
    StrEnd(a0, frame);
    U32AtEnd(p1, height);
    U32AtEnd(p2, width);
    U32AtEnd(p3, n);
    U32AtLeft(p1, U32Le(height), 12);
    U32AtLeft(p2, U32Le(width), 12);
    U32AtLeft(p2, U32Le(width), |p1|);
    U32AtLeft(p3, U32Le(n), 12);
    U32AtLeft(p3, U32Le(n), |p1|);
    U32AtLeft(p3, U32Le(n), |p2|);
    U32AtLeft(p4, rest, 12);
    U32AtLeft(p4, rest, |p1|);
    U32AtLeft(p4, rest, |p2|);
    U32AtLeft(p4, rest, |p3|);
  }

  /** Where the flag, `point_step`, the data length and the data of an
    * encoded rest lie, whatever follows it. */
  lemma RestLayout(step: nat, rowStep: nat, data: Bytes, rest: Bytes)
    requires step < TWO_32 && rowStep < TWO_32 && |data| < TWO_32
    ensures var q := CloudRest(step, rowStep, data) + rest;
            q[0] == 0 && U32At(q, 1) == step && U32At(q, 9) == |data| && q[13..13 + |data|] == data
  {
    var r1 := [0] + U32Le(step);
    var r2 := r1 + U32Le(rowStep);
    var r3 := r2 + Str(data);
    U32AtEnd([0], step);
    StrEnd(r2, data);
    U32AtLeft(r1, U32Le(rowStep), 1);
    U32AtLeft(r2, Str(data), 1);
    U32AtLeft(r3, rest, 1);
    U32AtLeft(r3, rest, 9);
    SliceLeft(r3, rest, 13, 13 + |data|);
  }

  /** The parts of an encoded cloud sit in `p`: the frame length at 12,
    * height and width just past the frame, the field count `n` at `c` and
    * the entries `table` after it, and from `t`, just past the entries, the
    * flag, `point_step`, the data length and the data. */
  ghost predicate CloudAt(p: Bytes, frameLen: nat, height: nat, width: nat, n: nat, table: Bytes, step: nat, data: Bytes)
  {
    var c := 24 + frameLen;
    var t := c + 4 + |table|;
    && t + 13 + |data| <= |p|
    && U32At(p, 12) == frameLen && U32At(p, c - 8) == height && U32At(p, c - 4) == width && U32At(p, c) == n
    && p[c + 4..t] == table
    && p[t] == 0 && U32At(p, t + 1) == step && U32At(p, t + 9) == |data| && p[t + 13..t + 13 + |data|] == data
  }

  /** A head, any entries and a rest put together hold the parts where
    * `CloudAt` expects them. */
  lemma CloudBytesAt(frame: Bytes, height: nat, width: nat, n: nat, table: Bytes,
                     step: nat, rowStep: nat, data: Bytes, rest: Bytes, p: Bytes)
    requires |frame| < TWO_32 && height < TWO_32 && width < TWO_32 && n < TWO_32
    requires step < TWO_32 && rowStep < TWO_32 && |data| < TWO_32
    requires p == CloudHead(frame, height, width, n) + table + (CloudRest(step, rowStep, data) + rest)
    ensures CloudAt(p, |frame|, height, width, n, table, step, data)
  {
    var head, tail := CloudHead(frame, height, width, n), CloudRest(step, rowStep, data) + rest;
    assert p == head + (table + tail);
    HeadLayout(frame, height, width, n, table + tail);
    SliceInside(head, table, tail);
    RestLayout(step, rowStep, data, rest);
    RestAt(head + table, tail, p, |data|);
  }

  /** Facts about the part after `x` are facts about `x + q` at `|x|` on. */
  lemma RestAt(x: Bytes, q: Bytes, p: Bytes, n: nat)
    requires p == x + q && 13 + n <= |q|
    ensures p[|x|] == q[0] && U32At(p, |x| + 1) == U32At(q, 1) && U32At(p, |x| + 9) == U32At(q, 9)
    ensures p[|x| + 13..|x| + 13 + n] == q[13..13 + n]
  {
    assert p == x + q + [];
    U32AtMiddle(x, q, [], 1);
    U32AtMiddle(x, q, [], 9);
    SliceMiddle(x, q, [], 13, 13 + n);
  }

  /** A field count followed by that many encoded entries reads back as the
    * table. */
  lemma FieldsOfRoundTrip(p: Bytes, c: nat, fs: seq<RawField>)
    requires forall i :: 0 <= i < |fs| ==> Encodable(fs[i])
    requires c + 4 + |FieldsBytes(fs)| <= |p| && U32At(p, c) == |fs| && p[c + 4..c + 4 + |FieldsBytes(fs)|] == FieldsBytes(fs)
    ensures FieldsOf(p, c) == Ok((DecodedAll(fs), c + 4 + |FieldsBytes(fs)|))
  {
    FieldsRoundTrip(p, c + 4, fs);
  }

  /** A message whose parts sit where `CloudAt` says, and whose entries read
    * back as `fields`, decodes to them. */
  lemma CloudDecode(p: Bytes, frameLen: nat, height: nat, width: nat, n: nat, table: Bytes,
                    fields: seq<PointField>, step: nat, data: Bytes)
    requires CloudAt(p, frameLen, height, width, n, table, step, data)
    requires FieldsOf(p, 24 + frameLen) == Ok((fields, 24 + frameLen + 4 + |table|))
    ensures RawCloudOf(p) == Ok(Some(RawCloud(height, width, fields, step, data)))
  {
    TailDecode(p, frameLen, height, width, n, table, fields, step, data);
    RawCloudAfterTable(p, 24 + frameLen, fields, 24 + frameLen + 4 + |table|);
  }

  /** Past the header and the dimensions, a cloud whose field table reads
    * is what follows the table. */
  lemma RawCloudAfterTable(p: Bytes, c: nat, fields: seq<PointField>, end: nat)
    requires 16 <= |p| && c == StringEnd(p, 12) + 8 && FieldsOf(p, c) == Ok((fields, end))
    ensures RawCloudOf(p) == CloudTail(p, end, U32At(p, c - 8), U32At(p, c - 4), fields)
  {
  }

  /** The flag, `point_step`, the data length and the data, read after the
    * field entries. */
  lemma TailDecode(p: Bytes, frameLen: nat, height: nat, width: nat, n: nat, table: Bytes,
                   fields: seq<PointField>, step: nat, data: Bytes)
    requires CloudAt(p, frameLen, height, width, n, table, step, data)
    ensures CloudTail(p, 24 + frameLen + 4 + |table|, height, width, fields) == Ok(Some(RawCloud(height, width, fields, step, data)))
  {
  }

  /** A message holding an encoded field table where `CloudAt` says decodes
    * to the table, the dimensions, `point_step` and the data. */
  lemma EncodedCloudDecode(p: Bytes, frameLen: nat, height: nat, width: nat, fs: seq<RawField>, step: nat, data: Bytes)
    requires EncodableTable(fs) && CloudAt(p, frameLen, height, width, |fs|, FieldsBytes(fs), step, data)
    ensures RawCloudOf(p) == Ok(Some(RawCloud(height, width, DecodedAll(fs), step, data)))
  {
    TableInCloud(p, frameLen, height, width, fs, step, data);
    CloudDecode(p, frameLen, height, width, |fs|, FieldsBytes(fs), DecodedAll(fs), step, data);
  }

  /** The field table of a message laid out as `CloudAt` says reads back. */
  lemma TableInCloud(p: Bytes, frameLen: nat, height: nat, width: nat, fs: seq<RawField>, step: nat, data: Bytes)
    requires EncodableTable(fs) && CloudAt(p, frameLen, height, width, |fs|, FieldsBytes(fs), step, data)
    ensures FieldsOf(p, 24 + frameLen) == Ok((DecodedAll(fs), 24 + frameLen + 4 + |FieldsBytes(fs)|))
  {
    FieldsOfRoundTrip(p, 24 + frameLen, fs);
  }

  /** A little-endian cloud decodes, up to its points, to the encoded
    * height, width, field table, `point_step` and data, whatever follows it
    * (`is_dense` and anything after). */
  lemma CloudRoundTrip(frame: Bytes, height: nat, width: nat, fs: seq<RawField>,
                       step: nat, rowStep: nat, data: Bytes, rest: Bytes)
    requires |frame| < TWO_32 && height < TWO_32 && width < TWO_32 && EncodableTable(fs)
    requires step < TWO_32 && rowStep < TWO_32 && |data| < TWO_32
    ensures RawCloudOf(CloudPayload(frame, height, width, fs, step, rowStep, data) + rest)
            == Ok(Some(RawCloud(height, width, DecodedAll(fs), step, data)))
  {
    var p := CloudPayload(frame, height, width, fs, step, rowStep, data) + rest;
    CloudBytesAt(frame, height, width, |fs|, FieldsBytes(fs), step, rowStep, data, rest, p);
    EncodedCloudDecode(p, |frame|, height, width, fs, step, data);
  }

  // ---------------------------------------------------------------------
  // The cloud of the unit test
  // ---------------------------------------------------------------------

  /** `0.0f32` to `5.0f32`, little-endian. */
  const WHOLE32: seq<F32> := [F32([0, 0, 0, 0]), F32([0, 0, 0x80, 0x3F]), F32([0, 0, 0, 0x40]),
                              F32([0, 0, 0x40, 0x40]), F32([0, 0, 0x80, 0x40]), F32([0, 0, 0xA0, 0x40])]

  /** A positive normal `f32` whose significand 2^23 + m is `k` times
    * 2^(150 - e) stands for the whole number `k`. */
  lemma WholeValue32(f: F32, e: nat, m: nat, k: nat)
    requires f.bytes[3] < 0x80 && Exponent32(f) == e && Fraction32(f) == m && 127 <= e < 150
    requires 0x80_0000 + m == k * Pow2(150 - e)
    ensures Value32(f) == Finite(k as real)
  {
    var x, d := (0x80_0000 + m) as real, Pow2(150 - e) as real;
    assert Value32(f) == Finite(Scale(x, e - 150));
    assert Scale(x, e - 150) == x / d;
    QuotientOf(x, d, k as real);
  }

  lemma QuotientOf(x: real, d: real, q: real)
    requires d > 0.0 && x == q * d
    ensures x / d == q
  {
  }

  /** An `f32` with all bits zero is `0.0`. */
  lemma ZeroValue32(f: F32)
    requires f.bytes == [0, 0, 0, 0]
    ensures Value32(f) == Finite(0.0)
  {
    assert Exponent32(f) == 0 && Fraction32(f) == 0;
  }

  lemma Pow2Of21To23()
    ensures Pow2(21) == 0x20_0000 && Pow2(22) == 0x40_0000 && Pow2(23) == 0x80_0000
  {
    Pow2Small();
  }

  lemma OneTwoValues32()
    ensures Value32(WHOLE32[1]) == Finite(1.0) && Value32(WHOLE32[2]) == Finite(2.0)
  {
    Pow2Of21To23();
    WholeValue32(WHOLE32[1], 127, 0, 1);
    WholeValue32(WHOLE32[2], 128, 0, 2);
  }

  lemma ThreeFourValues32()
    ensures Value32(WHOLE32[3]) == Finite(3.0) && Value32(WHOLE32[4]) == Finite(4.0)
  {
    Pow2Of21To23();
    WholeValue32(WHOLE32[3], 128, 0x40_0000, 3);
    WholeValue32(WHOLE32[4], 129, 0, 4);
  }

  lemma ZeroFiveValues32()
    ensures Value32(WHOLE32[0]) == Finite(0.0) && Value32(WHOLE32[5]) == Finite(5.0)
  {
    Pow2Of21To23();
    ZeroValue32(WHOLE32[0]);
    WholeValue32(WHOLE32[5], 129, 0x20_0000, 5);
  }

  /** The whole numbers 0.0 to 5.0 as `f32` values. */
  lemma WholeValues32()
    ensures Value32(WHOLE32[0]) == Finite(0.0) && Value32(WHOLE32[1]) == Finite(1.0)
    ensures Value32(WHOLE32[2]) == Finite(2.0) && Value32(WHOLE32[3]) == Finite(3.0)
    ensures Value32(WHOLE32[4]) == Finite(4.0) && Value32(WHOLE32[5]) == Finite(5.0)
  {
    ZeroFiveValues32();
    OneTwoValues32();
    ThreeFourValues32();
  }

  /** Point `i` of the test: x = i, y = i + 1, z = i + 2 and the packed
    * colour (i, i, i). */
  function TestRecord(i: nat): (rec: Bytes)
    requires i < 4
    ensures |rec| == 16
  {
    WHOLE32[i].bytes + WHOLE32[i + 1].bytes + WHOLE32[i + 2].bytes + [i, i, i, 0]
  }

  function TestData(): (d: Bytes)
    ensures |d| == 64
  {
    TestRecord(0) + TestRecord(1) + TestRecord(2) + TestRecord(3)
  }

  /** The fields x, y, z and rgb, all `FLOAT32` with count 1. */
  const TEST_FIELDS: seq<RawField> := [RawField([120], 0, 7, 1), RawField([121], 4, 7, 1),
                                       RawField([122], 8, 7, 1), RawField([114, 103, 98], 12, 7, 1)]

  /** One row of four points, `point_step` 16, `row_step` 64, an empty frame
    * and a final `is_dense` byte. */
  function TestPayload(): Bytes
  {
    CloudPayload([], 1, 4, TEST_FIELDS, 16, 64, TestData()) + [1]
  }

  const TEST_LAYOUT: Layout := Layout(16, 0, 4, 8, Some(12), None)

  /** Record `k` of four 16-byte records put together is the `k`-th one. */
  lemma QuarterAt(a: Bytes, b: Bytes, c: Bytes, d: Bytes, k: nat)
    requires |a| == 16 && |b| == 16 && |c| == 16 && |d| == 16 && k < 4
    ensures RecordStart(k, 16) + 16 <= |a + b + c + d| && RecordAt(a + b + c + d, k, 16) == [a, b, c, d][k]
  {
    assert RecordStart(1, 16) == 16 && RecordStart(2, 16) == 32 && RecordStart(3, 16) == 48;
    var all := a + b + c + d;
    if k == 0 {
      assert all[0..16] == a;
    } else if k == 1 {
      assert all[16..32] == b;
    } else if k == 2 {
      assert all[32..48] == c;
    } else {
      assert all[48..64] == d;
    }
  }

  /** Record `k` of the test data is point `k`. */
  lemma TestRecordAt(k: nat)
    requires k < 4
    ensures RecordStart(k, 16) + 16 <= 64 && RecordAt(TestData(), k, 16) == TestRecord(k)
  {
    QuarterAt(TestRecord(0), TestRecord(1), TestRecord(2), TestRecord(3), k);
  }

  /** A record of three floats and a packed colour. */
  lemma RecordParts(x: F32, y: F32, z: F32, color: Bytes4)
    ensures var rec := x.bytes + y.bytes + z.bytes + color;
            && F32At(rec, 0) == x && F32At(rec, 4) == y && F32At(rec, 8) == z
            && ColorAt(rec, 12) == Ok(Rgb(color[2], color[1], color[0]))
  {
    var rec := x.bytes + y.bytes + z.bytes + color;
    assert rec[0..4] == x.bytes && rec[4..8] == y.bytes && rec[8..12] == z.bytes;
    ColorBytes(rec, 12);
  }

  /** Point `k` read from its record. */
  lemma TestPointAt(k: nat)
    requires k < 4
    ensures FiniteRecord(TestData(), k, TEST_LAYOUT)
    ensures FinitePosition(RecordAt(TestData(), k, 16), TEST_LAYOUT) == TEST_POSITIONS[k]
    ensures ColorAt(RecordAt(TestData(), k, 16), 12).value == TEST_COLORS[k]
  {
    TestRecordAt(k);
    RecordParts(WHOLE32[k], WHOLE32[k + 1], WHOLE32[k + 2], [k, k, k, 0]);
  }

  /** The test's fields as `parse_fields` returns them. */
  const TEST_POINT_FIELDS: seq<PointField> := [PointField("x", 0, 7, 1), PointField("y", 4, 7, 1),
                                               PointField("z", 8, 7, 1), PointField("rgb", 12, 7, 1)]

  lemma TestDecoded()
    ensures DecodedAll(TEST_FIELDS) == TEST_POINT_FIELDS
  {
    var d := DecodedAll(TEST_FIELDS);
    assert Text([120]) == "x" && Text([121]) == "y" && Text([122]) == "z" && Text([114, 103, 98]) == "rgb";
    assert d[0] == TEST_POINT_FIELDS[0] && d[1] == TEST_POINT_FIELDS[1];
    assert d[2] == TEST_POINT_FIELDS[2] && d[3] == TEST_POINT_FIELDS[3];
  }

  /** The first x and y fields of the test lie at 0 and 4. */
  lemma TestXyOffsets()
    ensures FirstOffset(TEST_POINT_FIELDS, {"x"}) == Some(0) && FirstOffset(TEST_POINT_FIELDS, {"y"}) == Some(4)
  {
    FirstOffsetAt(TEST_POINT_FIELDS, {"x"}, 0);
    FirstOffsetAt(TEST_POINT_FIELDS, {"y"}, 1);
  }

  /** The first z and colour fields of the test lie at 8 and 12. */
  lemma TestZColorOffsets()
    ensures FirstOffset(TEST_POINT_FIELDS, {"z"}) == Some(8) && FirstOffset(TEST_POINT_FIELDS, {"rgb", "rgba"}) == Some(12)
  {
    FirstOffsetAt(TEST_POINT_FIELDS, {"z"}, 2);
    FirstOffsetAt(TEST_POINT_FIELDS, {"rgb", "rgba"}, 3);
  }

  /** The test's message decodes, up to its points, to one row of four
    * 16-byte records and the fields x, y, z and rgb. */
  lemma TestRaw()
    ensures RawCloudOf(TestPayload()) == Ok(Some(RawCloud(1, 4, TEST_POINT_FIELDS, 16, TestData())))
  {
    CloudRoundTrip([], 1, 4, TEST_FIELDS, 16, 64, TestData(), [1]);
    TestDecoded();
  }

  /** All four test records are finite, so all four are read. */
  lemma TestPoints()
    ensures forall k :: 0 <= k < 4 ==> FiniteRecord(TestData(), k, TEST_LAYOUT)
    ensures PointsFrom(TestData(), 0, 1 * 4 % TWO_32, TEST_LAYOUT) == Ok(FiniteRead(TestData(), 0, 4, TEST_LAYOUT))
  {
    assert 1 * 4 % TWO_32 == 4;
    assert Visited(64, 4, 16) == 4;
    forall k | 0 <= k < 4
      ensures FiniteRecord(TestData(), k, TEST_LAYOUT)
    {
      TestPointAt(k);
    }
    AllFinite(TestData(), 4, TEST_LAYOUT);
  }

  /** The points the test expects: point `k` at (k, k + 1, k + 2), with
    * colour (k, k, k). */
  const TEST_POSITIONS: seq<Position> :=
    [Position(WHOLE32[0], WHOLE32[1], WHOLE32[2], None), Position(WHOLE32[1], WHOLE32[2], WHOLE32[3], None),
     Position(WHOLE32[2], WHOLE32[3], WHOLE32[4], None), Position(WHOLE32[3], WHOLE32[4], WHOLE32[5], None)]

  const TEST_COLORS: seq<Rgb> := [Rgb(0, 0, 0), Rgb(1, 1, 1), Rgb(2, 2, 2), Rgb(3, 3, 3)]

  /** The record loop reads the expected points. */
  lemma TestRead()
    ensures forall k :: 0 <= k < 4 ==> FiniteRecord(TestData(), k, TEST_LAYOUT)
    ensures FiniteRead(TestData(), 0, 4, TEST_LAYOUT) == (TEST_POSITIONS, TEST_COLORS)
  {
    forall k | 0 <= k < 4
      ensures FiniteRecord(TestData(), k, TEST_LAYOUT)
              && FinitePosition(RecordAt(TestData(), k, 16), TEST_LAYOUT) == TEST_POSITIONS[k]
              && ColorAt(RecordAt(TestData(), k, 16), 12).value == TEST_COLORS[k]
    {
      TestPointAt(k);
    }
    ReadIs(TestData(), 4, TEST_LAYOUT, TEST_POSITIONS, TEST_COLORS);
  }

  /** `test_parse_pointcloud2`: the message decodes to the four expected
    * points and their four colours. */
  lemma TestCloud()
    ensures CloudOf(TestPayload(), None) == Ok(Cloud(TEST_POSITIONS, Some(TEST_COLORS)))
  {
    var raw := RawCloud(1, 4, TEST_POINT_FIELDS, 16, TestData());
    TestRaw();
    CloudOfRaw(TestPayload(), raw, None);
    TestXyOffsets();
    TestZColorOffsets();
    TestPoints();
    TestRead();
    ColoredPoints(raw, TEST_LAYOUT, (TEST_POSITIONS, TEST_COLORS));
  }
}
