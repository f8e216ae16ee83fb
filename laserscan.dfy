/**
 * The laser scan mapping: the `sensor_msgs/LaserScan` decoder, which turns
 * every range into a point or into the (NaN, NaN) marker of an invalid
 * range, and the two ways `laserscan_to_rerun` logs the points: as line
 * strips broken at invalid points, or as the valid points alone.
 *
 * The coordinates `r * cos(angle)` and `r * sin(angle)` are floating point
 * trigonometry: a point keeps its range and its angle
 * `angle_min + i * angle_increment` symbolically, and whether its computed
 * coordinates are finite is a parameter of the logging functions.
 */
module LaserScan {
  import opened Wire
  import opened Strings

  /** The fields of the scan the points depend on. */
  datatype ScanParams = ScanParams(angleMin: F32, angleIncrement: F32, rangeMin: F32, rangeMax: F32)

  /** The angle of ray `index`: `angle_min + index * angle_increment`. */
  datatype Angle = Angle(min: F32, index: nat, increment: F32)

  /** A point of the scan in polar form, or the marker of an invalid range. */
  datatype ScanPoint = Polar(range: F32, angle: Angle) | Marker

  /** `r.is_finite() && r >= range_min && r <= range_max`, with IEEE
    * comparisons (false against NaN). */
  predicate InRange(r: F32, s: ScanParams)
  {
    IsFinite32(r) && GreaterEq(Value32(r), Value32(s.rangeMin)) && GreaterEq(Value32(s.rangeMax), Value32(r))
  }

  /** The point of range `r` on ray `i`. */
  function PointOf(r: F32, i: nat, s: ScanParams): ScanPoint
  {
    if InRange(r, s) then Polar(r, Angle(s.angleMin, i, s.angleIncrement)) else Marker
  }

  /** One point per range, in order. */
  function PointsOf(ranges: seq<F32>, s: ScanParams): (pts: seq<ScanPoint>)
  {
    seq(|ranges|, i requires 0 <= i < |ranges| => PointOf(ranges[i], i, s))
  }

  // ---------------------------------------------------------------------
  // parse_laserscan
  // ---------------------------------------------------------------------

  /** The scan parameters, with the header ending at `h`: angle_min at `h`,
    * angle_increment at `h + 8`, range_min at `h + 20`, range_max at
    * `h + 24`. */
  function ParamsAt(p: Bytes, h: nat): ScanParams
    requires h + 28 <= |p|
  {
    ScanParams(F32At(p, h), F32At(p, h + 8), F32At(p, h + 20), F32At(p, h + 24))
  }

  /** `n` consecutive `f32` values from `c`. */
  function RangesAt(p: Bytes, c: nat, n: nat): (rs: seq<F32>)
    requires c + 4 * n <= |p|
    ensures |rs| == n
  {
    seq(n, i requires 0 <= i < n => F32At(p, c + 4 * i))
  }

  /** The layout `parse_laserscan` reads: the header, three angles, two
    * unchecked skipped floats, range_min, range_max, the ranges length, the
    * intensities length and the ranges.  The reads are checked one by one;
    * consecutive checks that give the same error are taken together.  The
    * intensities are never read. */
  function ScanOf(p: Bytes): Result<seq<ScanPoint>>
  {
    if |p| < 16 then Err(Truncated)
    else
      var h := StringEnd(p, 12);
      if h + 36 > |p| then Err(Truncated)
      else
        var n := U32At(p, h + 28);
        if h + 36 + 4 * n > |p| then Err(Truncated)
        else Ok(PointsOf(RangesAt(p, h + 36, n), ParamsAt(p, h)))
  }

  /** A decoded scan has exactly as many points as its ranges length, and
    * point `i` is a real point exactly when range `i` is finite and within
    * `[range_min, range_max]`; otherwise it is the marker. */
  lemma ScanShape(p: Bytes)
    ensures ScanOf(p).Ok? <==>
      |p| >= 16 && StringEnd(p, 12) + 36 <= |p|
      && StringEnd(p, 12) + 36 + 4 * U32At(p, StringEnd(p, 12) + 28) <= |p|
    ensures ScanOf(p).Err? ==> ScanOf(p).error == Truncated
    ensures ScanOf(p).Ok? ==>
      var h := StringEnd(p, 12);
      var pts, s := ScanOf(p).value, ParamsAt(p, h);
      && |pts| == U32At(p, h + 28)
      && forall i :: 0 <= i < |pts| ==>
           var r := F32At(p, h + 36 + 4 * i);
           (pts[i].Polar? <==> InRange(r, s))
           && (pts[i].Polar? ==> pts[i] == Polar(r, Angle(s.angleMin, i, s.angleIncrement)))
  {
  }

  /** The reads of `parse_laserscan` before the ranges: the header, the
    * three angles, the two skipped floats, range_min, range_max and the two
    * array lengths.  Returns the parameters and the ranges length, and the
    * cursor at the first range. */
  method ReadScanHead(p: Bytes) returns (r: Result<(ScanParams, nat)>, cursor: nat)
    ensures r.Ok? <==> |p| >= 16 && StringEnd(p, 12) + 36 <= |p|
    ensures r.Err? ==> r.error == Truncated
    ensures r.Ok? ==>
      var h := StringEnd(p, 12);
      r.value == (ParamsAt(p, h), U32At(p, h + 28)) && cursor == h + 36
  {
    var h := SkipHeader(p, 0);
    if h.Err? { return Err(h.error), 0; }
    cursor := h.value;
    var angleMin, angleMax, increment, rangeMin, rangeMax, n, k;
    angleMin, cursor := ReadF32(p, cursor);
    if angleMin.Err? { return Err(angleMin.error), cursor; }
    angleMax, cursor := ReadF32(p, cursor);
    if angleMax.Err? { return Err(angleMax.error), cursor; }
    increment, cursor := ReadF32(p, cursor);
    if increment.Err? { return Err(increment.error), cursor; }
    cursor := cursor + 4;
    cursor := cursor + 4;
    rangeMin, cursor := ReadF32(p, cursor);
    if rangeMin.Err? { return Err(rangeMin.error), cursor; }
    rangeMax, cursor := ReadF32(p, cursor);
    if rangeMax.Err? { return Err(rangeMax.error), cursor; }
    n, cursor := ReadU32(p, cursor);
    if n.Err? { return Err(n.error), cursor; }
    k, cursor := ReadU32(p, cursor);
    if k.Err? { return Err(k.error), cursor; }
    r := Ok((ScanParams(angleMin.value, increment.value, rangeMin.value, rangeMax.value), n.value));
  }

  /** The `for _ in 0..ranges_len` loop: one checked `f32` read per range. */
  method ReadRanges(p: Bytes, start: nat, n: nat) returns (r: Result<seq<F32>>)
    requires start <= |p|
    ensures r.Ok? <==> start + 4 * n <= |p|
    ensures r.Err? ==> r.error == Truncated
    ensures r.Ok? ==> r.value == RangesAt(p, start, n)
  {
    var cursor := start;
    var ranges: seq<F32> := [];
    var i := 0;
    while i < n
      invariant i <= n && cursor == start + 4 * i <= |p|
      invariant |ranges| == i
      invariant forall j :: 0 <= j < i ==> ranges[j] == F32At(p, start + 4 * j)
    {
      var range;
      range, cursor := ReadF32(p, cursor);
      if range.Err? { return Err(range.error); }
      ranges := ranges + [range.value];
      i := i + 1;
    }
    r := Ok(ranges);
  }

  /** The loop turning each range into a point or the marker. */
  method ComputePoints(ranges: seq<F32>, s: ScanParams) returns (points: seq<ScanPoint>)
    ensures points == PointsOf(ranges, s)
  {
    points := [];
    var j := 0;
    while j < |ranges|
      invariant j <= |ranges| && |points| == j
      invariant forall m :: 0 <= m < j ==> points[m] == PointOf(ranges[m], m, s)
    {
      var range := ranges[j];
      if InRange(range, s) {
        points := points + [Polar(range, Angle(s.angleMin, j, s.angleIncrement))];
      } else {
        points := points + [Marker];
      }
      j := j + 1;
    }
  }

  /** `parse_laserscan`. */
  method ParseLaserScan(p: Bytes) returns (r: Result<seq<ScanPoint>>)
    ensures r == ScanOf(p)
  {
    var head, cursor := ReadScanHead(p);
    if head.Err? { return Err(head.error); }
    var (s, n) := head.value;
    var ranges := ReadRanges(p, cursor, n);
    if ranges.Err? { return Err(ranges.error); }
    var points := ComputePoints(ranges.value, s);
    r := Ok(points);
  }

  // ---------------------------------------------------------------------
  // The encoding, and the decoder's round trip
  // ---------------------------------------------------------------------

  /** `f32` values one after the other, four little-endian bytes each. */
  function FloatsBytes(fs: seq<F32>): (b: Bytes)
    ensures |b| == 4 * |fs|
  {
    if |fs| == 0 then [] else fs[0].bytes + FloatsBytes(fs[1..])
  }

  /** Value `i` of a float array reads back from wherever the array sits. */
  lemma {:induction false} FloatsAt(pre: Bytes, fs: seq<F32>, post: Bytes, i: nat)
    requires i < |fs|
    ensures |pre| + 4 * i + 4 <= |pre + FloatsBytes(fs) + post|
    ensures F32At(pre + FloatsBytes(fs) + post, |pre| + 4 * i) == fs[i]
    decreases i
  {
    var tail := FloatsBytes(fs[1..]);
    assert pre + FloatsBytes(fs) + post == pre + fs[0].bytes + (tail + post);
    if i == 0 {
      F32Inside(pre, fs[0], tail + post);
    } else {
      assert pre + FloatsBytes(fs) + post == (pre + fs[0].bytes) + tail + post;
      FloatsAt(pre + fs[0].bytes, fs[1..], post, i - 1);
    }
  }

  /** The seven `float32` fields of a scan, in message order. */
  datatype ScanFields = ScanFields(angleMin: F32, angleMax: F32, angleIncrement: F32, timeIncrement: F32,
                                   scanTime: F32, rangeMin: F32, rangeMax: F32)

  function FieldList(f: ScanFields): (fs: seq<F32>)
    ensures |fs| == 7
  {
    [f.angleMin, f.angleMax, f.angleIncrement, f.timeIncrement, f.scanTime, f.rangeMin, f.rangeMax]
  }

  /** A scan message as the ROS1 serialisation writes it, with seq and
    * stamp 0, up to and including the ranges; `intensities` is the declared
    * intensities length, whose values may follow. */
  function ScanPayload(frame: Bytes, f: ScanFields, ranges: seq<F32>, intensities: nat): (b: Bytes)
    requires |frame| < TWO_32 && |ranges| < TWO_32 && intensities < TWO_32
    ensures |b| == 52 + |frame| + 4 * |ranges|
  {
    U32Le(0) + U32Le(0) + U32Le(0) + Str(frame) + FloatsBytes(FieldList(f))
    + U32Le(|ranges|) + U32Le(intensities) + FloatsBytes(ranges)
  }

  /** The part of an encoded scan before the ranges. */
  function ScanHead(frame: Bytes, f: ScanFields, n: nat, intensities: nat): (b: Bytes)
    requires |frame| < TWO_32 && n < TWO_32 && intensities < TWO_32
    ensures |b| == 52 + |frame|
  {
    U32Le(0) + U32Le(0) + U32Le(0) + Str(frame) + FloatsBytes(FieldList(f)) + U32Le(n) + U32Le(intensities)
  }

  /** Where the fields before the ranges lie, followed by any bytes. */
  lemma HeadLayout(frame: Bytes, f: ScanFields, n: nat, intensities: nat, rest: Bytes)
    requires |frame| < TWO_32 && n < TWO_32 && intensities < TWO_32
    ensures var p, h := ScanHead(frame, f, n, intensities) + rest, 16 + |frame|;
            && U32At(p, 12) == |frame| && U32At(p, h + 28) == n
            && ParamsAt(p, h) == ScanParams(f.angleMin, f.angleIncrement, f.rangeMin, f.rangeMax)
  {
    var a0 := U32Le(0) + U32Le(0) + U32Le(0);
    var p1 := a0 + Str(frame);
    var p2 := p1 + FloatsBytes(FieldList(f));
    var p3 := p2 + U32Le(n);
    var p4 := p3 + U32Le(intensities);
    StrEnd(a0, frame);
    U32AtLeft(p1, FloatsBytes(FieldList(f)), 12);
    U32AtLeft(p2, U32Le(n), 12);
    U32AtLeft(p3, U32Le(intensities), 12);
    U32AtLeft(p4, rest, 12);
    U32AtEnd(p2, n);
    U32AtLeft(p3, U32Le(intensities), |p2|);
    U32AtLeft(p4, rest, |p2|);
    var tail := U32Le(n) + U32Le(intensities) + rest;
    assert p4 + rest == p1 + FloatsBytes(FieldList(f)) + tail;
    HeadFloats(p1, f, tail);
  }

  /** The four parameters among the seven floats. */
  lemma HeadFloats(pre: Bytes, f: ScanFields, post: Bytes)
    ensures var p, h := pre + FloatsBytes(FieldList(f)) + post, |pre|;
            ParamsAt(p, h) == ScanParams(f.angleMin, f.angleIncrement, f.rangeMin, f.rangeMax)
  {
    FloatsAt(pre, FieldList(f), post, 0);
    FloatsAt(pre, FieldList(f), post, 2);
    FloatsAt(pre, FieldList(f), post, 5);
    FloatsAt(pre, FieldList(f), post, 6);
  }

  /** The ranges of an encoded scan, read from where they sit. */
  lemma {:induction false} RangesLayout(pre: Bytes, ranges: seq<F32>, rest: Bytes)
    ensures RangesAt(pre + FloatsBytes(ranges) + rest, |pre|, |ranges|) == ranges
  {
    var q := pre + FloatsBytes(ranges) + rest;
    var rs := RangesAt(q, |pre|, |ranges|);
    forall i | 0 <= i < |ranges|
      ensures rs[i] == ranges[i]
    {
      FloatsAt(pre, ranges, rest, i);
      RangeIndex(q, |pre|, |ranges|, i);
    }
  }

  lemma RangeIndex(p: Bytes, c: nat, n: nat, i: nat)
    requires c + 4 * n <= |p| && i < n
    ensures RangesAt(p, c, n)[i] == F32At(p, c + 4 * i)
  {
  }

  /** An encoded scan decodes to one point per range, whatever follows it. */
  lemma ScanRoundTrip(frame: Bytes, f: ScanFields, ranges: seq<F32>, intensities: nat, rest: Bytes)
    requires |frame| < TWO_32 && |ranges| < TWO_32 && intensities < TWO_32
    ensures ScanOf(ScanPayload(frame, f, ranges, intensities) + rest)
            == Ok(PointsOf(ranges, ScanParams(f.angleMin, f.angleIncrement, f.rangeMin, f.rangeMax)))
  {
    var head := ScanHead(frame, f, |ranges|, intensities);
    assert ScanPayload(frame, f, ranges, intensities) == head + FloatsBytes(ranges);
    HeadLayout(frame, f, |ranges|, intensities, FloatsBytes(ranges) + rest);
    assert head + FloatsBytes(ranges) + rest == head + (FloatsBytes(ranges) + rest);
    RangesLayout(head, ranges, rest);
  }

  // ---------------------------------------------------------------------
  // The scan of the unit test
  // ---------------------------------------------------------------------

  const ZERO32: F32 := F32([0, 0, 0, 0])
  const ONE32: F32 := F32([0, 0, 0x80, 0x3F])
  const MINUS_ONE32: F32 := F32([0, 0, 0x80, 0xBF])
  /** `0.1f32`, 0x3DCCCCCD. */
  const TENTH32: F32 := F32([0xCD, 0xCC, 0xCC, 0x3D])
  const TEN32: F32 := F32([0, 0, 0x20, 0x41])

  lemma OneValue32()
    ensures Value32(ONE32) == Finite(1.0)
  {
    Pow2Small();
    assert Exponent32(ONE32) == 127 && Fraction32(ONE32) == 0;
  }

  lemma TenthValue32()
    ensures Value32(TENTH32) == Finite(0.100000001490116119384765625)
  {
    Pow2Small();
    assert Exponent32(TENTH32) == 123 && Fraction32(TENTH32) == 0x4C_CCCD;
  }

  lemma TenValue32()
    ensures Value32(TEN32) == Finite(10.0)
  {
    Pow2Small();
    assert Exponent32(TEN32) == 130 && Fraction32(TEN32) == 0x20_0000;
  }

  /** 1.0f32 lies within [0.1f32, 10.0f32]. */
  lemma OneInRange()
    ensures InRange(ONE32, ScanParams(MINUS_ONE32, TENTH32, TENTH32, TEN32))
  {
    OneValue32();
    TenthValue32();
    TenValue32();
    InRangeFinite(ONE32, ScanParams(MINUS_ONE32, TENTH32, TENTH32, TEN32),
                  1.0, 0.100000001490116119384765625, 10.0);
  }

  /** A range between finite bounds is compared as a real number. */
  lemma InRangeFinite(r: F32, s: ScanParams, v: real, lo: real, hi: real)
    requires Value32(r) == Finite(v) && Value32(s.rangeMin) == Finite(lo) && Value32(s.rangeMax) == Finite(hi)
    requires lo <= v <= hi
    ensures InRange(r, s)
  {
  }

  /** The ten ranges of the test: 1.0 at even rays, NaN at odd ones. */
  function TestRanges(): (rs: seq<F32>)
    ensures |rs| == 10
  {
    seq(10, i requires 0 <= i < 10 => if i % 2 == 0 then ONE32 else NAN32)
  }

  /** The scan of the unit test decodes to ten points; the first is a real
    * point and the second the marker. */
  lemma TestScan()
    ensures var fields := ScanFields(MINUS_ONE32, ONE32, TENTH32, ZERO32, ZERO32, TENTH32, TEN32);
            var r := ScanOf(ScanPayload([], fields, TestRanges(), 0));
            r.Ok? && |r.value| == 10 && r.value[0].Polar? && r.value[1] == Marker
  {
    var fields := ScanFields(MINUS_ONE32, ONE32, TENTH32, ZERO32, ZERO32, TENTH32, TEN32);
    ScanRoundTrip([], fields, TestRanges(), 0, []);
    assert ScanPayload([], fields, TestRanges(), 0) + [] == ScanPayload([], fields, TestRanges(), 0);
    OneInRange();
    assert !IsFinite32(NAN32);
  }

  // ---------------------------------------------------------------------
  // Line strips and points
  // ---------------------------------------------------------------------

  /** The reference reading of line mode: a drawn point extends the strip of
    * the drawn point just before it and otherwise starts a new strip; a
    * point that is not drawn belongs to no strip. */
  function Runs<P>(pts: seq<P>, drawn: P -> bool): (r: seq<seq<P>>)
    ensures |pts| > 0 && drawn(pts[|pts| - 1]) ==> |r| > 0
    ensures forall i :: 0 <= i < |r| ==> |r[i]| > 0
    decreases |pts|
  {
    if |pts| == 0 then []
    else
      var front, x := pts[..|pts| - 1], pts[|pts| - 1];
      var r := Runs(front, drawn);
      if !drawn(x) then r
      else if |front| > 0 && drawn(front[|front| - 1]) then r[|r| - 1 := r[|r| - 1] + [x]]
      else r + [[x]]
  }

  /** The drawn points, in order (points mode's `filter`). */
  function Drawn<P>(pts: seq<P>, drawn: P -> bool): (r: seq<P>)
    ensures |r| <= |pts|
    ensures forall i :: 0 <= i < |r| ==> drawn(r[i])
    decreases |pts|
  {
    if |pts| == 0 then []
    else Drawn(pts[..|pts| - 1], drawn) + (if drawn(pts[|pts| - 1]) then [pts[|pts| - 1]] else [])
  }

  function Concat<P>(ss: seq<seq<P>>): seq<P>
    decreases |ss|
  {
    if |ss| == 0 then [] else Concat(ss[..|ss| - 1]) + ss[|ss| - 1]
  }

  /** The strips of line mode, read in order, are the drawn points. */
  lemma {:induction false} RunsConcat<P>(pts: seq<P>, drawn: P -> bool)
    ensures Concat(Runs(pts, drawn)) == Drawn(pts, drawn)
    decreases |pts|
  {
    if |pts| > 0 {
      var front, x := pts[..|pts| - 1], pts[|pts| - 1];
      var r := Runs(front, drawn);
      RunsConcat(front, drawn);
      if drawn(x) {
        if |front| > 0 && drawn(front[|front| - 1]) {
          var last := |r| - 1;
          var r' := r[last := r[last] + [x]];
          assert r'[..last] == r[..last];
          assert Concat(r) == Concat(r[..last]) + r[last];
          assert Concat(r') == Concat(r[..last]) + (r[last] + [x]);
        } else {
          assert (r + [[x]])[..|r|] == r;
        }
      }
    }
  }

  /** The strip list of the loop after `pts`: it starts as one empty strip;
    * a drawn point goes onto the last strip; a point that is not drawn opens
    * a new strip unless the last one is still empty. */
  function StripsAfter<P>(pts: seq<P>, drawn: P -> bool): (st: seq<seq<P>>)
    ensures |st| >= 1
    decreases |pts|
  {
    if |pts| == 0 then [[]]
    else StripStep(StripsAfter(pts[..|pts| - 1], drawn), pts[|pts| - 1], drawn)
  }

  function StripStep<P>(st: seq<seq<P>>, x: P, drawn: P -> bool): (st': seq<seq<P>>)
    requires |st| >= 1
    ensures |st'| >= 1
  {
    var last := |st| - 1;
    if drawn(x) then st[last := st[last] + [x]]
    else if |st[last]| > 0 then st + [[]]
    else st
  }

  /** After the loop the last strip is popped when it is empty. */
  function Finish<P>(st: seq<seq<P>>): seq<seq<P>>
    requires |st| >= 1
  {
    if |st[|st| - 1]| == 0 then st[..|st| - 1] else st
  }

  /** The loop's strip list is the reference strips, followed by one open
    * empty strip unless the last point was drawn. */
  lemma {:induction false} StripsAfterRuns<P>(pts: seq<P>, drawn: P -> bool)
    ensures StripsAfter(pts, drawn)
            == if |pts| > 0 && drawn(pts[|pts| - 1]) then Runs(pts, drawn) else Runs(pts, drawn) + [[]]
    decreases |pts|
  {
    if |pts| > 0 {
      var front, x := pts[..|pts| - 1], pts[|pts| - 1];
      var r := Runs(front, drawn);
      StripsAfterRuns(front, drawn);
      if drawn(x) && !(|front| > 0 && drawn(front[|front| - 1])) {
        assert [] + [x] == [x];
        UpdateLast(r, [], [x]);
      }
    }
  }

  lemma UpdateLast<T>(r: seq<T>, a: T, b: T)
    ensures (r + [a])[|r| := b] == r + [b]
  {
  }

  /** Line mode yields the reference strips. */
  lemma FinishRuns<P>(pts: seq<P>, drawn: P -> bool)
    ensures Finish(StripsAfter(pts, drawn)) == Runs(pts, drawn)
  {
    StripsAfterRuns(pts, drawn);
    var r := Runs(pts, drawn);
    if !(|pts| > 0 && drawn(pts[|pts| - 1])) {
      assert (r + [[]])[..|r|] == r;
    }
  }

  /** The `for &pt in &points` loop of line mode and the final `pop`. */
  method LineStrips<P>(pts: seq<P>, drawn: P -> bool) returns (strips: seq<seq<P>>)
    ensures strips == Runs(pts, drawn)
  {
    strips := [[]];
    var i := 0;
    while i < |pts|
      invariant i <= |pts| && strips == StripsAfter(pts[..i], drawn)
    {
      var x := pts[i];
      var last := |strips| - 1;
      if drawn(x) {
        strips := strips[last := strips[last] + [x]];
      } else if |strips[last]| > 0 {
        strips := strips + [[]];
      }
      assert pts[..i + 1][..i] == pts[..i];
      i := i + 1;
    }
    if |strips[|strips| - 1]| == 0 {
      strips := strips[..|strips| - 1];
    }
    assert pts[..|pts|] == pts;
    FinishRuns(pts, drawn);
  }

  // ---------------------------------------------------------------------
  // laserscan_to_rerun
  // ---------------------------------------------------------------------

  /** What is logged at the topic without its leading slashes. */
  datatype ScanLog = LineStrips2D(path: string, strips: seq<seq<ScanPoint>>) | Points2D(path: string, points: seq<ScanPoint>)

  /** Whether a point's computed coordinates are both finite: never for the
    * marker, and for a real point as `finiteXy` says of `r * cos(angle)` and
    * `r * sin(angle)`. */
  function DrawnBy(finiteXy: (F32, Angle) -> bool): ScanPoint -> bool
  {
    (pt: ScanPoint) => pt.Polar? && finiteXy(pt.range, pt.angle)
  }

  /** `laserscan_to_rerun`: a decoding error is returned; line mode logs the
    * strips when there is at least one; points mode always logs the drawn
    * points. */
  function ScanEntry(topic: string, payload: Bytes, asLines: bool, finiteXy: (F32, Angle) -> bool): (r: Result<seq<ScanLog>>)
    ensures r.Ok? <==> ScanOf(payload).Ok?
    ensures r.Err? ==> r.error == Truncated
    ensures r.Ok? && !asLines ==> |r.value| == 1 && r.value[0].Points2D?
    ensures r.Ok? && asLines ==> |r.value| <= 1 && forall i :: 0 <= i < |r.value| ==> r.value[i].LineStrips2D?
  {
    var points :- ScanOf(payload);
    var path := TrimLeadingSlashes(topic);
    var drawn := DrawnBy(finiteXy);
    if asLines then
      var strips := Runs(points, drawn);
      Ok(if |strips| > 0 then [LineStrips2D(path, strips)] else [])
    else Ok([Points2D(path, Drawn(points, drawn))])
  }

  /** Both modes draw the same points in the same order, no marker among
    * them; no strip is empty, and a scan with a drawn point has a strip. */
  lemma ModesAgree(topic: string, payload: Bytes, finiteXy: (F32, Angle) -> bool)
    requires ScanOf(payload).Ok?
    ensures var lines, points := ScanEntry(topic, payload, true, finiteXy), ScanEntry(topic, payload, false, finiteXy);
            var drawn := points.value[0].points;
            && (forall i :: 0 <= i < |drawn| ==> drawn[i].Polar?)
            && (|lines.value| == 0 ==> drawn == [])
            && (|lines.value| == 1 ==> Concat(lines.value[0].strips) == drawn
                                       && forall i :: 0 <= i < |lines.value[0].strips| ==> |lines.value[0].strips[i]| > 0)
  {
    var pts := ScanOf(payload).value;
    var drawn := DrawnBy(finiteXy);
    RunsConcat(pts, drawn);
    var d := Drawn(pts, drawn);
    assert forall i :: 0 <= i < |d| ==> drawn(d[i]);
  }

  /** The method form of `laserscan_to_rerun`. */
  method LaserScanToRerun(topic: string, payload: Bytes, asLines: bool, finiteXy: (F32, Angle) -> bool)
    returns (r: Result<seq<ScanLog>>)
    ensures r == ScanEntry(topic, payload, asLines, finiteXy)
  {
    var points := ParseLaserScan(payload);
    if points.Err? { return Err(points.error); }
    var path := TrimLeadingSlashes(topic);
    var drawn := DrawnBy(finiteXy);
    if asLines {
      var strips := LineStrips(points.value, drawn);
      if |strips| > 0 {
        return Ok([LineStrips2D(path, strips)]);
      }
      return Ok([]);
    }
    r := Ok([Points2D(path, Drawn(points.value, drawn))]);
  }
}
