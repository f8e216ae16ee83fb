/**
 * The GPS mapping: the `sensor_msgs/NavSatFix` decoder, the service
 * bitmask, the origin string, and the state `navsatfix_to_rerun` keeps
 * between fixes (the ENU origin and the accumulated path).
 *
 * The conversion from latitude, longitude and altitude to east/north/up
 * coordinates is trigonometry over doubles; a converted point is kept as
 * the pair of geodetic points it is computed from.  Parsing a decimal
 * `f64` is a parameter of the operations that need it.
 */
module Gps {
  import opened Options
  import opened Wire
  import opened Strings

  /** A latitude, longitude and altitude (`nalgebra::Point3<f64>`). */
  datatype Geo = Geo(lat: F64, lon: F64, alt: F64)

  /** What `parse_navsatfix` returns: the position, the `int8` fix status
    * and the `uint16` service bitmask. */
  datatype NavSatFix = NavSatFix(lat: F64, lon: F64, alt: F64, status: int, service: nat)

  function Position(f: NavSatFix): Geo
  {
    Geo(f.lat, f.lon, f.alt)
  }

  // ---------------------------------------------------------------------
  // parse_navsatfix
  // ---------------------------------------------------------------------

  /** `parse_navsatfix`: with the header ending at `h`, the status at `h`,
    * the service at `h + 1` and latitude, longitude and altitude at
    * `h + 3`, `h + 11` and `h + 19`, each after its own length check. */
  function FixOf(p: Bytes): (r: Result<NavSatFix>)
    ensures r.Ok? <==> |p| >= 16 && StringEnd(p, 12) + 27 <= |p|
    ensures r.Err? ==> r.error == Truncated
    ensures r.Ok? ==> -128 <= r.value.status < 128 && r.value.service < TWO_16
    ensures r.Ok? ==> (r.value.status < 0 <==> p[StringEnd(p, 12)] >= 128)
  {
    if |p| < 16 then Err(Truncated)
    else
      var h := StringEnd(p, 12);
      if |p| < h + 1 then Err(Truncated)
      else if |p| < h + 3 then Err(Truncated)
      else if |p| < h + 11 then Err(Truncated)
      else if |p| < h + 19 then Err(Truncated)
      else if |p| < h + 27 then Err(Truncated)
      else Ok(NavSatFix(F64At(p, h + 3), F64At(p, h + 11), F64At(p, h + 19), I8Of(p[h]), U16At(p, h + 1)))
  }

  /** `parse_status`: the `int8` status and then the `uint16` service. */
  method ParseStatus(p: Bytes, c: nat) returns (r: Result<(int, nat)>, next: nat)
    ensures r.Ok? <==> c + 3 <= |p|
    ensures r.Ok? ==> r.value == (I8Of(p[c]), U16At(p, c + 1)) && next == c + 3
    ensures r.Err? ==> r.error == Truncated
  {
    var status, cursor := ReadI8(p, c);
    if status.Err? { return Err(status.error), c; }
    var service;
    service, cursor := ReadU16(p, cursor);
    if service.Err? { return Err(service.error), c; }
    r, next := Ok((status.value, service.value)), cursor;
  }

  /** `parse_navsatfix` with its cursor. */
  method ParseNavSatFix(p: Bytes) returns (r: Result<NavSatFix>)
    ensures r == FixOf(p)
  {
    var h := SkipHeader(p, 0);
    if h.Err? { return Err(h.error); }
    var cursor := h.value;
    var st;
    st, cursor := ParseStatus(p, cursor);
    if st.Err? { return Err(st.error); }
    var lat, lon, alt;
    lat, cursor := ReadF64(p, cursor);
    if lat.Err? { return Err(lat.error); }
    lon, cursor := ReadF64(p, cursor);
    if lon.Err? { return Err(lon.error); }
    alt, cursor := ReadF64(p, cursor);
    if alt.Err? { return Err(alt.error); }
    r := Ok(NavSatFix(lat.value, lon.value, alt.value, st.value.0, st.value.1));
  }

  /** A `read_i8` of the byte that encodes `v` gives `v` back. */
  function I8Byte(v: int): (b: Byte)
    requires -128 <= v < 128
    ensures I8Of(b) == v
  {
    if v < 0 then v + 256 else v
  }

  /** The 27 bytes after the header: status, service and the position. */
  function FieldsBytes(f: NavSatFix): (b: Bytes)
    requires -128 <= f.status < 128 && f.service < TWO_16
    ensures |b| == 27
  {
    [I8Byte(f.status)] + U16Le(f.service) + f.lat.bytes + f.lon.bytes + f.alt.bytes
  }

  /** A fix as the ROS1 serialisation writes it, with seq and stamp 0,
    * up to the altitude; the covariance that follows is not read. */
  function FixPayload(frame: Bytes, f: NavSatFix): (b: Bytes)
    requires |frame| < TWO_32 && -128 <= f.status < 128 && f.service < TWO_16
    ensures |b| == 16 + |frame| + 27
  {
    U32Le(0) + U32Le(0) + U32Le(0) + Str(frame) + FieldsBytes(f)
  }

  /** The fields read back from wherever their bytes sit. */
  lemma FieldsAt(a: Bytes, f: NavSatFix, rest: Bytes)
    requires -128 <= f.status < 128 && f.service < TWO_16
    ensures var p := a + FieldsBytes(f) + rest;
            && |a| + 27 <= |p| && I8Of(p[|a|]) == f.status && U16At(p, |a| + 1) == f.service
            && F64At(p, |a| + 3) == f.lat && F64At(p, |a| + 11) == f.lon && F64At(p, |a| + 19) == f.alt
  {
    var s1 := a + [I8Byte(f.status)];
    var s2 := s1 + U16Le(f.service);
    var s3 := s2 + f.lat.bytes;
    var s4 := s3 + f.lon.bytes;
    var p := a + FieldsBytes(f) + rest;
    assert p == s1 + (U16Le(f.service) + f.lat.bytes + f.lon.bytes + f.alt.bytes + rest);
    assert p[|a|] == I8Byte(f.status);
    U16Inside(s1, f.service, f.lat.bytes + f.lon.bytes + f.alt.bytes + rest);
    assert p == s1 + U16Le(f.service) + (f.lat.bytes + f.lon.bytes + f.alt.bytes + rest);
    F64Inside(s2, f.lat, f.lon.bytes + f.alt.bytes + rest);
    assert p == s2 + f.lat.bytes + (f.lon.bytes + f.alt.bytes + rest);
    F64Inside(s3, f.lon, f.alt.bytes + rest);
    assert p == s3 + f.lon.bytes + (f.alt.bytes + rest);
    F64Inside(s4, f.alt, rest);
    assert p == s4 + f.alt.bytes + rest;
  }

  /** The header of an encoded fix ends where its fields begin. */
  lemma FixHeaderEnd(frame: Bytes, tail: Bytes)
    requires |frame| < TWO_32
    ensures var h := U32Le(0) + U32Le(0) + U32Le(0) + Str(frame);
            |h| + |tail| >= 16 && StringEnd(h + tail, 12) == |h|
  {
    var a0 := U32Le(0) + U32Le(0) + U32Le(0);
    StrEnd(a0, frame);
    U32AtLeft(a0 + Str(frame), tail, 12);
  }

  /** An encoded fix decodes to itself whatever follows it. */
  lemma FixRoundTrip(frame: Bytes, f: NavSatFix, rest: Bytes)
    requires |frame| < TWO_32 && -128 <= f.status < 128 && f.service < TWO_16
    ensures FixOf(FixPayload(frame, f) + rest) == Ok(f)
  {
    var h := U32Le(0) + U32Le(0) + U32Le(0) + Str(frame);
    var p := FixPayload(frame, f) + rest;
    assert p == h + (FieldsBytes(f) + rest);
    FixHeaderEnd(frame, FieldsBytes(f) + rest);
    FieldsAt(h, f, rest);
  }

  /** Every prefix that stops before the altitude's last byte is too
    * short. */
  lemma ShortFixFails(frame: Bytes, f: NavSatFix, k: nat)
    requires |frame| < TWO_32 && -128 <= f.status < 128 && f.service < TWO_16
    requires k < |FixPayload(frame, f)|
    ensures FixOf(FixPayload(frame, f)[..k]) == Err(Truncated)
  {
    var p := FixPayload(frame, f);
    var q := p[..k];
    if k >= 16 {
      var h := U32Le(0) + U32Le(0) + U32Le(0) + Str(frame);
      FixHeaderEnd(frame, FieldsBytes(f));
      assert q[12..16] == p[12..16];
      U32AtLeft(q, p[k..], 12);
      assert q + p[k..] == p;
    }
  }

  // ---------------------------------------------------------------------
  // get_service_names
  // ---------------------------------------------------------------------

  /** `service & bit != 0` for a single-bit mask. */
  predicate HasBit(service: nat, bit: nat)
    requires bit > 0
  {
    (service / bit) % 2 == 1
  }

  /** The satellite systems of `NavSatStatus`, by mask, in order. */
  const SERVICES: seq<(nat, string)> := [(1, "GPS"), (2, "GLONASS"), (4, "COMPASS"), (8, "GALILEO")]

  /** The names in `table` whose mask bit is set in `service`, in table
    * order. */
  function Selected(service: nat, table: seq<(nat, string)>): (names: seq<string>)
    requires forall i :: 0 <= i < |table| ==> table[i].0 > 0
    ensures |names| <= |table|
  {
    if |table| == 0 then []
    else
      var rest := Selected(service, table[1..]);
      if HasBit(service, table[0].0) then [table[0].1] + rest else rest
  }

  /** Every selected name is that of a set bit, and every set bit's name
    * is selected. */
  lemma {:induction false} SelectedNames(service: nat, table: seq<(nat, string)>)
    requires forall i :: 0 <= i < |table| ==> table[i].0 > 0
    ensures forall n :: n in Selected(service, table) ==>
              exists i :: 0 <= i < |table| && table[i].1 == n && HasBit(service, table[i].0)
    ensures forall i :: 0 <= i < |table| && HasBit(service, table[i].0) ==> table[i].1 in Selected(service, table)
  {
    if |table| > 0 {
      SelectedNames(service, table[1..]);
      assert forall i :: 1 <= i < |table| ==> table[i] == table[1..][i - 1];
    }
  }

  /** What `get_service_names` returns: the selected names joined with
    * ", ". */
  function ServiceNames(service: nat): string
  {
    Join(Selected(service, SERVICES), ", ")
  }

  /** `get_service_names`: four tests that push a name each. */
  method GetServiceNames(service: nat) returns (s: string)
    ensures s == ServiceNames(service)
  {
    var names: seq<string> := [];
    if HasBit(service, 1) { names := names + ["GPS"]; }
    assert names == NameIf(service, 1, "GPS");
    if HasBit(service, 2) { names := names + ["GLONASS"]; }
    assert names == NameIf(service, 1, "GPS") + NameIf(service, 2, "GLONASS");
    if HasBit(service, 4) { names := names + ["COMPASS"]; }
    assert names == NameIf(service, 1, "GPS") + NameIf(service, 2, "GLONASS") + NameIf(service, 4, "COMPASS");
    if HasBit(service, 8) { names := names + ["GALILEO"]; }
    SelectedServices(service);
    assert names == Selected(service, SERVICES);
    s := Join(names, ", ");
  }

  function NameIf(service: nat, bit: nat, name: string): seq<string>
    requires bit > 0
  {
    if HasBit(service, bit) then [name] else []
  }

  /** The selection from the four systems, one test at a time. */
  lemma SelectedServices(service: nat)
    ensures Selected(service, SERVICES)
            == NameIf(service, 1, "GPS") + NameIf(service, 2, "GLONASS")
               + NameIf(service, 4, "COMPASS") + NameIf(service, 8, "GALILEO")
  {
    var t1 := SERVICES[1..];
    var t2 := t1[1..];
    var t3 := t2[1..];
    assert t3[1..] == [];
    assert Selected(service, t3) == NameIf(service, 8, "GALILEO");
    assert Selected(service, t2) == NameIf(service, 4, "COMPASS") + NameIf(service, 8, "GALILEO");
    assert Selected(service, t1) == NameIf(service, 2, "GLONASS") + (NameIf(service, 4, "COMPASS") + NameIf(service, 8, "GALILEO"));
  }

  /** A system is named exactly when its bit is set. */
  lemma ServiceNamed(service: nat, i: nat)
    requires i < |SERVICES|
    ensures SERVICES[i].1 in Selected(service, SERVICES) <==> HasBit(service, SERVICES[i].0)
  {
    var names := Selected(service, SERVICES);
    SelectedNames(service, SERVICES);
    if SERVICES[i].1 in names {
      var j :| 0 <= j < |SERVICES| && SERVICES[j].1 == SERVICES[i].1 && HasBit(service, SERVICES[j].0);
      assert i == j;
    }
  }

  lemma JoinTwo(x: string, y: string, sep: string)
    ensures Join([x, y], sep) == x + sep + y
  {
    assert [x, y][1..] == [y];
  }

  lemma JoinThree(x: string, y: string, z: string, sep: string)
    ensures Join([x, y, z], sep) == x + sep + y + sep + z
  {
    assert [x, y, z][1..] == [y, z];
    JoinTwo(y, z, sep);
  }

  /** Only the four low bits matter. */
  lemma {:induction false} SelectedLowBits(service: nat, table: seq<(nat, string)>)
    requires forall i :: 0 <= i < |table| ==> table[i].0 in {1, 2, 4, 8}
    ensures Selected(service, table) == Selected(service % 16, table)
  {
    if |table| > 0 {
      SelectedLowBits(service, table[1..]);
      LowBits(service);
    }
  }

  /** Each of the four mask bits of `service` is that of `service % 16`. */
  lemma LowBits(service: nat)
    ensures HasBit(service, 1) == HasBit(service % 16, 1)
    ensures HasBit(service, 2) == HasBit(service % 16, 2)
    ensures HasBit(service, 4) == HasBit(service % 16, 4)
    ensures HasBit(service, 8) == HasBit(service % 16, 8)
  {
    var q, r := service / 16, service % 16;
    assert service == 16 * q + r;
    LowBit(service, q, r, 1);
    LowBit(service, q, r, 2);
    LowBit(service, q, r, 4);
    LowBit(service, q, r, 8);
  }

  /** Bit `b` of `16 * q + r` is bit `b` of `r`. */
  lemma LowBit(service: nat, q: nat, r: nat, b: nat)
    requires service == 16 * q + r && r < 16
    requires b == 1 || b == 2 || b == 4 || b == 8
    ensures HasBit(service, b) == HasBit(r, b)
  {
    if b == 1 {
      Parity(8 * q, r);
    } else if b == 2 {
      Quotient(service, 2, 8 * q + r / 2, r % 2);
      Parity(4 * q, r / 2);
    } else if b == 4 {
      Quotient(service, 4, 4 * q + r / 4, r % 4);
      Parity(2 * q, r / 4);
    } else {
      Quotient(service, 8, 2 * q + r / 8, r % 8);
      Parity(q, r / 8);
    }
  }

  lemma Parity(a: nat, x: nat)
    ensures (2 * a + x) % 2 == x % 2
  {
  }

  /** The quotient of `n == d * k + m` with `0 <= m < d` is `k`. */
  lemma Quotient(n: nat, d: nat, k: nat, m: nat)
    requires d == 1 || d == 2 || d == 4 || d == 8
    requires n == d * k + m && m < d
    ensures n / d == k
  {
  }

  /** A non-zero remainder has one of the four bits. */
  lemma SomeBit(r: nat)
    requires 0 < r < 16
    ensures HasBit(r, 1) || HasBit(r, 2) || HasBit(r, 4) || HasBit(r, 8)
  {
  }

  lemma ServiceNamesLowBits(service: nat)
    ensures ServiceNames(service) == ServiceNames(service % 16)
  {
    SelectedLowBits(service, SERVICES);
  }

  /** The text is empty exactly when none of the four bits is set. */
  lemma ServiceNamesEmpty(service: nat)
    ensures ServiceNames(service) == "" <==> service % 16 == 0
  {
    var names := Selected(service, SERVICES);
    if service % 16 == 0 {
      SelectedLowBits(service, SERVICES);
      assert Selected(0, SERVICES) == [];
    } else {
      LowBits(service);
      SomeBit(service % 16);
      var i :| 0 <= i < 4 && HasBit(service, SERVICES[i].0);
      ServiceNamed(service, i);
      SelectedNames(service, SERVICES);
      var j :| 0 <= j < |names| && names[j] == SERVICES[i].1;
      JoinNonEmpty(names, ", ");
    }
  }

  /** Joining names that are not all empty gives a non-empty text. */
  lemma {:induction false} JoinNonEmpty(parts: seq<string>, sep: string)
    requires exists i :: 0 <= i < |parts| && parts[i] != ""
    ensures Join(parts, sep) != ""
  {
    if |parts| > 1 && parts[0] == "" {
      var i :| 0 <= i < |parts| && parts[i] != "";
      assert parts[1..][i - 1] == parts[i];
      JoinNonEmpty(parts[1..], sep);
    }
  }

  /** The single-system cases of the unit test. */
  lemma ServiceNamesSingle()
    ensures ServiceNames(0) == ""
    ensures ServiceNames(1) == "GPS"
    ensures ServiceNames(2) == "GLONASS"
    ensures ServiceNames(4) == "COMPASS"
    ensures ServiceNames(8) == "GALILEO"
  {
    assert ServiceNames(0) == "" by { SelectedServices(0); }
    assert ServiceNames(1) == "GPS" by { SelectedServices(1); }
    assert ServiceNames(2) == "GLONASS" by { SelectedServices(2); }
    assert ServiceNames(4) == "COMPASS" by { SelectedServices(4); }
    assert ServiceNames(8) == "GALILEO" by { SelectedServices(8); }
  }

  /** The combined cases of the unit test, in mask order. */
  lemma ServiceNamesCombined()
    ensures ServiceNames(1 + 2) == "GPS, GLONASS"
    ensures ServiceNames(1 + 4 + 8) == "GPS, COMPASS, GALILEO"
  {
    ServiceNamesPair();
    ServiceNamesTriple();
  }

  lemma ServiceNamesPair()
    ensures ServiceNames(3) == "GPS, GLONASS"
  {
    assert Selected(3, SERVICES) == ["GPS", "GLONASS"] by {
      SelectedServices(3);
      assert HasBit(3, 1) && HasBit(3, 2) && !HasBit(3, 4) && !HasBit(3, 8);
    }
    assert Join(["GPS", "GLONASS"], ", ") == "GPS, GLONASS" by {
      JoinTwo("GPS", "GLONASS", ", ");
    }
  }

  lemma ServiceNamesTriple()
    ensures ServiceNames(13) == "GPS, COMPASS, GALILEO"
  {
    SelectedThirteen();
    JoinedThirteen();
  }

  lemma SelectedThirteen()
    ensures Selected(13, SERVICES) == ["GPS", "COMPASS", "GALILEO"]
  {
    SelectedServices(13);
    assert HasBit(13, 1) && !HasBit(13, 2) && HasBit(13, 4) && HasBit(13, 8);
  }

  lemma JoinedThirteen()
    ensures Join(["GPS", "COMPASS", "GALILEO"], ", ") == "GPS, COMPASS, GALILEO"
  {
    JoinThree("GPS", "COMPASS", "GALILEO", ", ");
  }

  // ---------------------------------------------------------------------
  // parse_origin and normalize_path
  // ---------------------------------------------------------------------

  /** `parse_origin`: exactly three comma-separated parts, each trimmed and
    * parsed by `parse` (`str::parse::<f64>`). */
  function ParseOrigin(s: string, parse: string -> Option<F64>): (r: Result<Geo>)
    ensures |Split(s, ',')| != 3 ==> r == Err(Invalid("Invalid GPS origin format"))
    ensures r.Ok? <==> |Split(s, ',')| == 3 && (forall i :: 0 <= i < 3 ==> parse(Trim(Split(s, ',')[i])).Some?)
    ensures r.Ok? ==> r.value == Geo(parse(Trim(Split(s, ',')[0])).value,
                                     parse(Trim(Split(s, ',')[1])).value,
                                     parse(Trim(Split(s, ',')[2])).value)
  {
    var parts := Split(s, ',');
    if |parts| != 3 then Err(Invalid("Invalid GPS origin format"))
    else
      var lat, lon, alt := parse(Trim(parts[0])), parse(Trim(parts[1])), parse(Trim(parts[2]));
      if lat.None? || lon.None? || alt.None? then Err(Invalid("invalid float literal"))
      else Ok(Geo(lat.value, lon.value, alt.value))
  }

  /** Three comma-free numbers separated by commas are read back as the
    * origin, in order. */
  lemma {:induction false} ParseOriginParts(a: string, b: string, c: string, parse: string -> Option<F64>)
    requires ',' !in a && ',' !in b && ',' !in c
    requires parse(Trim(a)).Some? && parse(Trim(b)).Some? && parse(Trim(c)).Some?
    ensures ParseOrigin(a + "," + b + "," + c, parse)
            == Ok(Geo(parse(Trim(a)).value, parse(Trim(b)).value, parse(Trim(c)).value))
  {
    SplitThree(a, b, c);
  }

  lemma SplitThree(a: string, b: string, c: string)
    requires ',' !in a && ',' !in b && ',' !in c
    ensures Split(a + "," + b + "," + c, ',') == [a, b, c]
  {
    JoinThree(a, b, c, [',']);
    SplitJoin([a, b, c], ',');
  }

  /** `normalize_path(topic).trim_end_matches('/')`: the prefix of every
    * entry of a GPS topic. */
  function BasePath(topic: string): (b: string)
    ensures |b| <= |EnsureLeadingSlash(topic)| && b == EnsureLeadingSlash(topic)[..|b|]
    ensures |b| == 0 || b[|b| - 1] != '/'
    ensures forall i :: |b| <= i < |EnsureLeadingSlash(topic)| ==> EnsureLeadingSlash(topic)[i] == '/'
  {
    TrimTrailingSlashes(EnsureLeadingSlash(topic))
  }

  /** A topic that does not end in '/' keeps all of its characters, behind
    * one leading '/'. */
  lemma BasePathKeepsTopic(topic: string)
    requires |topic| > 0 && topic[|topic| - 1] != '/'
    ensures BasePath(topic) == EnsureLeadingSlash(topic)
    ensures StartsWith(BasePath(topic), '/')
  {
    var n := EnsureLeadingSlash(topic);
    assert n[|n| - 1] == topic[|topic| - 1];
  }

  // ---------------------------------------------------------------------
  // navsatfix_to_rerun and the GPS state
  // ---------------------------------------------------------------------

  /** The `f32` east/north/up point `wgs84_to_enu` computes for `point`
    * relative to `origin`. */
  datatype EnuPoint = EnuOf(point: Geo, origin: Geo)

  /** The entries `navsatfix_to_rerun` logs. */
  datatype GpsLog =
    | Points(path: string, point: EnuPoint)
    | StatusScalar(path: string, status: int)
    | ServiceText(path: string, text: string)
    | PathStrip(path: string, points: seq<EnuPoint>)

  /** The two fields of the GPS state, as values. */
  datatype GpsSnapshot = GpsSnapshot(origin: Option<Geo>, pathPoints: seq<EnuPoint>)

  /** The entries for an accepted fix, in logging order: the point, the
    * status, the service names when there are any, and the whole path when
    * it is kept. */
  function FixLogs(topic: string, f: NavSatFix, pt: EnuPoint, gpsPath: bool, path: seq<EnuPoint>): seq<GpsLog>
  {
    var base := BasePath(topic);
    var names := ServiceNames(f.service);
    [Points(base + "/points", pt), StatusScalar(base + "/status", f.status)]
    + (if names != "" then [ServiceText(base + "/service", names)] else [])
    + (if gpsPath then [PathStrip(base + "/path", path)] else [])
  }

  /** The origin an accepted fix is converted against: the one already set,
    * else the parsed origin string, else the fix's own position. */
  function OriginFor(current: Option<Geo>, f: NavSatFix, gpsOrigin: Option<string>, parse: string -> Option<F64>): (r: Result<Geo>)
    ensures current.Some? ==> r == Ok(current.value)
    ensures current.None? && gpsOrigin.None? ==> r == Ok(Position(f))
    ensures current.None? && gpsOrigin.Some? ==> r == ParseOrigin(gpsOrigin.value, parse)
  {
    if current.Some? then Ok(current.value)
    else if gpsOrigin.Some? then ParseOrigin(gpsOrigin.value, parse)
    else Ok(Position(f))
  }

  /** One call of `navsatfix_to_rerun` on the state `s`: what it returns
    * (the entries logged, or the error) and the state it leaves. */
  function FixStep(s: GpsSnapshot, topic: string, payload: Bytes, gpsOrigin: Option<string>, gpsPath: bool,
                   parse: string -> Option<F64>): (Result<seq<GpsLog>>, GpsSnapshot)
  {
    var fix := FixOf(payload);
    if fix.Err? then (Err(fix.error), s)
    else if fix.value.status < 0 then (Ok([]), s)
    else
      var origin := OriginFor(s.origin, fix.value, gpsOrigin, parse);
      if origin.Err? then (Err(origin.error), s)
      else
        var pt := EnuOf(Position(fix.value), origin.value);
        var path := if gpsPath then s.pathPoints + [pt] else s.pathPoints;
        (Ok(FixLogs(topic, fix.value, pt, gpsPath, path)), GpsSnapshot(Some(origin.value), path))
  }

  /** A fix that is accepted: it decodes, its status is not negative and
    * an origin is available for it. */
  predicate Accepted(s: GpsSnapshot, payload: Bytes, gpsOrigin: Option<string>, parse: string -> Option<F64>)
  {
    FixOf(payload).Ok? && FixOf(payload).value.status >= 0
    && OriginFor(s.origin, FixOf(payload).value, gpsOrigin, parse).Ok?
  }

  /** A fix that is not accepted leaves the state as it was; a negative
    * status is not an error and logs nothing. */
  lemma RejectedKeepsState(s: GpsSnapshot, topic: string, payload: Bytes, gpsOrigin: Option<string>, gpsPath: bool,
                           parse: string -> Option<F64>)
    requires !Accepted(s, payload, gpsOrigin, parse)
    ensures FixStep(s, topic, payload, gpsOrigin, gpsPath, parse).1 == s
    ensures FixOf(payload).Ok? && FixOf(payload).value.status < 0
            ==> FixStep(s, topic, payload, gpsOrigin, gpsPath, parse).0 == Ok([])
    ensures FixOf(payload).Err? ==> FixStep(s, topic, payload, gpsOrigin, gpsPath, parse).0 == Err(Truncated)
  {
  }

  /** An accepted fix sets the origin if it was unset, and otherwise keeps
    * it; the path grows by the new point exactly when it is kept; the
    * first entry is that point and, when the path is kept, the last entry
    * is the whole path, ending with it. */
  lemma AcceptedStep(s: GpsSnapshot, topic: string, payload: Bytes, gpsOrigin: Option<string>, gpsPath: bool,
                     parse: string -> Option<F64>)
    requires Accepted(s, payload, gpsOrigin, parse)
    ensures var (r, t) := FixStep(s, topic, payload, gpsOrigin, gpsPath, parse);
            var f := FixOf(payload).value;
            && t.origin.Some?
            && (s.origin.Some? ==> t.origin == s.origin)
            && (s.origin.None? && gpsOrigin.None? ==> t.origin == Some(Position(f)))
            && (s.origin.None? && gpsOrigin.Some? ==> Ok(t.origin.value) == ParseOrigin(gpsOrigin.value, parse))
            && t.pathPoints == s.pathPoints + (if gpsPath then [EnuOf(Position(f), t.origin.value)] else [])
            && r.Ok? && |r.value| >= 2
            && r.value[0] == Points(BasePath(topic) + "/points", EnuOf(Position(f), t.origin.value))
            && r.value[1] == StatusScalar(BasePath(topic) + "/status", f.status)
            && (gpsPath ==> r.value[|r.value| - 1] == PathStrip(BasePath(topic) + "/path", t.pathPoints))
            && (ServiceNames(f.service) != "" <==> ServiceText(BasePath(topic) + "/service", ServiceNames(f.service)) in r.value)
  {
  }

  /** A sequence of calls, one per fix, each with its own arguments. */
  datatype FixCall = FixCall(topic: string, payload: Bytes, gpsOrigin: Option<string>, gpsPath: bool)

  function Steps(s: GpsSnapshot, calls: seq<FixCall>, parse: string -> Option<F64>): GpsSnapshot
    decreases |calls|
  {
    if |calls| == 0 then s
    else
      var c := calls[0];
      Steps(FixStep(s, c.topic, c.payload, c.gpsOrigin, c.gpsPath, parse).1, calls[1..], parse)
  }

  /** Once set, the origin never changes. */
  lemma {:induction false} OriginStable(s: GpsSnapshot, calls: seq<FixCall>, parse: string -> Option<F64>)
    requires s.origin.Some?
    ensures Steps(s, calls, parse).origin == s.origin
    decreases |calls|
  {
    if |calls| > 0 {
      var c := calls[0];
      var t := FixStep(s, c.topic, c.payload, c.gpsOrigin, c.gpsPath, parse).1;
      if Accepted(s, c.payload, c.gpsOrigin, parse) {
        AcceptedStep(s, c.topic, c.payload, c.gpsOrigin, c.gpsPath, parse);
      } else {
        RejectedKeepsState(s, c.topic, c.payload, c.gpsOrigin, c.gpsPath, parse);
      }
      OriginStable(t, calls[1..], parse);
    }
  }

  /** The path is append-only, and grows by at most one point per call. */
  lemma {:induction false} PathAppendOnly(s: GpsSnapshot, calls: seq<FixCall>, parse: string -> Option<F64>)
    ensures s.pathPoints <= Steps(s, calls, parse).pathPoints
    ensures |Steps(s, calls, parse).pathPoints| <= |s.pathPoints| + |calls|
    decreases |calls|
  {
    if |calls| > 0 {
      var c := calls[0];
      var t := FixStep(s, c.topic, c.payload, c.gpsOrigin, c.gpsPath, parse).1;
      if Accepted(s, c.payload, c.gpsOrigin, parse) {
        AcceptedStep(s, c.topic, c.payload, c.gpsOrigin, c.gpsPath, parse);
      } else {
        RejectedKeepsState(s, c.topic, c.payload, c.gpsOrigin, c.gpsPath, parse);
      }
      PathAppendOnly(t, calls[1..], parse);
    }
  }

  /** The process-wide `GpsState` behind its mutex. */
  class GpsState {
    var origin: Option<Geo>
    var pathPoints: seq<EnuPoint>

    function Snapshot(): GpsSnapshot
      reads this
    {
      GpsSnapshot(origin, pathPoints)
    }

    /** `GpsState::default()`. */
    constructor ()
      ensures origin == None && pathPoints == []
    {
      origin := None;
      pathPoints := [];
    }

    /** `navsatfix_to_rerun` without its geoid correction: decode, skip a
      * negative status, set the origin if unset, convert, log, and push
      * onto the path when it is kept. */
    method NavSatFixToRerun(topic: string, payload: Bytes, gpsOrigin: Option<string>, gpsPath: bool,
                            parse: string -> Option<F64>) returns (r: Result<seq<GpsLog>>)
      modifies this
      ensures (r, Snapshot()) == FixStep(old(Snapshot()), topic, payload, gpsOrigin, gpsPath, parse)
    {
      ghost var s0 := Snapshot();
      var fix := ParseNavSatFix(payload);
      if fix.Err? { return Err(fix.error); }
      var f := fix.value;
      if f.status < 0 { return Ok([]); }
      ghost var o0 := OriginFor(s0.origin, f, gpsOrigin, parse);
      if origin.None? {
        var o: Geo;
        if gpsOrigin.Some? {
          var parsed := ParseOrigin(gpsOrigin.value, parse);
          if parsed.Err? { return Err(parsed.error); }
          o := parsed.value;
        } else {
          o := Position(f);
        }
        origin := Some(o);
      }
      assert o0 == Ok(origin.value);
      var pt := EnuOf(Position(f), origin.value);
      var base := BasePath(topic);
      var logs := [Points(base + "/points", pt), StatusScalar(base + "/status", f.status)];
      var names := GetServiceNames(f.service);
      if names != "" {
        logs := logs + [ServiceText(base + "/service", names)];
      }
      if gpsPath {
        pathPoints := pathPoints + [pt];
        logs := logs + [PathStrip(base + "/path", pathPoints)];
      }
      assert pathPoints == if gpsPath then s0.pathPoints + [pt] else s0.pathPoints;
      assert logs == FixLogs(topic, f, pt, gpsPath, pathPoints);
      r := Ok(logs);
    }
  }
}
