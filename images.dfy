/**
 * The image mappings: the `sensor_msgs/Image` and
 * `sensor_msgs/CompressedImage` decoders, the pixel-format rewrites that turn
 * an image into 24-bit RGB before logging, and the choice of decoder for a
 * compressed image.  Decoding PNG and JPEG data belongs to an image library
 * and is not modelled: a compressed image ends in the decoding job it would
 * hand over.
 */
module Images {
  import opened Options
  import opened Wire
  import opened Strings

  /** What `parse_ros_image` returns: width, height, encoding and the pixel
    * bytes. */
  datatype RosImage = RosImage(width: nat, height: nat, encoding: string, data: Bytes)

  /** The largest accepted width or height. */
  const MAX_DIM: nat := 10000

  // ---------------------------------------------------------------------
  // sensor_msgs/Image
  // ---------------------------------------------------------------------

  /** The `sensor_msgs/Image` layout as `parse_ros_image` reads it: header
    * (seq, stamp, frame id), height, width, encoding, is_bigendian, step and
    * the length-prefixed data.  Every read and slice is bounds-checked, and
    * consecutive checks that give the same error are taken together; the
    * dimensions are checked only after the data slice. */
  function ImageOf(p: Bytes): Result<RosImage>
  {
    if |p| < 16 then Err(Truncated)
    else
      var f := StringEnd(p, 12);
      if |p| < f + 12 then Err(Truncated)
      else
        var e := StringEnd(p, f + 8);
        if |p| < e + 9 then Err(Truncated)
        else
          var d := StringEnd(p, e + 5);
          if |p| < d then Err(Truncated)
          else
            var height, width := U32At(p, f), U32At(p, f + 4);
            if height == 0 || width == 0 || height > MAX_DIM || width > MAX_DIM then Err(Invalid("image dimensions"))
            else Ok(RosImage(width, height, Text(p[f + 12..e]), p[e + 9..d]))
  }

  /** A decoded image has dimensions in range and exactly as many data bytes
    * as its length field says. */
  lemma ImageShape(p: Bytes)
    ensures ImageOf(p).Ok? ==>
      var f := StringEnd(p, 12);
      var e := StringEnd(p, f + 8);
      var img := ImageOf(p).value;
      1 <= img.width <= MAX_DIM && 1 <= img.height <= MAX_DIM
      && |img.data| == U32At(p, e + 5)
      && img.data == p[e + 9..e + 9 + |img.data|]
  {
  }

  /** `parse_ros_image`, one checked read after the other. */
  method ParseRosImage(p: Bytes) returns (r: Result<RosImage>)
    ensures r == ImageOf(p)
  {
    var cursor := 0;
    if |p| < cursor + 4 { return Err(Truncated); }
    cursor := cursor + 4;
    if |p| < cursor + 8 { return Err(Truncated); }
    cursor := cursor + 8;
    if |p| < cursor + 4 { return Err(Truncated); }
    var frameLen := U32At(p, cursor);
    cursor := cursor + 4;
    if |p| < cursor + frameLen { return Err(Truncated); }
    cursor := cursor + frameLen;
    if |p| < cursor + 4 { return Err(Truncated); }
    var height := U32At(p, cursor);
    cursor := cursor + 4;
    if |p| < cursor + 4 { return Err(Truncated); }
    var width := U32At(p, cursor);
    cursor := cursor + 4;
    if |p| < cursor + 4 { return Err(Truncated); }
    var encodingLen := U32At(p, cursor);
    cursor := cursor + 4;
    if |p| < cursor + encodingLen { return Err(Truncated); }
    var encoding := Text(p[cursor..cursor + encodingLen]);
    cursor := cursor + encodingLen;
    if |p| < cursor + 1 { return Err(Truncated); }
    cursor := cursor + 1;
    if |p| < cursor + 4 { return Err(Truncated); }
    cursor := cursor + 4;
    if |p| < cursor + 4 { return Err(Truncated); }
    var dataLen := U32At(p, cursor);
    cursor := cursor + 4;
    if |p| < cursor + dataLen { return Err(Truncated); }
    var data := p[cursor..cursor + dataLen];
    if height == 0 || width == 0 || height > MAX_DIM || width > MAX_DIM {
      return Err(Invalid("image dimensions"));
    }
    r := Ok(RosImage(width, height, encoding, data));
  }

  /** An image message as the ROS1 serialisation writes it, with seq and
    * stamp 0. */
  function ImagePayload(frame: Bytes, height: nat, width: nat, encoding: Bytes,
                        bigEndian: Byte, step: nat, data: Bytes): (b: Bytes)
    requires |frame| < TWO_32 && |encoding| < TWO_32 && |data| < TWO_32
    requires height < TWO_32 && width < TWO_32 && step < TWO_32
    ensures |b| == 37 + |frame| + |encoding| + |data|
  {
    U32Le(0) + U32Le(0) + U32Le(0) + Str(frame) + U32Le(height) + U32Le(width)
    + Str(encoding) + [bigEndian] + U32Le(step) + Str(data)
  }

  /** Where the fields of an encoded image lie, followed by any bytes. */
  lemma ImageLayout(frame: Bytes, height: nat, width: nat, encoding: Bytes,
                    bigEndian: Byte, step: nat, data: Bytes, rest: Bytes)
    requires |frame| < TWO_32 && |encoding| < TWO_32 && |data| < TWO_32
    requires height < TWO_32 && width < TWO_32 && step < TWO_32
    ensures var p := ImagePayload(frame, height, width, encoding, bigEndian, step, data) + rest;
            var f := 16 + |frame|;
            var e := f + 12 + |encoding|;
            U32At(p, 12) == |frame| && U32At(p, f) == height && U32At(p, f + 4) == width
            && U32At(p, f + 8) == |encoding| && U32At(p, e + 5) == |data|
            && p[f + 12..e] == encoding && p[e + 9..e + 9 + |data|] == data
  {
    var a0 := U32Le(0) + U32Le(0) + U32Le(0);
    var p1 := a0 + Str(frame);
    var p2 := p1 + U32Le(height);
    var p3 := p2 + U32Le(width);
    var p4 := p3 + Str(encoding);
    var p5 := p4 + [bigEndian];
    var p6 := p5 + U32Le(step);
    var p7 := p6 + Str(data);
    var e := |p4| + 5;
    StrEnd(a0, frame);
    U32AtEnd(p1, height);
    U32AtEnd(p2, width);
    StrEnd(p3, encoding);
    StrEnd(p6, data);
    U32AtLeft(p1, U32Le(height), 12);
    U32AtLeft(p2, U32Le(width), 12);
    U32AtLeft(p2, U32Le(width), |p1|);
    U32AtLeft(p3, Str(encoding), 12);
    U32AtLeft(p3, Str(encoding), |p1|);
    U32AtLeft(p3, Str(encoding), |p2|);
    U32AtLeft(p4, [bigEndian], 12);
    U32AtLeft(p4, [bigEndian], |p1|);
    U32AtLeft(p4, [bigEndian], |p2|);
    U32AtLeft(p4, [bigEndian], |p3|);
    SliceLeft(p4, [bigEndian], |p3| + 4, |p4|);
    U32AtLeft(p5, U32Le(step), 12);
    U32AtLeft(p5, U32Le(step), |p1|);
    U32AtLeft(p5, U32Le(step), |p2|);
    U32AtLeft(p5, U32Le(step), |p3|);
    SliceLeft(p5, U32Le(step), |p3| + 4, |p4|);
    U32AtLeft(p6, Str(data), 12);
    U32AtLeft(p6, Str(data), |p1|);
    U32AtLeft(p6, Str(data), |p2|);
    U32AtLeft(p6, Str(data), |p3|);
    SliceLeft(p6, Str(data), |p3| + 4, |p4|);
    U32AtLeft(p7, rest, 12);
    U32AtLeft(p7, rest, |p1|);
    U32AtLeft(p7, rest, |p2|);
    U32AtLeft(p7, rest, |p3|);
    U32AtLeft(p7, rest, |p6|);
    SliceLeft(p7, rest, |p3| + 4, |p4|);
    SliceLeft(p7, rest, |p6| + 4, |p7|);
  }

  /** An encoded image decodes to its width, height, encoding and data
    * whatever follows it, unless a dimension is out of range. */
  lemma ImageRoundTrip(frame: Bytes, height: nat, width: nat, encoding: Bytes,
                       bigEndian: Byte, step: nat, data: Bytes, rest: Bytes)
    requires |frame| < TWO_32 && |encoding| < TWO_32 && |data| < TWO_32
    requires height < TWO_32 && width < TWO_32 && step < TWO_32
    ensures ImageOf(ImagePayload(frame, height, width, encoding, bigEndian, step, data) + rest)
            == if 1 <= height <= MAX_DIM && 1 <= width <= MAX_DIM
               then Ok(RosImage(width, height, Text(encoding), data))
               else Err(Invalid("image dimensions"))
  {
    ImageLayout(frame, height, width, encoding, bigEndian, step, data, rest);
  }

  /** Every proper prefix of an encoded image is too short: the error is a
    * failed length check, never the dimension check. */
  lemma TruncatedImageFails(frame: Bytes, height: nat, width: nat, encoding: Bytes,
                            bigEndian: Byte, step: nat, data: Bytes, n: nat)
    requires |frame| < TWO_32 && |encoding| < TWO_32 && |data| < TWO_32
    requires height < TWO_32 && width < TWO_32 && step < TWO_32
    requires n < |ImagePayload(frame, height, width, encoding, bigEndian, step, data)|
    ensures ImageOf(ImagePayload(frame, height, width, encoding, bigEndian, step, data)[..n]) == Err(Truncated)
  {
    var p := ImagePayload(frame, height, width, encoding, bigEndian, step, data);
    var q := p[..n];
    ImageLayout(frame, height, width, encoding, bigEndian, step, data, []);
    assert p + [] == p;
    var f := 16 + |frame|;
    var e := f + 12 + |encoding|;
    if n >= 16 {
      U32AtPrefix(p, n, 12);
      if n >= f + 12 {
        U32AtPrefix(p, n, f + 8);
        if n >= e + 9 {
          U32AtPrefix(p, n, e + 5);
        }
      }
    }
  }

  // ---------------------------------------------------------------------
  // Pixel formats
  // ---------------------------------------------------------------------

  /** Whether byte `i` of a BGR buffer lies in a complete 3-byte pixel. */
  predicate InFullPixel(n: nat, i: nat)
  {
    i + 3 - i % 3 <= n
  }

  /** bgr8 to rgb24: in every complete pixel the first and third bytes trade
    * places; a trailing partial pixel stays as it is. */
  function BgrToRgb(s: Bytes): (r: Bytes)
    ensures |r| == |s|
  {
    seq(|s|, i requires 0 <= i < |s| =>
      if !InFullPixel(|s|, i) then s[i]
      else if i % 3 == 0 then s[i + 2]
      else if i % 3 == 2 then s[i - 2]
      else s[i])
  }

  /** Pixel by pixel: blue and red trade places, green stays, and bytes
    * after the last complete pixel are untouched. */
  lemma BgrPixels(s: Bytes)
    ensures forall k :: 0 <= k && 3 * k + 3 <= |s| ==>
      BgrToRgb(s)[3 * k] == s[3 * k + 2] && BgrToRgb(s)[3 * k + 1] == s[3 * k + 1]
      && BgrToRgb(s)[3 * k + 2] == s[3 * k]
    ensures forall i :: 0 <= i < |s| && !InFullPixel(|s|, i) ==> BgrToRgb(s)[i] == s[i]
  {
  }

  /** Swapping twice gives the buffer back. */
  lemma BgrInvolution(s: Bytes)
    ensures BgrToRgb(BgrToRgb(s)) == s
  {
    var r := BgrToRgb(s);
    assert forall i :: 0 <= i < |s| ==> BgrToRgb(r)[i] == s[i];
  }

  /** The first `k` pixels swapped, the rest as given. */
  function SwappedUpTo(s: Bytes, k: nat): (r: Bytes)
    ensures |r| == |s|
  {
    seq(|s|, i requires 0 <= i < |s| =>
      if i >= 3 * k || !InFullPixel(|s|, i) then s[i]
      else if i % 3 == 0 then s[i + 2]
      else if i % 3 == 2 then s[i - 2]
      else s[i])
  }

  /** Swapping the ends of pixel k extends the swapped part by one pixel. */
  lemma SwapStep(s: Bytes, k: nat)
    requires 3 * k + 3 <= |s|
    ensures var b := SwappedUpTo(s, k);
      b[3 * k := b[3 * k + 2]][3 * k + 2 := b[3 * k]] == SwappedUpTo(s, k + 1)
  {
    var b := SwappedUpTo(s, k);
    var c := b[3 * k := b[3 * k + 2]][3 * k + 2 := b[3 * k]];
    assert forall j :: 0 <= j < |s| ==> c[j] == SwappedUpTo(s, k + 1)[j];
  }

  /** Once no complete pixel is left, the swapped part is the whole result. */
  lemma SwapDone(s: Bytes, k: nat)
    requires 3 * k <= |s| < 3 * k + 3
    ensures SwappedUpTo(s, k) == BgrToRgb(s)
  {
    assert forall j :: 0 <= j < |s| ==> SwappedUpTo(s, k)[j] == BgrToRgb(s)[j];
  }

  /** `for px in buf.chunks_exact_mut(3) { px.swap(0, 2) }` on the buffer. */
  method SwapBgr(buf: array<Byte>)
    modifies buf
    ensures buf[..] == BgrToRgb(old(buf[..]))
  {
    ghost var s := buf[..];
    var k := 0;
    while 3 * k + 3 <= buf.Length
      invariant 3 * k <= buf.Length
      invariant buf[..] == SwappedUpTo(s, k)
      decreases buf.Length - 3 * k
    {
      ghost var before := buf[..];
      var i := 3 * k;
      buf[i], buf[i + 2] := buf[i + 2], buf[i];
      assert buf[..] == before[i := before[i + 2]][i + 2 := before[i]];
      SwapStep(s, k);
      k := k + 1;
    }
    SwapDone(s, k);
  }

  /** rgba8 to rgb24: the first three bytes of every complete 4-byte pixel. */
  function RgbaToRgb(s: Bytes): Bytes
  {
    if |s| < 4 then [] else s[..3] + RgbaToRgb(s[4..])
  }

  lemma {:induction false} RgbaPixels(s: Bytes)
    ensures |RgbaToRgb(s)| == 3 * (|s| / 4)
    ensures forall i :: 0 <= i < |RgbaToRgb(s)| ==> RgbaToRgb(s)[i] == s[4 * (i / 3) + i % 3]
    decreases |s|
  {
    if |s| >= 4 {
      RgbaPixels(s[4..]);
      assert |s[4..]| / 4 == |s| / 4 - 1;
      var r := RgbaToRgb(s);
      forall i | 3 <= i < |r|
        ensures r[i] == s[4 * (i / 3) + i % 3]
      {
        assert r[i] == RgbaToRgb(s[4..])[i - 3];
        assert (i - 3) / 3 == i / 3 - 1 && (i - 3) % 3 == i % 3;
      }
    }
  }

  /** mono8 to rgb24: every gray byte three times. */
  function Mono8ToRgb(s: Bytes): Bytes
  {
    if |s| == 0 then [] else [s[0], s[0], s[0]] + Mono8ToRgb(s[1..])
  }

  lemma {:induction false} Mono8Pixels(s: Bytes)
    ensures |Mono8ToRgb(s)| == 3 * |s|
    ensures forall i :: 0 <= i < |Mono8ToRgb(s)| ==> Mono8ToRgb(s)[i] == s[i / 3]
    decreases |s|
  {
    if |s| > 0 {
      Mono8Pixels(s[1..]);
      var r := Mono8ToRgb(s);
      forall i | 3 <= i < |r|
        ensures r[i] == s[i / 3]
      {
        assert r[i] == Mono8ToRgb(s[1..])[i - 3];
        assert (i - 3) / 3 == i / 3 - 1;
      }
    }
  }

  /** mono16 to rgb24: each little-endian pair shifted right by 8 bits, three
    * times. */
  function Mono16ToRgb(s: Bytes): Bytes
  {
    if |s| < 2 then []
    else
      var gray := U16At(s, 0) / 0x100;
      [gray, gray, gray] + Mono16ToRgb(s[2..])
  }

  /** The gray value of a pair is its second (high) byte. */
  lemma {:induction false} Mono16Pixels(s: Bytes)
    ensures |Mono16ToRgb(s)| == 3 * (|s| / 2)
    ensures forall i :: 0 <= i < |Mono16ToRgb(s)| ==> Mono16ToRgb(s)[i] == s[2 * (i / 3) + 1]
    decreases |s|
  {
    if |s| >= 2 {
      Mono16Pixels(s[2..]);
      assert |s[2..]| / 2 == |s| / 2 - 1;
      assert U16At(s, 0) / 0x100 == s[1];
      var r := Mono16ToRgb(s);
      forall i | 3 <= i < |r|
        ensures r[i] == s[2 * (i / 3) + 1]
      {
        assert r[i] == Mono16ToRgb(s[2..])[i - 3];
        assert (i - 3) / 3 == i / 3 - 1;
      }
    }
  }

  /** The rgba8 loop, extending the output by one pixel at a time. */
  method RgbaLoop(data: Bytes) returns (rgb: Bytes)
    ensures rgb == RgbaToRgb(data)
  {
    rgb := [];
    var i := 0;
    while i + 4 <= |data|
      invariant i <= |data|
      invariant rgb + RgbaToRgb(data[i..]) == RgbaToRgb(data)
      decreases |data| - i
    {
      assert data[i..][4..] == data[i + 4..];
      assert data[i..][..3] == data[i..i + 3];
      rgb := rgb + data[i..i + 3];
      i := i + 4;
    }
    assert rgb + [] == rgb;
  }

  /** The mono8 loop. */
  method Mono8Loop(data: Bytes) returns (rgb: Bytes)
    ensures rgb == Mono8ToRgb(data)
  {
    rgb := [];
    var i := 0;
    while i < |data|
      invariant i <= |data|
      invariant rgb + Mono8ToRgb(data[i..]) == Mono8ToRgb(data)
    {
      assert data[i..][1..] == data[i + 1..];
      var gray := data[i];
      rgb := rgb + [gray, gray, gray];
      i := i + 1;
    }
    assert rgb + [] == rgb;
  }

  /** The mono16 loop. */
  method Mono16Loop(data: Bytes) returns (rgb: Bytes)
    ensures rgb == Mono16ToRgb(data)
  {
    rgb := [];
    var i := 0;
    while i + 2 <= |data|
      invariant i <= |data|
      invariant rgb + Mono16ToRgb(data[i..]) == Mono16ToRgb(data)
      decreases |data| - i
    {
      assert data[i..][2..] == data[i + 2..];
      var gray := U16At(data, i) / 0x100;
      assert gray == U16At(data[i..], 0) / 0x100;
      rgb := rgb + [gray, gray, gray];
      i := i + 2;
    }
    assert rgb + [] == rgb;
  }

  // ---------------------------------------------------------------------
  // image_to_rerun
  // ---------------------------------------------------------------------

  /** An `Image::from_rgb24` logged at an entity path. */
  datatype ImageLog = ImageLog(path: string, width: nat, height: nat, rgb: Bytes)

  /** The encodings that are logged. */
  predicate Supported(encoding: string)
  {
    encoding in ["rgb8", "bgr8", "rgba8", "mono8", "mono16"]
  }

  /** The RGB bytes handed to the sink for a supported encoding. */
  function RgbOf(encoding: string, data: Bytes): Bytes
    requires Supported(encoding)
  {
    if encoding == "rgb8" then data
    else if encoding == "bgr8" then BgrToRgb(data)
    else if encoding == "rgba8" then RgbaToRgb(data)
    else if encoding == "mono8" then Mono8ToRgb(data)
    else Mono16ToRgb(data)
  }

  /** What `image_to_rerun` logs: nothing when the message does not decode
    * or its encoding is not one of the five, otherwise one image at the
    * topic with a leading '/'.  It never reports an error for the payload. */
  function ImageEntry(topic: string, payload: Bytes): (r: Option<ImageLog>)
    ensures r.Some? <==> ImageOf(payload).Ok? && Supported(ImageOf(payload).value.encoding)
    ensures r.Some? ==>
      var img := ImageOf(payload).value;
      r.value == ImageLog(EnsureLeadingSlash(topic), img.width, img.height, RgbOf(img.encoding, img.data))
  {
    match ImageOf(payload)
    case Err(_) => None
    case Ok(img) =>
      if Supported(img.encoding) then
        Some(ImageLog(EnsureLeadingSlash(topic), img.width, img.height, RgbOf(img.encoding, img.data)))
      else None
  }

  /** The RGB buffer of each supported encoding has the length its layout
    * implies. */
  lemma RgbLength(encoding: string, data: Bytes)
    requires Supported(encoding)
    ensures encoding == "rgb8" || encoding == "bgr8" ==> |RgbOf(encoding, data)| == |data|
    ensures encoding == "rgba8" ==> |RgbOf(encoding, data)| == 3 * (|data| / 4)
    ensures encoding == "mono8" ==> |RgbOf(encoding, data)| == 3 * |data|
    ensures encoding == "mono16" ==> |RgbOf(encoding, data)| == 3 * (|data| / 2)
  {
    RgbaPixels(data);
    Mono8Pixels(data);
    Mono16Pixels(data);
  }

  /** `image_to_rerun`: decode, then convert by encoding; bgr8 is swapped in
    * a copy of the data buffer. */
  method ImageToRerun(topic: string, payload: Bytes) returns (entry: Option<ImageLog>)
    ensures entry == ImageEntry(topic, payload)
  {
    var parsed := ParseRosImage(payload);
    if parsed.Err? {
      return None;
    }
    var img := parsed.value;
    var path := EnsureLeadingSlash(topic);
    var rgb: Bytes;
    if img.encoding == "rgb8" {
      rgb := img.data;
    } else if img.encoding == "bgr8" {
      var buf := new Byte[|img.data|](i requires 0 <= i < |img.data| => img.data[i]);
      assert buf[..] == img.data;
      SwapBgr(buf);
      rgb := buf[..];
    } else if img.encoding == "rgba8" {
      rgb := RgbaLoop(img.data);
    } else if img.encoding == "mono8" {
      rgb := Mono8Loop(img.data);
    } else if img.encoding == "mono16" {
      rgb := Mono16Loop(img.data);
    } else {
      return None;
    }
    entry := Some(ImageLog(path, img.width, img.height, rgb));
  }

  // ---------------------------------------------------------------------
  // sensor_msgs/CompressedImage
  // ---------------------------------------------------------------------

  /** `parse_ros_compressed`: a length-prefixed format string at the very
    * start of the payload, then everything after it as the image data,
    * which must not be empty. */
  function CompressedOf(p: Bytes): Result<(string, Bytes)>
  {
    if |p| < 4 then Err(Truncated)
    else
      var e := StringEnd(p, 0);
      if |p| < e then Err(Truncated)
      else if e >= |p| then Err(Invalid("no data found"))
      else Ok((Text(p[4..e]), p[e..]))
  }

  method ParseRosCompressed(p: Bytes) returns (r: Result<(string, Bytes)>)
    ensures r == CompressedOf(p)
  {
    var cursor := 0;
    if |p| < 4 { return Err(Truncated); }
    var formatLen := U32At(p, 0);
    cursor := cursor + 4;
    if |p| < cursor + formatLen { return Err(Truncated); }
    var format := Text(p[cursor..cursor + formatLen]);
    cursor := cursor + formatLen;
    if cursor >= |p| { return Err(Invalid("no data found")); }
    r := Ok((format, p[cursor..]));
  }

  /** A format string followed by data decodes back to the two; without data
    * it is refused; and a cut inside the format string is too short. */
  lemma CompressedRoundTrip(format: Bytes, data: Bytes)
    requires |format| < TWO_32
    ensures CompressedOf(Str(format) + data)
            == if |data| > 0 then Ok((Text(format), data)) else Err(Invalid("no data found"))
    ensures forall n: nat :: n < 4 + |format| ==> CompressedOf((Str(format) + data)[..n]) == Err(Truncated)
  {
    var p := Str(format) + data;
    assert p[..4] == U32Le(|format|);
    U32FromSlice(p, 0, |format|);
    assert p[4..4 + |format|] == format;
    assert p[4 + |format|..] == data;
    forall n: nat | n < 4 + |format|
      ensures CompressedOf(p[..n]) == Err(Truncated)
    {
      if n >= 4 {
        U32AtPrefix(p, n, 0);
      }
    }
  }

  datatype ImageFormat = Png | Jpeg

  /** The decoder `compressed_to_rerun` chooses: "png" anywhere in the
    * lowercased format wins over "jpg" and "jpeg"; anything else is
    * skipped. */
  function FormatOf(format: string): (r: Option<ImageFormat>)
    ensures r == Some(Png) <==> Contains(ToLower(format), "png")
    ensures r == Some(Jpeg) <==> !Contains(ToLower(format), "png")
                                  && (Contains(ToLower(format), "jpg") || Contains(ToLower(format), "jpeg"))
  {
    var lc := ToLower(format);
    if Contains(lc, "png") then Some(Png)
    else if Contains(lc, "jpg") || Contains(lc, "jpeg") then Some(Jpeg)
    else None
  }

  /** The choice ignores letter case. */
  lemma FormatIgnoresCase(format: string)
    ensures FormatOf(ToLower(format)) == FormatOf(format)
  {
    ToLowerIdempotent(format);
  }

  /** "png" anywhere wins: a format that selects PNG still selects it
    * whatever text is put around it. */
  lemma {:induction false} PngWins(pre: string, format: string, post: string)
    requires FormatOf(format) == Some(Png)
    ensures FormatOf(pre + format + post) == Some(Png)
  {
    var lf := ToLower(format);
    var big := ToLower(pre + format + post);
    var i :| 0 <= i <= |lf| - 3 && OccursAt(lf, "png", i);
    assert big[|pre| + i..|pre| + i + 3] == lf[i..i + 3] by {
      forall k | |pre| + i <= k < |pre| + i + 3
        ensures big[k] == lf[k - |pre|]
      {
        assert (pre + format + post)[k] == format[k - |pre|];
      }
    }
    assert OccursAt(big, "png", |pre| + i);
  }

  /** What `compressed_to_rerun` does before decoding: nothing for a payload
    * that does not decode or a format it does not know, otherwise the
    * decoder, the data and the entity path. */
  function CompressedJob(topic: string, payload: Bytes): (r: Option<(ImageFormat, Bytes, string)>)
    ensures r.Some? <==> CompressedOf(payload).Ok? && FormatOf(CompressedOf(payload).value.0).Some?
    ensures r.Some? ==> r.value == (FormatOf(CompressedOf(payload).value.0).value,
                                    CompressedOf(payload).value.1, EnsureLeadingSlash(topic))
  {
    match CompressedOf(payload)
    case Err(_) => None
    case Ok((format, data)) =>
      match FormatOf(format)
      case None => None
      case Some(f) => Some((f, data, EnsureLeadingSlash(topic)))
  }
}
