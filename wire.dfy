/**
 * ROS1 serialisation primitives shared by every message decoder of bag2rrd:
 * little-endian unsigned integers, IEEE-754 float bit patterns, uint32
 * length-prefixed strings, the `std_msgs/Header` skip, and the cursor
 * readers.  A Rust reader `fn read_x(payload: &[u8], cursor: &mut usize)`
 * becomes a method that takes the cursor and returns the advanced cursor.
 */
module Wire {
  import opened Options

  /** An octet; the source's `u8`. */
  type Byte = b: int | 0 <= b < 256
  type Bytes = seq<Byte>

  /** How a decoder gives up.  `Truncated` is a checked read past the end of
    * the payload (an `Err` in the source); `SlicePanic` is an unchecked slice
    * past the end (a panic in the source); `Invalid` is a value that failed a
    * validity check. */
  datatype Error = Truncated | SlicePanic | Invalid(reason: string)

  datatype Result<T> = Ok(value: T) | Err(error: Error)
  {
    predicate IsFailure() { Err? }

    function PropagateFailure<U>(): Result<U>
      requires Err?
    {
      Err(error)
    }

    function Extract(): T
      requires Ok?
    {
      value
    }
  }

  /** A reader's result paired with its cursor. */
  function Pack<T>(r: Result<T>, next: nat): Result<(T, nat)>
  {
    if r.Ok? then Ok((r.value, next)) else Err(r.error)
  }

  // ---------------------------------------------------------------------
  // Little-endian integers
  // ---------------------------------------------------------------------

  const TWO_16: nat := 0x1_0000
  const TWO_32: nat := 0x1_0000_0000

  /** `u16::from_le_bytes` of the two bytes at `i`. */
  function U16At(p: Bytes, i: nat): (n: nat)
    requires i + 2 <= |p|
    ensures n < TWO_16
  {
    p[i] as int + 0x100 * p[i + 1] as int
  }

  /** `u32::from_le_bytes` of the four bytes at `i`. */
  function U32At(p: Bytes, i: nat): (n: nat)
    requires i + 4 <= |p|
    ensures n < TWO_32
  {
    p[i] as int + 0x100 * p[i + 1] as int + 0x1_0000 * p[i + 2] as int + 0x100_0000 * p[i + 3] as int
  }

  /** `u32::to_le_bytes`, the encoder that `U32At` inverts. */
  function U32Le(n: nat): (b: Bytes)
    requires n < TWO_32
    ensures |b| == 4
  {
    [n % 0x100, n / 0x100 % 0x100,
     n / 0x1_0000 % 0x100, n / 0x100_0000]
  }

  lemma U32LeRoundTrip(n: nat)
    requires n < TWO_32
    ensures U32At(U32Le(n), 0) == n
  {
    var q1, q2, q3 := n / 0x100, n / 0x1_0000, n / 0x100_0000;
    assert n == q1 * 0x100 + n % 0x100;
    assert n == q2 * 0x1_0000 + n % 0x1_0000;
    assert q1 == q2 * 0x100 + q1 % 0x100;
    assert q2 == q3 * 0x100 + q2 % 0x100;
  }

  /** Reading a little-endian u32 inside the middle part of a concatenation
    * reads that part. */
  lemma U32AtMiddle(a: Bytes, m: Bytes, b: Bytes, j: nat)
    requires j + 4 <= |m|
    ensures U32At(a + m + b, |a| + j) == U32At(m, j)
  {
    var p := a + m + b;
    assert p[|a| + j] == m[j] && p[|a| + j + 1] == m[j + 1];
    assert p[|a| + j + 2] == m[j + 2] && p[|a| + j + 3] == m[j + 3];
  }

  /** The two ways of splitting a message around a part made of two. */
  lemma Regroup(a: Bytes, x: Bytes, y: Bytes, b: Bytes)
    ensures a + (x + y) + b == (a + x) + (y + b)
    ensures a + (x + y) + b == a + x + y + b
  {
  }

  /** A slice of the middle part of a concatenation. */
  lemma SliceMiddle(a: Bytes, m: Bytes, b: Bytes, i: nat, j: nat)
    requires i <= j <= |m|
    ensures (a + m + b)[|a| + i..|a| + j] == m[i..j]
  {
    assert forall k :: i <= k < j ==> (a + m + b)[|a| + k] == m[k];
  }

  lemma MulLess(x: int, y: int, d: int)
    requires d > 0 && x < y
    ensures x * d + d <= y * d
  {
    var k := y - x - 1;
    assert k * d >= 0;
    assert y * d == (x + k) * d + d;
    assert (x + k) * d == x * d + k * d;
  }

  /** Quotient and remainder are the unique pair with `a == q * d + r`. */
  lemma DivMod(a: int, q: int, r: int, d: int)
    requires d > 0 && 0 <= r < d && a == q * d + r
    ensures a / d == q && a % d == r
  {
    var q', r' := a / d, a % d;
    assert a == q' * d + r';
    if q' < q { MulLess(q', q, d); }
    if q < q' { MulLess(q, q', d); }
  }

  /** `u16::to_le_bytes`. */
  function U16Le(n: nat): (b: Bytes)
    requires n < TWO_16
    ensures |b| == 2
  {
    [n % 0x100, n / 0x100]
  }

  /** A uint32 length-prefixed byte string, as the ROS1 serialisation writes
    * strings and `uint8[]` arrays. */
  function Str(s: Bytes): (b: Bytes)
    requires |s| < TWO_32
    ensures |b| == 4 + |s|
  {
    U32Le(|s|) + s
  }

  /** The bytes of a message part read back from the middle of a message. */
  lemma SliceInside(a: Bytes, b: Bytes, c: Bytes)
    ensures (a + b + c)[|a|..|a| + |b|] == b
  {
    assert forall i :: 0 <= i < |b| ==> (a + b + c)[|a| + i] == b[i];
  }

  /** A message holding `b` at `c` is what comes before, `b`, and what
    * comes after. */
  lemma SliceAround(p: Bytes, c: nat, b: Bytes)
    requires c + |b| <= |p| && p[c..c + |b|] == b
    ensures p == p[..c] + b + p[c + |b|..]
  {
    assert forall i :: 0 <= i < |b| ==> b[i] == p[c + i];
  }

  /** A message holding `a + b` at `c` holds `a` at `c` and `b` after it. */
  lemma SliceParts(p: Bytes, c: nat, a: Bytes, b: Bytes)
    requires c + |a| + |b| <= |p| && p[c..c + |a| + |b|] == a + b
    ensures p[c..c + |a|] == a && p[c + |a|..c + |a| + |b|] == b
  {
    assert p[c..c + |a|] == p[c..c + |a| + |b|][..|a|];
    assert p[c + |a|..c + |a| + |b|] == p[c..c + |a| + |b|][|a|..];
  }

  /** A little-endian u32 read back from the middle of a message. */
  lemma U32Inside(a: Bytes, n: nat, c: Bytes)
    requires n < TWO_32
    ensures U32At(a + U32Le(n) + c, |a|) == n
  {
    var p := a + U32Le(n) + c;
    var b := U32Le(n);
    assert p[|a|] == b[0] && p[|a| + 1] == b[1] && p[|a| + 2] == b[2] && p[|a| + 3] == b[3];
    U32LeRoundTrip(n);
  }

  /** A u32 read from the front part of a message ignores what follows. */
  lemma U32AtLeft(x: Bytes, y: Bytes, j: nat)
    requires j + 4 <= |x|
    ensures U32At(x + y, j) == U32At(x, j)
  {
  }

  /** A slice of the front part of a message ignores what follows. */
  lemma SliceLeft(x: Bytes, y: Bytes, i: nat, j: nat)
    requires i <= j <= |x|
    ensures (x + y)[i..j] == x[i..j]
  {
  }

  /** A u32 read back from the end of a message. */
  lemma U32AtEnd(x: Bytes, n: nat)
    requires n < TWO_32
    ensures U32At(x + U32Le(n), |x|) == n
  {
    U32AtMiddle(x, U32Le(n), [], 0);
    assert x + U32Le(n) + [] == x + U32Le(n);
    U32LeRoundTrip(n);
  }

  /** A length-prefixed string read back from the end of a message. */
  lemma StrEnd(x: Bytes, t: Bytes)
    requires |t| < TWO_32
    ensures U32At(x + Str(t), |x|) == |t|
    ensures (x + Str(t))[|x| + 4..|x| + 4 + |t|] == t
  {
    U32AtLeft(x + U32Le(|t|), t, |x|);
    U32AtEnd(x, |t|);
    assert x + Str(t) == x + U32Le(|t|) + t;
    SliceMiddle(x + U32Le(|t|), t, [], 0, |t|);
    assert x + U32Le(|t|) + t + [] == x + Str(t);
  }

  /** A little-endian u16 read back from the middle of a message. */
  lemma U16Inside(a: Bytes, n: nat, c: Bytes)
    requires n < TWO_16
    ensures U16At(a + U16Le(n) + c, |a|) == n
  {
    var p := a + U16Le(n) + c;
    assert p[|a|] == n % 0x100 && p[|a| + 1] == n / 0x100;
  }

  /** The u32 whose encoding sits at `i`. */
  lemma U32FromSlice(p: Bytes, i: nat, n: nat)
    requires n < TWO_32 && i + 4 <= |p| && p[i..i + 4] == U32Le(n)
    ensures U32At(p, i) == n
  {
    U32Inside(p[..i], n, p[i + 4..]);
    assert p == p[..i] + U32Le(n) + p[i + 4..];
  }

  /** Reading inside a prefix of a message reads the message. */
  lemma U32AtPrefix(p: Bytes, n: nat, i: nat)
    requires i + 4 <= n <= |p|
    ensures U32At(p[..n], i) == U32At(p, i)
  {
    assert p[..n][i] == p[i] && p[..n][i + 1] == p[i + 1];
    assert p[..n][i + 2] == p[i + 2] && p[..n][i + 3] == p[i + 3];
  }

  /** `byte as i8`: two's complement reinterpretation. */
  function I8Of(b: Byte): (v: int)
    ensures -128 <= v < 128
    ensures v < 0 <==> b >= 128
    ensures (v + 256) % 256 == b
  {
    if b >= 128 then b - 256 else b
  }

  // ---------------------------------------------------------------------
  // IEEE-754 bit patterns
  // ---------------------------------------------------------------------

  type Bytes4 = s: Bytes | |s| == 4 witness [0, 0, 0, 0]
  type Bytes8 = s: Bytes | |s| == 8 witness [0, 0, 0, 0, 0, 0, 0, 0]

  /** An `f32` as its four little-endian bytes. */
  datatype F32 = F32(bytes: Bytes4)

  /** An `f64` as its eight little-endian bytes. */
  datatype F64 = F64(bytes: Bytes8)

  function F32At(p: Bytes, i: nat): F32
    requires i + 4 <= |p|
  {
    F32(p[i..i + 4])
  }

  function F64At(p: Bytes, i: nat): F64
    requires i + 8 <= |p|
  {
    F64(p[i..i + 8])
  }

  /** A double read from the front part of a message ignores what follows. */
  lemma F64Left(x: Bytes, y: Bytes, j: nat)
    requires j + 8 <= |x|
    ensures F64At(x + y, j) == F64At(x, j)
  {
    SliceLeft(x, y, j, j + 8);
  }

  lemma F32Inside(a: Bytes, f: F32, c: Bytes)
    ensures F32At(a + f.bytes + c, |a|) == f
  {
    SliceInside(a, f.bytes, c);
  }

  lemma F64Inside(a: Bytes, f: F64, c: Bytes)
    ensures F64At(a + f.bytes + c, |a|) == f
  {
    SliceInside(a, f.bytes, c);
  }

  /** The biased exponent field of an `f32` (bits 23..30). */
  function Exponent32(f: F32): (e: nat)
    ensures e < 256
  {
    f.bytes[3] as int % 0x80 * 2 + f.bytes[2] as int / 0x80
  }

  /** The fraction field of an `f32` (bits 0..22). */
  function Fraction32(f: F32): (m: nat)
    ensures m < 0x80_0000
  {
    f.bytes[2] as int % 0x80 * 0x1_0000 + f.bytes[1] as int * 0x100 + f.bytes[0] as int
  }

  /** The biased exponent field of an `f64` (bits 52..62). */
  function Exponent64(f: F64): (e: nat)
    ensures e < 2048
  {
    f.bytes[7] as int % 0x80 * 16 + f.bytes[6] as int / 16
  }

  /** The fraction field of an `f64` (bits 0..51). */
  function Fraction64(f: F64): (m: nat)
  {
    f.bytes[6] as int % 16 * 0x1_0000_0000_0000 + f.bytes[5] as int * 0x100_0000_0000
    + f.bytes[4] as int * 0x1_0000_0000 + f.bytes[3] as int * 0x100_0000
    + f.bytes[2] as int * 0x1_0000 + f.bytes[1] as int * 0x100 + f.bytes[0] as int
  }

  /** `f32::is_finite`: the exponent field is not all ones, read off the two
    * bytes that hold it. */
  predicate IsFinite32(f: F32)
  {
    (f.bytes[3] != 0x7F && f.bytes[3] != 0xFF) || f.bytes[2] < 0x80
  }

  lemma FiniteExponent32(f: F32)
    ensures IsFinite32(f) <==> Exponent32(f) != 255
  {
  }

  /** `f64::is_finite`: the exponent field is not all ones. */
  predicate IsFinite64(f: F64)
  {
    (f.bytes[7] != 0x7F && f.bytes[7] != 0xFF) || f.bytes[6] < 0xF0
  }

  lemma FiniteExponent64(f: F64)
    ensures IsFinite64(f) <==> Exponent64(f) != 2047
  {
  }

  /** The value a float stands for. */
  datatype FloatValue = NaN | PosInf | NegInf | Finite(v: real)

  function Pow2(n: nat): (r: nat)
    ensures r >= 1
  {
    if n == 0 then 1 else 2 * Pow2(n - 1)
  }

  lemma {:induction false} Pow2Add(a: nat, b: nat)
    ensures Pow2(a + b) == Pow2(a) * Pow2(b)
  {
    if a > 0 {
      Pow2Add(a - 1, b);
    }
  }

  /** The implicit leading bit of a normal `f64`. */
  lemma Pow2Of52()
    ensures Pow2(52) == 0x10_0000_0000_0000
  {
    assert Pow2(4) == 16;
    Pow2Add(4, 4);
    assert Pow2(8) == 0x100;
    Pow2Add(8, 8);
    assert Pow2(16) == 0x1_0000;
    Pow2Add(16, 16);
    assert Pow2(32) == 0x1_0000_0000;
    Pow2Add(32, 16);
    assert Pow2(48) == 0x1_0000_0000_0000;
    Pow2Add(48, 4);
  }

  /** The powers of two that scale small whole `f32` values. */
  lemma Pow2Small()
    ensures Pow2(20) == 0x10_0000 && Pow2(21) == 0x20_0000 && Pow2(22) == 0x40_0000
    ensures Pow2(23) == 0x80_0000 && Pow2(27) == 0x800_0000
  {
    assert Pow2(4) == 16;
    Pow2Add(4, 4);
    Pow2Add(8, 8);
    assert Pow2(16) == 0x1_0000;
    Pow2Add(16, 4);
    Pow2Add(20, 3);
    Pow2Add(23, 4);
  }

  /** `x * 2^k`. */
  function Scale(x: real, k: int): real
  {
    if k >= 0 then x * Pow2(k) as real else x / Pow2(-k) as real
  }

  /** The IEEE-754 value of an `f32`: normal numbers are
    * (2^23 + fraction) * 2^(exponent - 150), subnormals fraction * 2^-149. */
  function Value32(f: F32): (v: FloatValue)
    ensures v.Finite? <==> IsFinite32(f)
  {
    FiniteExponent32(f);
    var e := Exponent32(f);
    var m := Fraction32(f);
    var negative := f.bytes[3] >= 0x80;
    if e == 255 then
      (if m != 0 then NaN else if negative then NegInf else PosInf)
    else
      var magnitude :=
        if e == 0 then Scale(m as real, -149)
        else Scale((0x80_0000 + m) as real, e - 150);
      Finite(if negative then -magnitude else magnitude)
  }

  /** The IEEE-754 value of an `f64`, with exponent bias 1023 and a 52-bit
    * fraction. */
  function Value64(f: F64): (v: FloatValue)
    ensures v.Finite? <==> IsFinite64(f)
  {
    FiniteExponent64(f);
    var e := Exponent64(f);
    var m := Fraction64(f);
    var negative := f.bytes[7] >= 0x80;
    if e == 2047 then
      (if m != 0 then NaN else if negative then NegInf else PosInf)
    else
      var magnitude :=
        if e == 0 then Scale(m as real, -1074)
        else Scale((Pow2(52) + m) as real, e - 1075);
      Finite(if negative then -magnitude else magnitude)
  }

  /** A finite double as a real; NaN and infinities as 0. */
  function Real(f: F64): real
  {
    if Value64(f).Finite? then Value64(f).v else 0.0
  }

  const ZERO: F64 := F64([0, 0, 0, 0, 0, 0, 0, 0])
  const ONE: F64 := F64([0, 0, 0, 0, 0, 0, 0xF0, 0x3F])

  /** `f32::NAN`, the quiet NaN 0x7FC00000. */
  const NAN32: F32 := F32([0, 0, 0xC0, 0x7F])

  lemma ScaleZero(k: int)
    ensures Scale(0.0, k) == 0.0
  {
  }

  lemma ScaleUnit()
    ensures Scale(Pow2(52) as real, -52) == 1.0
  {
    Pow2Of52();
  }

  lemma ZeroValue()
    ensures Value64(ZERO) == Finite(0.0)
  {
    assert Exponent64(ZERO) == 0 && Fraction64(ZERO) == 0;
    ScaleZero(-1074);
  }

  lemma OneValue()
    ensures Value64(ONE) == Finite(1.0)
  {
    assert Exponent64(ONE) == 1023 && Fraction64(ONE) == 0;
    ScaleUnit();
  }

  lemma NanValue()
    ensures Value32(NAN32) == NaN
  {
    assert Exponent32(NAN32) == 255 && Fraction32(NAN32) != 0;
  }

  lemma ConstantValues()
    ensures Real(ZERO) == 0.0 && Real(ONE) == 1.0
    ensures Value64(ZERO) == Finite(0.0) && Value64(ONE) == Finite(1.0)
    ensures Value32(NAN32) == NaN
  {
    ZeroValue();
    OneValue();
    NanValue();
  }

  /** IEEE `a >= b`: false whenever either side is NaN. */
  predicate GreaterEq(a: FloatValue, b: FloatValue)
  {
    match (a, b)
    case (NaN, _) => false
    case (_, NaN) => false
    case (PosInf, _) => true
    case (_, NegInf) => true
    case (NegInf, _) => false
    case (_, PosInf) => false
    case (Finite(x), Finite(y)) => x >= y
  }

  // ---------------------------------------------------------------------
  // Text
  // ---------------------------------------------------------------------

  /** `String::from_utf8_lossy` on the bytes of a name, read as Latin-1:
    * exact for ASCII, one character per byte. */
  function Text(b: Bytes): (s: string)
    ensures |s| == |b|
    ensures forall i :: 0 <= i < |b| ==> s[i] as int == b[i]
  {
    seq(|b|, i requires 0 <= i < |b| => b[i] as char)
  }

  // ---------------------------------------------------------------------
  // Cursor readers
  // ---------------------------------------------------------------------

  /** `read_u8`: one byte, an error at the end of the payload. */
  method ReadU8(p: Bytes, c: nat) returns (r: Result<Byte>, next: nat)
    ensures r.Ok? <==> c + 1 <= |p|
    ensures r.Ok? ==> r.value == p[c] && next == c + 1
    ensures r.Err? ==> r.error == Truncated
  {
    if c + 1 > |p| {
      return Err(Truncated), c;
    }
    r := Ok(p[c]);
    next := c + 1;
  }

  /** `read_i8`: one byte reinterpreted as a signed value. */
  method ReadI8(p: Bytes, c: nat) returns (r: Result<int>, next: nat)
    ensures r.Ok? <==> c + 1 <= |p|
    ensures r.Ok? ==> r.value == I8Of(p[c]) && next == c + 1
    ensures r.Err? ==> r.error == Truncated
  {
    if c + 1 > |p| {
      return Err(Truncated), c;
    }
    r := Ok(I8Of(p[c]));
    next := c + 1;
  }

  /** `read_u16_le`. */
  method ReadU16(p: Bytes, c: nat) returns (r: Result<nat>, next: nat)
    ensures r.Ok? <==> c + 2 <= |p|
    ensures r.Ok? ==> r.value == U16At(p, c) && next == c + 2
    ensures r.Err? ==> r.error == Truncated
  {
    if c + 2 > |p| {
      return Err(Truncated), c;
    }
    r := Ok(U16At(p, c));
    next := c + 2;
  }

  /** `read_u32_le`. */
  method ReadU32(p: Bytes, c: nat) returns (r: Result<nat>, next: nat)
    ensures r.Ok? <==> c + 4 <= |p|
    ensures r.Ok? ==> r.value == U32At(p, c) && next == c + 4
    ensures r.Err? ==> r.error == Truncated
  {
    if c + 4 > |p| {
      return Err(Truncated), c;
    }
    r := Ok(U32At(p, c));
    next := c + 4;
  }

  /** `read_f32_le`. */
  method ReadF32(p: Bytes, c: nat) returns (r: Result<F32>, next: nat)
    ensures r.Ok? <==> c + 4 <= |p|
    ensures r.Ok? ==> r.value == F32At(p, c) && next == c + 4
    ensures r.Err? ==> r.error == Truncated
  {
    if c + 4 > |p| {
      return Err(Truncated), c;
    }
    r := Ok(F32At(p, c));
    next := c + 4;
  }

  /** `read_f64_le`. */
  method ReadF64(p: Bytes, c: nat) returns (r: Result<F64>, next: nat)
    ensures r.Ok? <==> c + 8 <= |p|
    ensures r.Ok? ==> r.value == F64At(p, c) && next == c + 8
    ensures r.Err? ==> r.error == Truncated
  {
    if c + 8 > |p| {
      return Err(Truncated), c;
    }
    r := Ok(F64At(p, c));
    next := c + 8;
  }

  /** Where a uint32 length-prefixed string starting at `c` ends. */
  function StringEnd(p: Bytes, c: nat): nat
    requires c + 4 <= |p|
  {
    c + 4 + U32At(p, c)
  }

  /** `parse_string` of the TF and navigation decoders: the length read is
    * checked, the slice is not, so a length past the end panics. */
  method ParseString(p: Bytes, c: nat) returns (r: Result<string>, next: nat)
    ensures r.Ok? <==> c + 4 <= |p| && StringEnd(p, c) <= |p|
    ensures c + 4 > |p| ==> r == Err(Truncated)
    ensures c + 4 <= |p| && StringEnd(p, c) > |p| ==> r == Err(SlicePanic)
    ensures r.Ok? ==> r.value == Text(p[c + 4..StringEnd(p, c)]) && next == StringEnd(p, c)
  {
    var len;
    len, next := ReadU32(p, c);
    if len.Err? {
      return Err(Truncated), c;
    }
    if next + len.value > |p| {
      return Err(SlicePanic), c;
    }
    r := Ok(Text(p[next..next + len.value]));
    next := next + len.value;
  }

  /** `read_string` of the point cloud decoder: both the length read and the
    * slice are checked. */
  method ReadString(p: Bytes, c: nat) returns (r: Result<string>, next: nat)
    ensures r.Ok? <==> c + 4 <= |p| && StringEnd(p, c) <= |p|
    ensures r.Err? ==> r.error == Truncated
    ensures r.Ok? ==> r.value == Text(p[c + 4..StringEnd(p, c)]) && next == StringEnd(p, c)
  {
    var len;
    len, next := ReadU32(p, c);
    if len.Err? {
      return Err(Truncated), c;
    }
    if next + len.value > |p| {
      return Err(Truncated), c;
    }
    r := Ok(Text(p[next..next + len.value]));
    next := next + len.value;
  }

  /** `skip_header`: steps over `seq` and `stamp` (12 bytes, unchecked), reads
    * the frame id length (checked) and steps over the frame id (unchecked:
    * the returned cursor may lie past the end, where the next read fails). */
  method SkipHeader(p: Bytes, c: nat) returns (r: Result<nat>)
    ensures r.Ok? <==> c + 16 <= |p|
    ensures r.Ok? ==> r.value == StringEnd(p, c + 12)
    ensures r.Err? ==> r.error == Truncated
  {
    var len, next := ReadU32(p, c + 12);
    if len.Err? {
      return Err(Truncated);
    }
    r := Ok(next + len.value);
  }
}
