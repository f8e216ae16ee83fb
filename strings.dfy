/**
 * The string operations bag2rrd applies to topics, frame names, entity paths
 * and file names: `starts_with`, `trim_start_matches`, `split_once`,
 * `contains`, ASCII lowercasing, `replace`, `join`, `split`, `trim` and
 * zero-padded decimal formatting.  Characters are compared as code points;
 * Unicode case folding and whitespace classes beyond ASCII are not modelled.
 */
module Strings {
  import opened Options

  predicate StartsWith(s: string, c: char)
  {
    |s| > 0 && s[0] == c
  }

  /** `normalize_path` of the image and GPS mappings: prepend '/' when it is
    * missing. */
  function EnsureLeadingSlash(s: string): (r: string)
    ensures StartsWith(r, '/')
    ensures StartsWith(s, '/') ==> r == s
    ensures !StartsWith(s, '/') ==> r == "/" + s
  {
    if StartsWith(s, '/') then s else "/" + s
  }

  lemma EnsureLeadingSlashIdempotent(s: string)
    ensures EnsureLeadingSlash(EnsureLeadingSlash(s)) == EnsureLeadingSlash(s)
  {
  }

  /** The number of '/' at the start of `s`. */
  function LeadingSlashes(s: string): (k: nat)
    ensures k <= |s| && !StartsWith(s[k..], '/')
    ensures forall i :: 0 <= i < k ==> s[i] == '/'
  {
    if StartsWith(s, '/') then
      var k := LeadingSlashes(s[1..]);
      assert forall i :: 1 <= i < k + 1 ==> s[i] == s[1..][i - 1];
      k + 1
    else 0
  }

  /** `trim_start_matches('/')`: drop every leading '/'. */
  function TrimLeadingSlashes(s: string): (r: string)
    ensures !StartsWith(r, '/')
    ensures |r| <= |s| && r == s[|s| - |r|..]
    ensures forall i :: 0 <= i < |s| - |r| ==> s[i] == '/'
  {
    s[LeadingSlashes(s)..]
  }

  lemma TrimLeadingSlashesIdempotent(s: string)
    ensures TrimLeadingSlashes(TrimLeadingSlashes(s)) == TrimLeadingSlashes(s)
  {
  }

  /** The length of `s` without its trailing '/'. */
  function KeptBeforeSlashes(s: string): (k: nat)
    ensures k <= |s| && (k == 0 || s[k - 1] != '/')
    ensures forall i :: k <= i < |s| ==> s[i] == '/'
  {
    if |s| > 0 && s[|s| - 1] == '/' then
      var k := KeptBeforeSlashes(s[..|s| - 1]);
      assert forall i :: 0 <= i < |s| - 1 ==> s[i] == s[..|s| - 1][i];
      k
    else |s|
  }

  /** `trim_end_matches('/')`: drop every trailing '/'. */
  function TrimTrailingSlashes(s: string): (r: string)
    ensures |r| == 0 || r[|r| - 1] != '/'
    ensures |r| <= |s| && r == s[..|r|]
    ensures forall i :: |r| <= i < |s| ==> s[i] == '/'
  {
    s[..KeptBeforeSlashes(s)]
  }

  /** Index of the first occurrence of `c`, if any. */
  function IndexOf(s: string, c: char): (r: Option<nat>)
    ensures r.Some? ==> r.value < |s| && s[r.value] == c && c !in s[..r.value]
    ensures r.None? <==> c !in s
  {
    if |s| == 0 then None
    else if s[0] == c then Some(0)
    else
      match IndexOf(s[1..], c)
      case None => None
      case Some(k) =>
        assert s[..k + 1] == [s[0]] + s[1..][..k];
        Some(k + 1)
  }

  /** `split_once(c)`: the text before and after the first `c`. */
  function SplitOnce(s: string, c: char): (r: Option<(string, string)>)
    ensures r.Some? <==> c in s
    ensures r.Some? ==> s == r.value.0 + [c] + r.value.1 && c !in r.value.0
  {
    match IndexOf(s, c)
    case None => None
    case Some(k) =>
      assert s == s[..k] + [c] + s[k + 1..];
      Some((s[..k], s[k + 1..]))
  }

  /** Whether entry `e` of a rename table (`lhs=rhs`) maps `key` to `v`. */
  predicate Maps(e: string, key: string, v: string)
  {
    SplitOnce(e, '=') == Some((key, v))
  }

  predicate MapsKey(e: string, key: string)
  {
    SplitOnce(e, '=').Some? && SplitOnce(e, '=').value.0 == key
  }

  /** The loop with early return shared by `map_frame_to_path` and
    * `map_topic_to_path`: the right-hand side of the first entry whose text
    * before the first '=' is `key`. */
  function Lookup(key: string, table: seq<string>): (r: Option<string>)
    ensures LookupSpec(key, table, r)
  {
    if |table| == 0 then None
    else if MapsKey(table[0], key) then
      assert Maps(table[0], key, SplitOnce(table[0], '=').value.1);
      Some(SplitOnce(table[0], '=').value.1)
    else
      var r := Lookup(key, table[1..]);
      LookupSkip(key, table, r);
      r
  }

  /** What `Lookup` promises: `None` exactly when no entry has the key,
    * otherwise the value of the first entry that has it. */
  ghost predicate LookupSpec(key: string, table: seq<string>, r: Option<string>)
  {
    && (r.None? <==> forall i :: 0 <= i < |table| ==> !MapsKey(table[i], key))
    && (r.Some? ==> exists i :: 0 <= i < |table| && Maps(table[i], key, r.value)
                      && forall j :: 0 <= j < i ==> !MapsKey(table[j], key))
  }

  /** An entry without the key in front of a table changes nothing. */
  lemma LookupSkip(key: string, table: seq<string>, r: Option<string>)
    requires |table| > 0 && !MapsKey(table[0], key) && LookupSpec(key, table[1..], r)
    ensures LookupSpec(key, table, r)
  {
    assert forall j :: 1 <= j < |table| ==> table[j] == table[1..][j - 1];
    if r.Some? {
      var i :| 0 <= i < |table[1..]| && Maps(table[1..][i], key, r.value)
               && forall j :: 0 <= j < i ==> !MapsKey(table[1..][j], key);
      assert Maps(table[i + 1], key, r.value);
    }
  }

  /** Whether `t` occurs in `s` as a contiguous substring (`str::contains`). */
  predicate Contains(s: string, t: string)
  {
    exists i | 0 <= i <= |s| - |t| :: OccursAt(s, t, i)
  }

  predicate OccursAt(s: string, t: string, i: int)
  {
    0 <= i <= |s| - |t| && s[i..i + |t|] == t
  }

  function LowerChar(c: char): char
  {
    if 'A' <= c <= 'Z' then (c as int + 32) as char else c
  }

  /** `to_lowercase` on ASCII letters. */
  function ToLower(s: string): (r: string)
    ensures |r| == |s|
    ensures forall i :: 0 <= i < |s| ==> r[i] == LowerChar(s[i])
  {
    seq(|s|, i requires 0 <= i < |s| => LowerChar(s[i]))
  }

  lemma ToLowerIdempotent(s: string)
    ensures ToLower(ToLower(s)) == ToLower(s)
  {
  }

  /** `replace(a, b)` for single characters. */
  function ReplaceChar(s: string, a: char, b: char): (r: string)
    ensures |r| == |s|
    ensures forall i :: 0 <= i < |s| ==> r[i] == (if s[i] == a then b else s[i])
    ensures a != b ==> a !in r
  {
    seq(|s|, i requires 0 <= i < |s| => if s[i] == a then b else s[i])
  }

  /** `join(sep)`. */
  function Join(parts: seq<string>, sep: string): string
  {
    if |parts| == 0 then ""
    else if |parts| == 1 then parts[0]
    else parts[0] + sep + Join(parts[1..], sep)
  }

  /** `split(c)`: the pieces between occurrences of `c`; there is always
    * at least one piece, and gluing them back with `c` restores `s`. */
  function Split(s: string, c: char): (r: seq<string>)
    ensures |r| >= 1
    ensures forall i :: 0 <= i < |r| ==> c !in r[i]
    ensures Join(r, [c]) == s
    decreases |s|
  {
    match SplitOnce(s, c)
    case None => [s]
    case Some((a, b)) =>
      var rest := Split(b, c);
      assert Join([a] + rest, [c]) == a + [c] + Join(rest, [c]) by {
        assert ([a] + rest)[1..] == rest;
      }
      [a] + rest
  }

  /** The first `c` of `a + [c] + b` is the one after `a` when `a` has
    * none. */
  lemma SplitOnceAt(a: string, b: string, c: char)
    requires c !in a
    ensures SplitOnce(a + [c] + b, c) == Some((a, b))
  {
    var s := a + [c] + b;
    var k := IndexOf(s, c).value;
    assert s[|a|] == c;
    assert s[..k] == a;
    assert s[k + 1..] == b;
  }

  /** `split(c)` undoes `join` when no part contains `c`. */
  lemma {:induction false} SplitJoin(parts: seq<string>, c: char)
    requires |parts| >= 1
    requires forall i :: 0 <= i < |parts| ==> c !in parts[i]
    ensures Split(Join(parts, [c]), c) == parts
    decreases |parts|
  {
    if |parts| == 1 {
      assert SplitOnce(parts[0], c) == None;
    } else {
      var rest := parts[1..];
      var tail := Join(rest, [c]);
      assert Join(parts, [c]) == parts[0] + [c] + tail;
      SplitOnceAt(parts[0], tail, c);
      assert forall i :: 0 <= i < |rest| ==> rest[i] == parts[i + 1];
      SplitJoin(rest, c);
      assert Split(Join(parts, [c]), c) == [parts[0]] + Split(tail, c);
      assert parts == [parts[0]] + rest;
    }
  }

  predicate IsSpace(c: char)
  {
    c == ' ' || c == '\t' || c == '\n' || c == '\r' || c == '\U{0B}' || c == '\U{0C}'
  }

  /** `r` is `s` with some of its leading and some of its trailing
    * characters removed, all of them whitespace. */
  ghost predicate Strips(s: string, r: string)
  {
    exists a :: StripsAt(s, r, a)
  }

  /** `r` is the part of `s` starting at `a`, and all of `s` outside it is
    * whitespace. */
  ghost predicate StripsAt(s: string, r: string, a: int)
  {
    0 <= a <= |s| - |r| && r == s[a..a + |r|]
    && (forall i :: 0 <= i < a ==> IsSpace(s[i]))
    && (forall i :: a + |r| <= i < |s| ==> IsSpace(s[i]))
  }

  /** Trimming a string whose first character is whitespace. */
  lemma StripsFront(s: string, r: string)
    requires |s| > 0 && IsSpace(s[0]) && Strips(s[1..], r)
    ensures Strips(s, r)
  {
    var t := s[1..];
    var a :| StripsAt(t, r, a);
    assert r == s[a + 1..a + 1 + |r|];
    forall i | 0 <= i < a + 1
      ensures IsSpace(s[i])
    {
      if i > 0 {
        assert s[i] == t[i - 1];
      }
    }
    forall i | a + 1 + |r| <= i < |s|
      ensures IsSpace(s[i])
    {
      assert s[i] == t[i - 1];
    }
    assert StripsAt(s, r, a + 1);
  }

  /** Trimming a string whose last character is whitespace. */
  lemma StripsBack(s: string, r: string)
    requires |s| > 0 && IsSpace(s[|s| - 1]) && Strips(s[..|s| - 1], r)
    ensures Strips(s, r)
  {
    var t := s[..|s| - 1];
    var a :| StripsAt(t, r, a);
    assert r == s[a..a + |r|];
    forall i | 0 <= i < a
      ensures IsSpace(s[i])
    {
      assert s[i] == t[i];
    }
    forall i | a + |r| <= i < |s|
      ensures IsSpace(s[i])
    {
      if i < |s| - 1 {
        assert s[i] == t[i];
      }
    }
    assert StripsAt(s, r, a);
  }

  /** `trim` over ASCII whitespace: the input with its leading and trailing
    * whitespace removed, and no more. */
  function Trim(s: string): (r: string)
    ensures Strips(s, r)
    ensures |r| > 0 ==> !IsSpace(r[0]) && !IsSpace(r[|r| - 1])
    decreases |s|
  {
    if |s| > 0 && IsSpace(s[0]) then
      var r := Trim(s[1..]);
      StripsFront(s, r);
      r
    else if |s| > 0 && IsSpace(s[|s| - 1]) then
      var r := Trim(s[..|s| - 1]);
      StripsBack(s, r);
      r
    else
      assert StripsAt(s, s, 0);
      s
  }

  // ---------------------------------------------------------------------
  // Ordering
  // ---------------------------------------------------------------------

  /** `Ord` on `String`: lexicographic by character, a proper prefix first. */
  predicate StrLe(a: string, b: string)
    decreases |a|
  {
    |a| == 0 || (|b| > 0 && (a[0] < b[0] || (a[0] == b[0] && StrLe(a[1..], b[1..]))))
  }

  lemma {:induction false} StrLeRefl(a: string)
    ensures StrLe(a, a)
    decreases |a|
  {
    if |a| > 0 {
      StrLeRefl(a[1..]);
    }
  }

  lemma {:induction false} StrLeAntisym(a: string, b: string)
    requires StrLe(a, b) && StrLe(b, a)
    ensures a == b
    decreases |a|
  {
    if |a| > 0 && |b| > 0 {
      StrLeAntisym(a[1..], b[1..]);
      assert a == [a[0]] + a[1..] && b == [b[0]] + b[1..];
    }
  }

  lemma {:induction false} StrLeTrans(a: string, b: string, c: string)
    requires StrLe(a, b) && StrLe(b, c)
    ensures StrLe(a, c)
    decreases |a|
  {
    if |a| > 0 && a[0] == b[0] && b[0] == c[0] {
      StrLeTrans(a[1..], b[1..], c[1..]);
    }
  }

  lemma {:induction false} StrLeTotal(a: string, b: string)
    ensures StrLe(a, b) || StrLe(b, a)
    decreases |a|
  {
    if |a| > 0 && |b| > 0 && a[0] == b[0] {
      StrLeTotal(a[1..], b[1..]);
    }
  }

  // ---------------------------------------------------------------------
  // Decimal formatting
  // ---------------------------------------------------------------------

  predicate IsDigit(c: char)
  {
    '0' <= c <= '9'
  }

  /** The value of a string of decimal digits. */
  function DecimalValue(s: string): nat
    requires forall i :: 0 <= i < |s| ==> IsDigit(s[i])
  {
    if |s| == 0 then 0 else 10 * DecimalValue(s[..|s| - 1]) + DigitValue(s[|s| - 1])
  }

  function DigitValue(c: char): nat
    requires IsDigit(c)
  {
    c as int - '0' as int
  }

  /** `format!("{}", n)` for a natural number. */
  function Decimal(n: nat): (s: string)
    ensures |s| >= 1
    ensures forall i :: 0 <= i < |s| ==> IsDigit(s[i])
  {
    var d := ((n % 10) + '0' as int) as char;
    if n < 10 then [d] else Decimal(n / 10) + [d]
  }

  /** `format!("{:04}", n)`: at least four digits, padded with '0'. */
  function Pad4(n: nat): (s: string)
    ensures forall i :: 0 <= i < |s| ==> IsDigit(s[i])
  {
    var d := Decimal(n);
    if |d| >= 4 then d else seq(4 - |d|, _ => '0') + d
  }

  lemma {:induction false} DecimalRoundTrip(n: nat)
    ensures DecimalValue(Decimal(n)) == n
  {
    var d := ((n % 10) + '0' as int) as char;
    if n >= 10 {
      DecimalRoundTrip(n / 10);
      var s := Decimal(n / 10) + [d];
      assert s[..|s| - 1] == Decimal(n / 10);
    }
  }

  lemma {:induction false} LeadingZeros(z: nat, s: string)
    requires forall i :: 0 <= i < |s| ==> IsDigit(s[i])
    ensures DecimalValue(seq(z, _ => '0') + s) == DecimalValue(s)
    decreases |s|
  {
    var t := seq(z, _ => '0') + s;
    if |s| == 0 {
      assert t == seq(z, _ => '0');
      ZerosValue(z);
    } else {
      LeadingZeros(z, s[..|s| - 1]);
      assert t[..|t| - 1] == seq(z, _ => '0') + s[..|s| - 1];
    }
  }

  lemma {:induction false} ZerosValue(z: nat)
    ensures DecimalValue(seq(z, _ => '0')) == 0
  {
    if z > 0 {
      ZerosValue(z - 1);
      assert seq(z, _ => '0')[..z - 1] == seq(z - 1, _ => '0');
    }
  }

  /** The part number in a file name reads back as the number, in at least
    * four digits. */
  lemma Pad4RoundTrip(n: nat)
    ensures |Pad4(n)| >= 4
    ensures DecimalValue(Pad4(n)) == n
    ensures n < 10000 ==> |Pad4(n)| == 4
  {
    var d := Decimal(n);
    DecimalRoundTrip(n);
    if |d| < 4 { LeadingZeros(4 - |d|, d); }
    if n < 10000 { DecimalBelow(n); }
  }

  /** Zero-padded numbers are distinct for distinct values. */
  lemma Pad4Injective(m: nat, n: nat)
    ensures Pad4(m) == Pad4(n) ==> m == n
  {
    Pad4RoundTrip(m);
    Pad4RoundTrip(n);
  }

  lemma {:induction false} DecimalBelow(n: nat)
    requires n < 10000
    ensures |Decimal(n)| <= 4
  {
    if n >= 10 { DecimalShort(n / 10); }
  }

  lemma {:induction false} DecimalShort(n: nat)
    requires n < 1000
    ensures |Decimal(n)| <= 3
  {
    if n >= 100 {
      assert |Decimal(n / 100)| == 1;
      assert |Decimal(n / 10)| == 2;
    } else if n >= 10 {
      assert |Decimal(n / 10)| == 1;
    }
  }
}
