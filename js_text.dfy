/**
 * The JavaScript string built-ins the application relies on: whitespace as
 * `trim()` and the regular-expression class `\s` see it, ASCII case folding
 * (`toLowerCase`), `includes`, `join`, the relational operators on strings,
 * decimal rendering of numbers (`toString`, template literals) and
 * `parseInt` with its default radix.
 */
module JsText {
  import opened Wrappers

  /** The characters `trim()` removes and `\s` matches: WhiteSpace and LineTerminator. */
  predicate IsJsWhitespace(c: char) {
    c == '\t' || c == '\n' || c == '\U{000B}' || c == '\U{000C}' || c == '\r' || c == ' ' ||
    c == '\U{00A0}' || c == '\U{1680}' || ('\U{2000}' <= c <= '\U{200A}') ||
    c == '\U{2028}' || c == '\U{2029}' || c == '\U{202F}' || c == '\U{205F}' ||
    c == '\U{3000}' || c == '\U{FEFF}'
  }

  predicate IsAsciiDigit(c: char) { '0' <= c <= '9' }
  predicate IsAsciiUpper(c: char) { 'A' <= c <= 'Z' }
  predicate IsAsciiLower(c: char) { 'a' <= c <= 'z' }
  predicate IsAsciiLetter(c: char) { IsAsciiUpper(c) || IsAsciiLower(c) }

  /** `toLowerCase` on one character, restricted to ASCII letters. */
  function LowerChar(c: char): (r: char)
    ensures IsAsciiUpper(c) ==> IsAsciiLower(r)
    ensures !IsAsciiUpper(c) ==> r == c
  {
    if IsAsciiUpper(c) then (c as int + 32) as char else c
  }

  /** `s.toLowerCase()` for ASCII text. */
  function ToLower(s: string): (r: string)
    ensures |r| == |s|
    ensures forall i :: 0 <= i < |s| ==> r[i] == LowerChar(s[i])
  {
    seq(|s|, i requires 0 <= i < |s| => LowerChar(s[i]))
  }

  /** `needle` occurs in `hay` starting at index `i`. */
  predicate OccursAt(hay: string, needle: string, i: nat) {
    i + |needle| <= |hay| && hay[i..i + |needle|] == needle
  }

  /** `hay.includes(needle)`. */
  predicate Includes(hay: string, needle: string) {
    exists i: nat | i <= |hay| :: OccursAt(hay, needle, i)
  }

  /** Every string includes the empty string: an empty search matches everything. */
  lemma EmptyIncluded(hay: string)
    ensures Includes(hay, "")
  {
    assert OccursAt(hay, "", 0);
  }

  /** `s.trimStart()`. */
  function TrimStart(s: string): (r: string)
    ensures |r| <= |s| && r == s[|s| - |r|..]
    ensures forall i :: 0 <= i < |s| - |r| ==> IsJsWhitespace(s[i])
    ensures |r| > 0 ==> !IsJsWhitespace(r[0])
    decreases |s|
  {
    if |s| > 0 && IsJsWhitespace(s[0]) then TrimStart(s[1..]) else s
  }

  /** `s.trimEnd()`. */
  function TrimEnd(s: string): (r: string)
    ensures |r| <= |s| && r == s[..|r|]
    ensures forall i :: |r| <= i < |s| ==> IsJsWhitespace(s[i])
    ensures |r| > 0 ==> !IsJsWhitespace(r[|r| - 1])
    decreases |s|
  {
    if |s| > 0 && IsJsWhitespace(s[|s| - 1]) then TrimEnd(s[..|s| - 1]) else s
  }

  /** `s.trim()`. */
  function Trim(s: string): string {
    TrimEnd(TrimStart(s))
  }

  /** A string trims to `''` exactly when it is made of whitespace only. */
  lemma TrimEmptyIff(s: string)
    ensures Trim(s) == "" <==> forall i :: 0 <= i < |s| ==> IsJsWhitespace(s[i])
  {
  }

  /** `parts.join(sep)`. */
  function Join(parts: seq<string>, sep: string): string
    decreases |parts|
  {
    if |parts| == 0 then ""
    else if |parts| == 1 then parts[0]
    else parts[0] + sep + Join(parts[1..], sep)
  }

  /** `a` and `b` agree before index `k`, where `a` ends or has the smaller character. */
  predicate FirstDifference(a: string, b: string, k: nat) {
    k <= |a| && k < |b| && a[..k] == b[..k] && (k == |a| || a[k] < b[k])
  }

  /** `a < b` on strings: lexicographic order of the characters. */
  predicate Less(a: string, b: string) {
    exists k: nat | k <= |a| :: FirstDifference(a, b, k)
  }

  lemma LessIrreflexive(a: string)
    ensures !Less(a, a)
  {
  }

  /** Comparing equal-length prefixes first decides the comparison of concatenations. */
  lemma LessConcat(a1: string, b1: string, a2: string, b2: string)
    requires |a1| == |a2|
    ensures Less(a1 + b1, a2 + b2) <==> Less(a1, a2) || (a1 == a2 && Less(b1, b2))
  {
    var x, y := a1 + b1, a2 + b2;
    if Less(x, y) {
      var k: nat :| k <= |x| && FirstDifference(x, y, k);
      if k < |a1| {
        DifferenceInPrefix(a1, b1, a2, b2, k);
      } else {
        DifferenceInSuffix(a1, b1, a2, b2, k);
      }
    }
    if Less(a1, a2) {
      var k: nat :| k <= |a1| && FirstDifference(a1, a2, k);
      PrefixDifference(a1, b1, a2, b2, k);
    } else if a1 == a2 && Less(b1, b2) {
      var j: nat :| j <= |b1| && FirstDifference(b1, b2, j);
      SuffixDifference(a1, b1, b2, j);
    }
  }

  lemma DifferenceInPrefix(a1: string, b1: string, a2: string, b2: string, k: nat)
    requires |a1| == |a2| && k < |a1| && FirstDifference(a1 + b1, a2 + b2, k)
    ensures Less(a1, a2)
  {
    var x, y := a1 + b1, a2 + b2;
    assert x[..k] == a1[..k] && y[..k] == a2[..k];
    assert x[k] == a1[k] && y[k] == a2[k];
    assert FirstDifference(a1, a2, k);
  }

  lemma DifferenceInSuffix(a1: string, b1: string, a2: string, b2: string, k: nat)
    requires |a1| == |a2| && |a1| <= k && FirstDifference(a1 + b1, a2 + b2, k)
    ensures a1 == a2 && Less(b1, b2)
  {
    var n := |a1|;
    var x, y := a1 + b1, a2 + b2;
    assert a1 == x[..k][..n] && a2 == y[..k][..n];
    assert b1[..k - n] == x[..k][n..] && b2[..k - n] == y[..k][n..];
    if k < |x| {
      assert x[k] == b1[k - n] && y[k] == b2[k - n];
    }
    assert FirstDifference(b1, b2, k - n);
  }

  lemma PrefixDifference(a1: string, b1: string, a2: string, b2: string, k: nat)
    requires |a1| == |a2| && k <= |a1| && FirstDifference(a1, a2, k)
    ensures Less(a1 + b1, a2 + b2)
  {
    var x, y := a1 + b1, a2 + b2;
    assert x[..k] == a1[..k] && y[..k] == a2[..k];
    assert FirstDifference(x, y, k);
  }

  lemma SuffixDifference(a: string, b1: string, b2: string, j: nat)
    requires j <= |b1| && FirstDifference(b1, b2, j)
    ensures Less(a + b1, a + b2)
  {
    var n := |a|;
    var x, y := a + b1, a + b2;
    assert x[..n + j] == a + b1[..j] && y[..n + j] == a + b2[..j];
    if j < |b1| {
      assert x[n + j] == b1[j] && y[n + j] == b2[j];
    }
    assert FirstDifference(x, y, n + j);
  }

  /** Strings with a first character compare by it first. */
  lemma LessCons(a: string, b: string)
    requires |a| > 0 && |b| > 0
    ensures Less(a, b) <==> a[0] < b[0] || (a[0] == b[0] && Less(a[1..], b[1..]))
  {
    assert a == [a[0]] + a[1..] && b == [b[0]] + b[1..];
    LessConcat([a[0]], a[1..], [b[0]], b[1..]);
    if a[0] < b[0] {
      assert FirstDifference([a[0]], [b[0]], 0);
    }
    if Less([a[0]], [b[0]]) {
      var k: nat :| k <= 1 && FirstDifference([a[0]], [b[0]], k);
    }
  }

  // ---------------------------------------------------------------------
  // Numbers as decimal text

  function DigitChar(d: nat): (c: char)
    requires d < 10
    ensures IsAsciiDigit(c)
  {
    ('0' as int + d) as char
  }

  /** The value of one digit character, 36 for anything that is not a digit of any radix. */
  function DigitValue(c: char): (v: nat)
    ensures v <= 36
  {
    if '0' <= c <= '9' then c as int - '0' as int
    else if 'a' <= c <= 'z' then c as int - 'a' as int + 10
    else if 'A' <= c <= 'Z' then c as int - 'A' as int + 10
    else 36
  }

  /** `n.toString()` for a non-negative integer. */
  function NatToString(n: nat): (s: string)
    ensures |s| >= 1
    ensures forall i :: 0 <= i < |s| ==> IsAsciiDigit(s[i])
    decreases n
  {
    if n < 10 then [DigitChar(n)] else NatToString(n / 10) + [DigitChar(n % 10)]
  }

  /** `i.toString()` for an integer. */
  function IntToString(i: int): string {
    if i < 0 then "-" + NatToString(-i) else NatToString(i)
  }

  /** The longest prefix of `s` made of digits of `radix`. */
  function LeadingDigits(s: string, radix: nat): (r: string)
    ensures |r| <= |s| && r == s[..|r|]
    ensures forall i :: 0 <= i < |r| ==> DigitValue(r[i]) < radix
    ensures |r| < |s| ==> DigitValue(s[|r|]) >= radix
    decreases |s|
  {
    if |s| > 0 && DigitValue(s[0]) < radix then [s[0]] + LeadingDigits(s[1..], radix) else ""
  }

  /** The value of a digit string in `radix`, most significant digit first. */
  function DigitsValue(ds: string, radix: nat): nat
    decreases |ds|
  {
    if |ds| == 0 then 0
    else DigitsValue(ds[..|ds| - 1], radix) * radix + DigitValue(ds[|ds| - 1])
  }

  /**
   * `parseInt` after the sign: a `0x`/`0X` prefix selects hexadecimal, then
   * the longest run of digits is read; no digit at all gives `NaN` (`None`).
   */
  function ParseUnsigned(u: string): Option<nat> {
    var hex := |u| >= 2 && u[0] == '0' && (u[1] == 'x' || u[1] == 'X');
    var radix := if hex then 16 else 10;
    var ds := LeadingDigits(if hex then u[2..] else u, radix);
    if |ds| == 0 then None else Some(DigitsValue(ds, radix))
  }

  /**
   * `parseInt(s)` with no radix argument: leading whitespace is skipped and
   * an optional sign is read before the digits.
   */
  function ParseInt(s: string): Option<int> {
    var t := TrimStart(s);
    var signed := |t| > 0 && (t[0] == '-' || t[0] == '+');
    match ParseUnsigned(if signed then t[1..] else t)
    case None => None
    case Some(v) => Some(if signed && t[0] == '-' then -(v as int) else v)
  }

  /** `parseInt(v) || 0`: `NaN` and zero both become 0. */
  function ParseIntOrZero(s: string): int {
    ParseInt(s).GetOr(0)
  }

  lemma {:induction false} NatToStringValue(n: nat)
    ensures DigitsValue(NatToString(n), 10) == n
    decreases n
  {
    var s := NatToString(n);
    if n >= 10 {
      NatToStringValue(n / 10);
      assert s[..|s| - 1] == NatToString(n / 10);
    }
  }

  lemma {:induction false} LeadingDigitsOfDigits(s: string)
    requires forall i :: 0 <= i < |s| ==> IsAsciiDigit(s[i])
    ensures LeadingDigits(s, 10) == s
    decreases |s|
  {
    if |s| > 0 {
      LeadingDigitsOfDigits(s[1..]);
      assert [s[0]] + s[1..] == s;
    }
  }

  lemma DigitNotWhitespace(c: char)
    requires IsAsciiDigit(c)
    ensures !IsJsWhitespace(c)
  {
  }

  lemma TrimStartNoLeadingSpace(s: string)
    requires |s| > 0 && !IsJsWhitespace(s[0])
    ensures TrimStart(s) == s
  {
  }

  lemma {:induction false} ParseUnsignedDigits(s: string)
    requires |s| > 0 && forall i :: 0 <= i < |s| ==> IsAsciiDigit(s[i])
    ensures ParseUnsigned(s) == Some(DigitsValue(s, 10))
  {
    assert |s| >= 2 ==> IsAsciiDigit(s[1]);
    LeadingDigitsOfDigits(s);
  }

  /** Reading back the decimal rendering of a non-negative integer gives the integer. */
  lemma NatToStringRoundTrip(n: nat)
    ensures ParseInt(NatToString(n)) == Some(n)
  {
    var s := NatToString(n);
    DigitNotWhitespace(s[0]);
    TrimStartNoLeadingSpace(s);
    ParseUnsignedDigits(s);
    NatToStringValue(n);
  }

  /** Reading back the decimal rendering of any integer gives the integer. */
  lemma IntToStringRoundTrip(i: int)
    ensures ParseInt(IntToString(i)) == Some(i)
  {
    if i < 0 {
      var d := NatToString(-i);
      ParseUnsignedDigits(d);
      NatToStringValue(-i);
      ParseNegated(d, -i);
    } else {
      NatToStringRoundTrip(i);
    }
  }

  /** A `-` before digits that read as `v` reads as `-v`. */
  lemma ParseNegated(d: string, v: nat)
    requires ParseUnsigned(d) == Some(v)
    ensures ParseInt("-" + d) == Some(-(v as int))
  {
    var s := "-" + d;
    assert s[0] == '-' && s[1..] == d;
    TrimStartNoLeadingSpace(s);
  }

  /** `count` copies of `c`. */
  function Repeat(c: char, count: nat): (r: string)
    ensures |r| == count && forall i :: 0 <= i < count ==> r[i] == c
  {
    seq(count, _ => c)
  }

  /** `s.padStart(width, fill)` with a one-character fill. */
  function PadStart(s: string, width: nat, fill: char): (r: string)
    ensures |r| == if |s| >= width then |s| else width
    ensures r[|r| - |s|..] == s
    ensures forall i :: 0 <= i < |r| - |s| ==> r[i] == fill
  {
    if |s| >= width then s else Repeat(fill, width - |s|) + s
  }

  /** A well-formed run of decimal digits. */
  predicate AllDigits(s: string) {
    forall i :: 0 <= i < |s| ==> IsAsciiDigit(s[i])
  }

  lemma ParseIntOfDigits(s: string)
    requires |s| > 0 && AllDigits(s)
    ensures ParseInt(s) == Some(DigitsValue(s, 10))
  {
    DigitNotWhitespace(s[0]);
    TrimStartNoLeadingSpace(s);
    ParseUnsignedDigits(s);
  }

  function Pow10(n: nat): (r: nat)
    ensures r >= 1
  {
    if n == 0 then 1 else 10 * Pow10(n - 1)
  }

  lemma {:induction false} DigitsValueBound(ds: string)
    requires AllDigits(ds)
    ensures DigitsValue(ds, 10) < Pow10(|ds|)
    decreases |ds|
  {
    if |ds| > 0 {
      DigitsValueBound(ds[..|ds| - 1]);
    }
  }

  /** The value of a digit string read from its most significant end. */
  lemma {:induction false} DigitsValueFront(ds: string)
    requires |ds| > 0
    ensures DigitsValue(ds, 10) == DigitValue(ds[0]) * Pow10(|ds| - 1) + DigitsValue(ds[1..], 10)
    decreases |ds|
  {
    var n := |ds|;
    if n > 1 {
      var init, rest := ds[..n - 1], ds[1..];
      DigitsValueFront(init);
      assert rest[..n - 2] == init[1..];
      assert rest[n - 2] == ds[n - 1];
      var d0, x, last, p := DigitValue(ds[0]), DigitsValue(init[1..], 10), DigitValue(ds[n - 1]), Pow10(n - 2);
      calc {
        DigitsValue(ds, 10);
        DigitsValue(init, 10) * 10 + last;
        (d0 * p + x) * 10 + last;
        { Distribute(d0, p, x); }
        d0 * (10 * p) + (x * 10 + last);
        d0 * Pow10(n - 1) + DigitsValue(rest, 10);
      }
    } else {
      assert ds[..0] == "" && ds[1..] == "";
    }
  }

  lemma Distribute(d: int, p: int, x: int)
    ensures (d * p + x) * 10 == d * (10 * p) + x * 10
  {
  }

  /** A leading digit outweighs everything after it. */
  lemma LeadingDigitDominates(da: nat, db: nat, p: nat, ra: nat, rb: nat)
    requires da < db && ra < p && rb < p
    ensures da * p + ra < db * p + rb
  {
    assert (da + 1) * p <= db * p by {
      MulMonotone(da + 1, db, p);
    }
  }

  lemma MulMonotone(a: nat, b: nat, p: nat)
    requires a <= b
    ensures a * p <= b * p
  {
  }

  /** Leading zeros do not change the value of a digit string. */
  lemma {:induction false} LeadingZerosValue(k: nat, s: string)
    ensures DigitsValue(Repeat('0', k) + s, 10) == DigitsValue(s, 10)
    decreases k
  {
    if k > 0 {
      var t := Repeat('0', k) + s;
      DigitsValueFront(t);
      assert t[1..] == Repeat('0', k - 1) + s;
      LeadingZerosValue(k - 1, s);
    } else {
      assert Repeat('0', 0) + s == s;
    }
  }

  /** On digit strings of equal length, string order is numeric order. */
  lemma {:induction false} LessDigits(a: string, b: string)
    requires |a| == |b| && AllDigits(a) && AllDigits(b)
    ensures Less(a, b) <==> DigitsValue(a, 10) < DigitsValue(b, 10)
    decreases |a|
  {
    if |a| > 0 {
      DigitsValueFront(a);
      DigitsValueFront(b);
      DigitsValueBound(a[1..]);
      DigitsValueBound(b[1..]);
      LessDigits(a[1..], b[1..]);
      LessCons(a, b);
      var p := Pow10(|a| - 1);
      var da, db := DigitValue(a[0]), DigitValue(b[0]);
      var ra, rb := DigitsValue(a[1..], 10), DigitsValue(b[1..], 10);
      if da < db {
        LeadingDigitDominates(da, db, p, ra, rb);
      } else if db < da {
        LeadingDigitDominates(db, da, p, rb, ra);
      }
    }
  }

  /** Digit strings of equal length with equal values are equal. */
  lemma {:induction false} DigitsValueInjective(a: string, b: string)
    requires |a| == |b| && AllDigits(a) && AllDigits(b)
    requires DigitsValue(a, 10) == DigitsValue(b, 10)
    ensures a == b
    decreases |a|
  {
    if |a| > 0 {
      DigitsValueFront(a);
      DigitsValueFront(b);
      DigitsValueBound(a[1..]);
      DigitsValueBound(b[1..]);
      var p := Pow10(|a| - 1);
      var da, db := DigitValue(a[0]), DigitValue(b[0]);
      var ra, rb := DigitsValue(a[1..], 10), DigitsValue(b[1..], 10);
      if da < db {
        LeadingDigitDominates(da, db, p, ra, rb);
      } else if db < da {
        LeadingDigitDominates(db, da, p, rb, ra);
      }
      DigitsValueInjective(a[1..], b[1..]);
      assert a == [a[0]] + a[1..] && b == [b[0]] + b[1..];
    }
  }

  /** The decimal rendering of `n` has `k` digits when `10^(k-1) <= n < 10^k`. */
  lemma {:induction false} NatToStringLength(n: nat, k: nat)
    requires k >= 1 && n < Pow10(k) && (k == 1 || Pow10(k - 1) <= n)
    ensures |NatToString(n)| == k
    decreases k
  {
    if k > 1 {
      NatToStringLength(n / 10, k - 1);
    }
  }
}
