/**
 * The regular expressions the student and teacher forms test their fields
 * against, written as matchers over strings. `\s` is JavaScript's
 * whitespace class, `\d` and the letter classes are ASCII.
 */
module FieldPatterns {
  import opened Wrappers
  import opened JsText

  /** `^[A-Za-z]+$`. */
  predicate OnlyLetters(s: string) {
    |s| >= 1 && forall k :: 0 <= k < |s| ==> IsAsciiLetter(s[k])
  }

  /** `^[A-Za-z\s]+$`. */
  predicate OnlyLettersAndSpaces(s: string) {
    |s| >= 1 && forall k :: 0 <= k < |s| ==> IsAsciiLetter(s[k]) || IsJsWhitespace(s[k])
  }

  lemma LetterNotWhitespace(c: char)
    requires IsAsciiLetter(c)
    ensures !IsJsWhitespace(c)
  {
  }

  /** `\s?`: nothing, or one whitespace character. */
  predicate OptionalSpace(w: string) {
    |w| == 0 || (|w| == 1 && IsJsWhitespace(w[0]))
  }

  /** `\d{3}`. */
  predicate ThreeDigits(d: string) {
    |d| == 3 && IsAsciiDigit(d[0]) && IsAsciiDigit(d[1]) && IsAsciiDigit(d[2])
  }

  /**
   * `(\s?\d{3}){n}$` at the start of `t`. A digit is never whitespace, so
   * the optional space is taken exactly when the next character is one.
   */
  predicate GroupsMatch(t: string, n: nat)
    decreases n
  {
    if n == 0 then |t| == 0
    else
      var u := if |t| > 0 && IsJsWhitespace(t[0]) then t[1..] else t;
      |u| >= 3 && ThreeDigits(u[..3]) && GroupsMatch(u[3..], n - 1)
  }

  /** `^\+256\s?\d{3}\s?\d{3}\s?\d{3}$`. */
  predicate IsUgandanPhone(s: string) {
    |s| >= 4 && s[..4] == "+256" && GroupsMatch(s[4..], 3)
  }

  /** The groups of a number, each after its optional space. */
  function Render(gaps: seq<string>, groups: seq<string>): string
    requires |gaps| == |groups|
    decreases |gaps|
  {
    if |gaps| == 0 then "" else gaps[0] + groups[0] + Render(gaps[1..], groups[1..])
  }

  predicate WellFormedParts(gaps: seq<string>, groups: seq<string>) {
    |gaps| == |groups| &&
    (forall k :: 0 <= k < |gaps| ==> OptionalSpace(gaps[k])) &&
    (forall k :: 0 <= k < |groups| ==> ThreeDigits(groups[k]))
  }

  /** Any spacing of any digit groups matches. */
  lemma {:induction false} RenderMatches(gaps: seq<string>, groups: seq<string>)
    requires WellFormedParts(gaps, groups)
    ensures GroupsMatch(Render(gaps, groups), |gaps|)
    decreases |gaps|
  {
    if |gaps| > 0 {
      var rest := Render(gaps[1..], groups[1..]);
      RenderMatches(gaps[1..], groups[1..]);
      var t := Render(gaps, groups);
      var d := groups[0];
      assert d + rest == t[|gaps[0]|..];
      if |gaps[0]| == 0 {
        assert t[0] == d[0];
        DigitNotWhitespace(d[0]);
      }
      var u := if |t| > 0 && IsJsWhitespace(t[0]) then t[1..] else t;
      assert u == d + rest;
      assert u[..3] == d && u[3..] == rest;
    }
  }

  /** The spaces and digit groups of a matching string; rendering them gives the string back. */
  function Decompose(t: string, n: nat): (r: (seq<string>, seq<string>))
    requires GroupsMatch(t, n)
    ensures |r.0| == n && WellFormedParts(r.0, r.1)
    ensures Render(r.0, r.1) == t
    decreases n
  {
    if n == 0 then ([], [])
    else
      var gap := if |t| > 0 && IsJsWhitespace(t[0]) then t[..1] else "";
      var u := t[|gap|..];
      var rest := Decompose(u[3..], n - 1);
      assert gap + u[..3] + u[3..] == t;
      ([gap] + rest.0, [u[..3]] + rest.1)
  }

  /** Every matching phone number is `+256` and three digit groups, each optionally after one space. */
  lemma PhoneParts(s: string)
    requires IsUgandanPhone(s)
    ensures var (gaps, groups) := Decompose(s[4..], 3);
      WellFormedParts(gaps, groups) && |gaps| == 3 && s == "+256" + Render(gaps, groups)
  {
    assert s == s[..4] + s[4..];
  }

  /** Every such number matches. */
  lemma PhoneAccepted(gaps: seq<string>, groups: seq<string>)
    requires WellFormedParts(gaps, groups) && |gaps| == 3
    ensures IsUgandanPhone("+256" + Render(gaps, groups))
  {
    var s := "+256" + Render(gaps, groups);
    RenderMatches(gaps, groups);
    assert s[..4] == "+256" && s[4..] == Render(gaps, groups);
  }

  lemma {:induction false} RenderLength(gaps: seq<string>, groups: seq<string>)
    requires WellFormedParts(gaps, groups)
    ensures 3 * |gaps| <= |Render(gaps, groups)| <= 4 * |gaps|
    decreases |gaps|
  {
    if |gaps| > 0 {
      RenderLength(gaps[1..], groups[1..]);
    }
  }

  /** A matching number has 13 to 16 characters. */
  lemma PhoneLength(s: string)
    requires IsUgandanPhone(s)
    ensures 13 <= |s| <= 16
  {
    PhoneParts(s);
    var (gaps, groups) := Decompose(s[4..], 3);
    RenderLength(gaps, groups);
  }

  /** The placeholder of every phone field of the forms. */
  const PhonePlaceholder: string := "+256 700 000 000"

  /** The forms' own placeholder matches. */
  lemma PlaceholderPhoneAccepted()
    ensures IsUgandanPhone(PhonePlaceholder)
  {
    PlaceholderParts();
    PlaceholderMatches(PhonePlaceholder);
  }

  lemma PlaceholderParts()
    ensures "+256" + Render([" ", " ", " "], ["700", "000", "000"]) == PhonePlaceholder
  {
  }

  lemma PlaceholderMatches(s: string)
    requires s == "+256" + Render([" ", " ", " "], ["700", "000", "000"])
    ensures IsUgandanPhone(s)
  {
    PhoneAccepted([" ", " ", " "], ["700", "000", "000"]);
  }

  /** `[^\s@]+` without the `+`: no whitespace and no `@`. */
  predicate NoSpaceOrAt(t: string) {
    forall k :: 0 <= k < |t| ==> !IsJsWhitespace(t[k]) && t[k] != '@'
  }

  /**
   * `^[^\s@]+@[^\s@]+\.[^\s@]+$`: some `@` at `i` and some `.` at `j`
   * split the string into three non-empty runs free of whitespace and `@`.
   */
  predicate EmailPattern(s: string) {
    exists i, j :: 0 < i && i + 1 < j < |s| - 1 && s[i] == '@' && s[j] == '.' &&
      NoSpaceOrAt(s[..i]) && NoSpaceOrAt(s[i + 1..j]) && NoSpaceOrAt(s[j + 1..])
  }

  /** The `@` at `i` is the only one. */
  predicate OnlyAtSign(s: string, i: int) {
    0 <= i < |s| && s[i] == '@' && forall k :: 0 <= k < |s| && s[k] == '@' ==> k == i
  }

  /**
   * What the email check asks, in words: no whitespace, exactly one `@`,
   * something before it, and after it a `.` with a character on each side.
   */
  predicate ValidEmail(s: string) {
    (forall k :: 0 <= k < |s| ==> !IsJsWhitespace(s[k])) &&
    exists i :: 0 < i < |s| && OnlyAtSign(s, i) && exists j :: i + 1 < j < |s| - 1 && s[j] == '.'
  }

  lemma EmailPatternIsValid(s: string, i: int, j: int)
    requires 0 < i && i + 1 < j < |s| - 1 && s[i] == '@' && s[j] == '.'
    requires NoSpaceOrAt(s[..i]) && NoSpaceOrAt(s[i + 1..j]) && NoSpaceOrAt(s[j + 1..])
    ensures ValidEmail(s)
  {
    forall k | 0 <= k < |s| ensures !IsJsWhitespace(s[k]) && (s[k] == '@' ==> k == i) {
      if k < i {
        assert s[k] == s[..i][k];
      } else if i < k < j {
        assert s[k] == s[i + 1..j][k - i - 1];
      } else if j < k {
        assert s[k] == s[j + 1..][k - j - 1];
      }
    }
    assert OnlyAtSign(s, i);
  }

  lemma ValidEmailMatches(s: string, i: int, j: int)
    requires forall k :: 0 <= k < |s| ==> !IsJsWhitespace(s[k])
    requires 0 < i && OnlyAtSign(s, i) && i + 1 < j < |s| - 1 && s[j] == '.'
    ensures EmailPattern(s)
  {
    assert NoSpaceOrAt(s[..i]);
    assert NoSpaceOrAt(s[i + 1..j]);
    assert NoSpaceOrAt(s[j + 1..]);
  }

  /** The regular expression accepts exactly the addresses described in words. */
  lemma EmailPatternIff(s: string)
    ensures EmailPattern(s) <==> ValidEmail(s)
  {
    if EmailPattern(s) {
      var i, j :| 0 < i && i + 1 < j < |s| - 1 && s[i] == '@' && s[j] == '.' &&
        NoSpaceOrAt(s[..i]) && NoSpaceOrAt(s[i + 1..j]) && NoSpaceOrAt(s[j + 1..]);
      EmailPatternIsValid(s, i, j);
    }
    if ValidEmail(s) {
      var i :| 0 < i < |s| && OnlyAtSign(s, i) && exists j :: i + 1 < j < |s| - 1 && s[j] == '.';
      var j :| i + 1 < j < |s| - 1 && s[j] == '.';
      ValidEmailMatches(s, i, j);
    }
  }

  /** `^[A-Z]{2}\d{12}$`. */
  predicate NationalIdPattern(s: string) {
    |s| == 14 && IsAsciiUpper(s[0]) && IsAsciiUpper(s[1]) &&
    forall k :: 2 <= k < 14 ==> IsAsciiDigit(s[k])
  }

  // Messages are written as concatenations of a few words each: the
  // verifier unfolds a literal character by character, and short pieces keep
  // that cheap.

  /** The message of the phone check both forms carry. */
  const PhoneMessage := "Please enter a " + "valid Ugandan " + "phone number " + "(+256 XXX XXX " + "XXX)"

  /** The phone `validation` of both forms: the pattern, or the message. */
  function PhoneError(value: string): (r: Option<string>)
    ensures r.None? <==> IsUgandanPhone(value)
    ensures r.Some? ==> r.value == PhoneMessage
  {
    if !IsUgandanPhone(value) then Some(PhoneMessage) else None
  }

  /** The first message of a name check: `<kind> must be at least 2 characters`. */
  function TooShort(kind: string): string {
    kind + " must be at " + "least 2 " + "characters"
  }

  /** The second message of a name check: `<kind> must contain only letters`. */
  function NotOnlyLetters(kind: string): string {
    kind + " must contain " + "only letters"
  }
}
