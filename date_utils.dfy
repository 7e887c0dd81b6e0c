/**
 * Calendar dates as the application reads them off a JavaScript `Date`
 * (`getFullYear()`, `getMonth() + 1`, `getDate()`), their `YYYY-MM-DD`
 * rendering, stepping back by whole days and the day of the week.
 */
module DateUtils {
  import opened Wrappers
  import opened JsText

  /** A proleptic Gregorian date; `month` is 1-based, as `getMonth() + 1`. */
  datatype CivilDate = CivilDate(year: int, month: int, day: int)

  predicate IsLeapYear(y: int) {
    (y % 4 == 0 && y % 100 != 0) || y % 400 == 0
  }

  function DaysInMonth(y: int, m: int): (n: int)
    requires 1 <= m <= 12
    ensures 28 <= n <= 31
    ensures n == 29 <==> m == 2 && IsLeapYear(y)
  {
    if m == 2 then (if IsLeapYear(y) then 29 else 28)
    else if m == 4 || m == 6 || m == 9 || m == 11 then 30
    else 31
  }

  /** The dates a `Date` object can denote. */
  predicate Valid(d: CivilDate) {
    1 <= d.month <= 12 && 1 <= d.day <= DaysInMonth(d.year, d.month)
  }

  /** Chronological order. */
  predicate Before(a: CivilDate, b: CivilDate) {
    a.year < b.year ||
    (a.year == b.year && (a.month < b.month || (a.month == b.month && a.day < b.day)))
  }

  /** `n.toString().padStart(2, '0')`. */
  function Pad2(n: nat): string {
    PadStart(NatToString(n), 2, '0')
  }

  /** Numbers below 100 render as exactly two digits that read back as the number. */
  lemma Pad2Digits(n: nat)
    requires n < 100
    ensures |Pad2(n)| == 2 && AllDigits(Pad2(n)) && DigitsValue(Pad2(n), 10) == n
  {
    var s := NatToString(n);
    if n < 10 {
      NatToStringLength(n, 1);
    } else {
      NatToStringLength(n, 2);
    }
    LeadingZerosValue(2 - |s|, s);
    NatToStringValue(n);
    var r := Pad2(n);
    forall i | 0 <= i < |r| ensures IsAsciiDigit(r[i]) {
      if i < |r| - |s| {
        assert r[i] == '0';
      } else {
        assert r[i] == r[|r| - |s|..][i - (|r| - |s|)];
      }
    }
  }

  /** `formatYYYYMMDD(date)`: the year, a dash, the month, a dash, the day. */
  function FormatYYYYMMDD(d: CivilDate): string
    requires Valid(d)
  {
    IntToString(d.year) + "-" + Pad2(d.month) + "-" + Pad2(d.day)
  }

  /** Where the three parts of `y-m-d` sit, for two-digit `m` and `d`. */
  lemma {:induction false} DateParts(y: string, m: string, dd: string, mv: nat, dv: nat)
    requires |m| == 2 && AllDigits(m) && DigitsValue(m, 10) == mv
    requires |dd| == 2 && AllDigits(dd) && DigitsValue(dd, 10) == dv
    ensures var s := y + "-" + m + "-" + dd;
      |s| == |y| + 6 && s[|s| - 6] == '-' && s[|s| - 3] == '-' && s[..|s| - 6] == y &&
      AllDigits(s[|s| - 5..|s| - 3]) && DigitsValue(s[|s| - 5..|s| - 3], 10) == mv &&
      AllDigits(s[|s| - 2..]) && DigitsValue(s[|s| - 2..], 10) == dv
  {
    var s := y + "-" + m + "-" + dd;
    assert s[|s| - 5..|s| - 3] == m;
    assert s[|s| - 2..] == dd;
  }

  /**
   * The rendering is the year's decimal text, then the month (`getMonth() + 1`,
   * so 01 to 12) and the day, each as two digits, separated by dashes.
   */
  lemma FormatLayout(d: CivilDate)
    requires Valid(d)
    ensures var s := FormatYYYYMMDD(d);
      |s| >= 7 && s[|s| - 6] == '-' && s[|s| - 3] == '-' && s[..|s| - 6] == IntToString(d.year) &&
      AllDigits(s[|s| - 5..|s| - 3]) && DigitsValue(s[|s| - 5..|s| - 3], 10) == d.month &&
      1 <= DigitsValue(s[|s| - 5..|s| - 3], 10) <= 12 &&
      AllDigits(s[|s| - 2..]) && DigitsValue(s[|s| - 2..], 10) == d.day
  {
    var y, m, dd := IntToString(d.year), Pad2(d.month), Pad2(d.day);
    assert FormatYYYYMMDD(d) == y + "-" + m + "-" + dd;
    Pad2Digits(d.month);
    Pad2Digits(d.day);
    DateParts(y, m, dd, d.month, d.day);
  }

  /** Reads the three fields back from the end of a `YYYY-MM-DD` string. */
  function ParseYYYYMMDD(s: string): Option<CivilDate> {
    if |s| < 7 || s[|s| - 6] != '-' || s[|s| - 3] != '-' then None
    else
      var y, m, dd := ParseInt(s[..|s| - 6]), ParseInt(s[|s| - 5..|s| - 3]), ParseInt(s[|s| - 2..]);
      if y.Some? && m.Some? && dd.Some? then Some(CivilDate(y.value, m.value, dd.value)) else None
  }

  /** A string laid out as `formatYYYYMMDD` lays it out reads back to its fields. */
  lemma ReadBackLayout(s: string, y: int, m: nat, dd: nat)
    requires |s| >= 7 && s[|s| - 6] == '-' && s[|s| - 3] == '-'
    requires s[..|s| - 6] == IntToString(y)
    requires AllDigits(s[|s| - 5..|s| - 3]) && DigitsValue(s[|s| - 5..|s| - 3], 10) == m
    requires AllDigits(s[|s| - 2..]) && DigitsValue(s[|s| - 2..], 10) == dd
    ensures ParseYYYYMMDD(s) == Some(CivilDate(y, m, dd))
  {
    IntToStringRoundTrip(y);
    ParseIntOfDigits(s[|s| - 5..|s| - 3]);
    ParseIntOfDigits(s[|s| - 2..]);
  }

  /** The rendering loses nothing: every field is read back, whatever the year. */
  lemma FormatReadBack(d: CivilDate)
    requires Valid(d)
    ensures ParseYYYYMMDD(FormatYYYYMMDD(d)) == Some(d)
  {
    FormatLayout(d);
    ReadBackLayout(FormatYYYYMMDD(d), d.year, d.month, d.day);
  }

  /** Distinct dates render to distinct strings. */
  lemma FormatInjective(a: CivilDate, b: CivilDate)
    requires Valid(a) && Valid(b) && FormatYYYYMMDD(a) == FormatYYYYMMDD(b)
    ensures a == b
  {
    FormatReadBack(a);
    FormatReadBack(b);
  }

  predicate FourDigitYear(d: CivilDate) {
    1000 <= d.year <= 9999
  }

  /** A year with four digits gives a ten-character string. */
  lemma FormatLength(d: CivilDate)
    requires Valid(d) && FourDigitYear(d)
    ensures |FormatYYYYMMDD(d)| == 10
  {
    FormatLayout(d);
    NatToStringLength(d.year, 4);
  }

  /** Comparing `a-x` with `b-y` where `a` and `b` have equal lengths. */
  lemma LessAroundDash(a: string, x: string, b: string, y: string)
    requires |a| == |b|
    ensures Less(a + "-" + x, b + "-" + y) <==> Less(a, b) || (a == b && Less(x, y))
  {
    assert a + "-" + x == a + ("-" + x);
    assert b + "-" + y == b + ("-" + y);
    LessConcat(a, "-" + x, b, "-" + y);
    LessConcat("-", x, "-", y);
    LessIrreflexive("-");
  }

  lemma EqualAroundDash(a: string, x: string, b: string, y: string)
    requires |a| == |b|
    ensures a + "-" + x == b + "-" + y <==> a == b && x == y
  {
    if a + "-" + x == b + "-" + y {
      assert (a + "-" + x)[..|a|] == a && (b + "-" + y)[..|b|] == b;
      assert (a + "-" + x)[|a| + 1..] == x && (b + "-" + y)[|b| + 1..] == y;
    }
  }

  /** Two-digit and four-digit parts compare as their values do. */
  lemma LessFixedWidth(a: string, b: string, x: nat, y: nat)
    requires |a| == |b| && AllDigits(a) && AllDigits(b)
    requires DigitsValue(a, 10) == x && DigitsValue(b, 10) == y
    ensures Less(a, b) <==> x < y
    ensures a == b <==> x == y
  {
    LessDigits(a, b);
    if x == y {
      DigitsValueInjective(a, b);
    }
  }

  /** For four-digit years, string order of the renderings is chronological order. */
  lemma FormatOrder(a: CivilDate, b: CivilDate)
    requires Valid(a) && Valid(b) && FourDigitYear(a) && FourDigitYear(b)
    ensures Less(FormatYYYYMMDD(a), FormatYYYYMMDD(b)) <==> Before(a, b)
  {
    NatToStringLength(a.year, 4);
    NatToStringLength(b.year, 4);
    NatToStringValue(a.year);
    NatToStringValue(b.year);
    Pad2Digits(a.month);
    Pad2Digits(b.month);
    Pad2Digits(a.day);
    Pad2Digits(b.day);
    var ya, ma, da := NatToString(a.year), Pad2(a.month), Pad2(a.day);
    var yb, mb, db := NatToString(b.year), Pad2(b.month), Pad2(b.day);
    LessFixedWidth(ya, yb, a.year, b.year);
    LessFixedWidth(ma, mb, a.month, b.month);
    LessFixedWidth(da, db, a.day, b.day);
    LayoutOrder(ya, ma, da, yb, mb, db, a.year, a.month, a.day, b.year, b.month, b.day);
  }

  /** Order of two `y-m-d` layouts whose parts compare as the numbers they stand for. */
  lemma LayoutOrder(ya: string, ma: string, da: string, yb: string, mb: string, db: string,
                    y1: int, m1: int, d1: int, y2: int, m2: int, d2: int)
    requires |ya| == |yb| && |ma| == |mb| && |da| == |db|
    requires (Less(ya, yb) <==> y1 < y2) && (ya == yb <==> y1 == y2)
    requires (Less(ma, mb) <==> m1 < m2) && (ma == mb <==> m1 == m2)
    requires Less(da, db) <==> d1 < d2
    ensures Less(ya + "-" + ma + "-" + da, yb + "-" + mb + "-" + db) <==>
      y1 < y2 || (y1 == y2 && (m1 < m2 || (m1 == m2 && d1 < d2)))
  {
    LessAroundDash(ya + "-" + ma, da, yb + "-" + mb, db);
    LessAroundDash(ya, ma, yb, mb);
    EqualAroundDash(ya, ma, yb, mb);
  }

  /** The calendar day before `d`, as `setDate(getDate() - 1)` normalises it. */
  function PrevDay(d: CivilDate): (r: CivilDate)
    requires Valid(d)
    ensures Valid(r) && Before(r, d)
  {
    if d.day > 1 then CivilDate(d.year, d.month, d.day - 1)
    else if d.month > 1 then CivilDate(d.year, d.month - 1, DaysInMonth(d.year, d.month - 1))
    else CivilDate(d.year - 1, 12, 31)
  }

  /** No valid date lies strictly between `PrevDay(d)` and `d`. */
  lemma PrevDayImmediate(d: CivilDate, e: CivilDate)
    requires Valid(d) && Valid(e) && Before(e, d)
    ensures e == PrevDay(d) || Before(e, PrevDay(d))
  {
  }

  /** `subDays(date, n)`: `n` steps back by one day. */
  function SubDays(d: CivilDate, n: nat): (r: CivilDate)
    requires Valid(d)
    ensures Valid(r)
    decreases n
  {
    if n == 0 then d else PrevDay(SubDays(d, n - 1))
  }

  lemma BeforeTransitive(a: CivilDate, b: CivilDate, c: CivilDate)
    requires Before(a, b) && Before(b, c)
    ensures Before(a, c)
  {
  }

  /** Going back further gives a strictly earlier date. */
  lemma {:induction false} SubDaysStrictlyEarlier(d: CivilDate, m: nat, n: nat)
    requires Valid(d) && m < n
    ensures Before(SubDays(d, n), SubDays(d, m))
    decreases n
  {
    if n - 1 > m {
      SubDaysStrictlyEarlier(d, m, n - 1);
      BeforeTransitive(SubDays(d, n), SubDays(d, n - 1), SubDays(d, m));
    }
  }

  /** The contribution of the (March-based) year to the weekday sum. */
  function YearTerm(y: int): int {
    y + y / 4 - y / 100 + y / 400
  }

  /** Sakamoto's month offsets 0, 3, 2, 5, 0, 3, 5, 1, 4, 6, 2, 4. */
  function MonthOffset(m: int): int {
    if m == 1 then 0 else if m == 2 then 3 else if m == 3 then 2 else if m == 4 then 5
    else if m == 5 then 0 else if m == 6 then 3 else if m == 7 then 5 else if m == 8 then 1
    else if m == 9 then 4 else if m == 10 then 6 else if m == 11 then 2 else 4
  }

  /**
   * The weekday sum of Sakamoto's method: January and February count as
   * months of the previous year, so the leap day falls at the end of a year.
   */
  function WeekdaySum(d: CivilDate): int
    requires Valid(d)
  {
    var y := if d.month < 3 then d.year - 1 else d.year;
    YearTerm(y) + MonthOffset(d.month) + d.day
  }

  /** `getDay()`: 0 for Sunday through 6 for Saturday. */
  function DayOfWeek(d: CivilDate): (w: int)
    requires Valid(d)
    ensures 0 <= w < 7
  {
    WeekdaySum(d) % 7
  }

  lemma DivStep(y: int, k: int)
    requires k == 4 || k == 100 || k == 400
    ensures y / k - (y - 1) / k == if y % k == 0 then 1 else 0
  {
    if k == 4 {
    } else if k == 100 {
    } else {
    }
  }

  /** A multiple of 400 is one of 100, and a multiple of 100 one of 4. */
  lemma DivisibleChain(y: int)
    ensures y % 400 == 0 ==> y % 100 == 0
    ensures y % 100 == 0 ==> y % 4 == 0
  {
    if y % 400 == 0 {
      var q := y / 400;
      assert y == 100 * (4 * q);
      HundredsMod(4 * q);
    }
    if y % 100 == 0 {
      var q := y / 100;
      assert y == 4 * (25 * q);
      FoursMod(25 * q);
    }
  }

  lemma HundredsMod(q: int)
    ensures (100 * q) % 100 == 0
  {
  }

  lemma FoursMod(q: int)
    ensures (4 * q) % 4 == 0
  {
  }

  /** A year term grows by one, and by one more when the year is a leap year. */
  lemma YearTermStep(y: int)
    ensures YearTerm(y) - YearTerm(y - 1) == if IsLeapYear(y) then 2 else 1
  {
    DivStep(y, 4);
    DivStep(y, 100);
    DivStep(y, 400);
    DivisibleChain(y);
    var a, b, c := y / 4 - (y - 1) / 4, y / 100 - (y - 1) / 100, y / 400 - (y - 1) / 400;
    assert YearTerm(y) - YearTerm(y - 1) == 1 + a - b + c;
  }

  lemma Mod7Shift(a: int, b: int, c: int)
    requires a == b + 1 + 7 * c
    ensures b % 7 == (a % 7 + 6) % 7
  {
  }

  /** Stepping back across a month boundary inside one March-based year. */
  lemma MonthBoundaryShift(m: int)
    requires 2 <= m <= 12 && m != 3
    ensures MonthOffset(m) + 1 == MonthOffset(m - 1) + DaysInMonth(0, m - 1) + 1 + 7 * (if m == 5 || m == 8 || m == 11 then -5 else -4)
  {
  }

  /**
   * Fixed points of the calendar, with 0 for Sunday as in `getDay()`:
   * 1 January 1970 was a Thursday, 1 January 2000 a Saturday and
   * 29 February 2024 a Thursday.
   */
  lemma WeekdayAnchor()
    ensures DayOfWeek(CivilDate(1970, 1, 1)) == 4
    ensures DayOfWeek(CivilDate(2000, 1, 1)) == 6
    ensures DayOfWeek(CivilDate(2024, 2, 29)) == 4
  {
  }

  /** The day before is one step earlier in the week. */
  lemma DayOfWeekPrevDay(d: CivilDate)
    requires Valid(d)
    ensures DayOfWeek(PrevDay(d)) == (DayOfWeek(d) + 6) % 7
  {
    var p := PrevDay(d);
    if d.day > 1 {
      Mod7Shift(WeekdaySum(d), WeekdaySum(p), 0);
    } else if d.month == 1 {
      Mod7Shift(WeekdaySum(d), WeekdaySum(p), -5);
    } else if d.month == 3 {
      YearTermStep(d.year);
      Mod7Shift(WeekdaySum(d), WeekdaySum(p), -4);
    } else {
      MonthBoundaryShift(d.month);
      assert DaysInMonth(d.year, d.month - 1) == DaysInMonth(0, d.month - 1);
      Mod7Shift(WeekdaySum(d), WeekdaySum(p), if d.month == 5 || d.month == 8 || d.month == 11 then -5 else -4);
    }
  }
}
