/**
 * The date picker: the month grid it draws, its min/max bounds, and the
 * click on a day of the grid.
 */
module DatePicker {
  import opened Wrappers
  import opened JsText
  import opened DateUtils

  /** `firstDay.getDay()`: the weekday column of the first of the month. */
  function FirstWeekday(year: int, month: int): (w: int)
    requires 1 <= month <= 12
    ensures 0 <= w <= 6
  {
    DayOfWeek(CivilDate(year, month, 1))
  }

  /**
   * The grid of `getDaysInMonth`: `FirstWeekday` empty cells, then one cell
   * per day of the month, in order.
   */
  ghost predicate IsMonthGrid(days: seq<Option<CivilDate>>, year: int, month: int)
    requires 1 <= month <= 12
  {
    var blanks := FirstWeekday(year, month);
    |days| == blanks + DaysInMonth(year, month) &&
    (forall i :: 0 <= i < blanks ==> days[i].None?) &&
    (forall i :: blanks <= i < |days| ==> days[i] == Some(CivilDate(year, month, i - blanks + 1)))
  }

  /** `getDaysInMonth`: the leading empty days, then the days of the month. */
  method GetDaysInMonth(year: int, month: int) returns (days: seq<Option<CivilDate>>)
    requires 1 <= month <= 12
    ensures IsMonthGrid(days, year, month)
  {
    var firstDay := FirstWeekday(year, month);
    var lastDay := DaysInMonth(year, month);
    days := [];
    var i := 0;
    while i < firstDay
      invariant 0 <= i <= firstDay
      invariant |days| == i
      invariant forall k :: 0 <= k < i ==> days[k].None?
    {
      days := days + [None];
      i := i + 1;
    }
    var day := 1;
    while day <= lastDay
      invariant 1 <= day <= lastDay + 1
      invariant |days| == firstDay + day - 1
      invariant forall k :: 0 <= k < firstDay ==> days[k].None?
      invariant forall k :: firstDay <= k < |days| ==> days[k] == Some(CivilDate(year, month, k - firstDay + 1))
    {
      days := days + [Some(CivilDate(year, month, day))];
      day := day + 1;
    }
  }

  lemma ModShift(a: int, b: int)
    ensures (a + b) % 7 == (a % 7 + b) % 7
  {
    var q := a / 7;
    assert a == 7 * q + a % 7;
    assert a + b == 7 * q + (a % 7 + b);
  }

  /** Within a month, each day is one weekday after the day before it. */
  lemma WeekdayInMonth(year: int, month: int, day: int)
    requires Valid(CivilDate(year, month, day))
    ensures DayOfWeek(CivilDate(year, month, day)) == (FirstWeekday(year, month) + day - 1) % 7
  {
    var first := CivilDate(year, month, 1);
    assert WeekdaySum(CivilDate(year, month, day)) == WeekdaySum(first) + (day - 1);
    ModShift(WeekdaySum(first), day - 1);
  }

  /**
   * Every date of the grid is a real date of the month shown, and it sits
   * in the column of its weekday: cell `i` is drawn under `daysOfWeek[i % 7]`.
   */
  lemma GridColumnsAreWeekdays(days: seq<Option<CivilDate>>, year: int, month: int, i: int)
    requires 1 <= month <= 12 && IsMonthGrid(days, year, month) && 0 <= i < |days| && days[i].Some?
    ensures Valid(days[i].value) && days[i].value.year == year && days[i].value.month == month
    ensures DayOfWeek(days[i].value) == i % 7
  {
    var d := i - FirstWeekday(year, month) + 1;
    assert days[i] == Some(CivilDate(year, month, d));
    WeekdayInMonth(year, month, d);
  }

  /** Each day of the month appears in the grid exactly once. */
  lemma GridHoldsEachDayOnce(days: seq<Option<CivilDate>>, year: int, month: int, day: int)
    requires 1 <= month <= 12 && IsMonthGrid(days, year, month) && Valid(CivilDate(year, month, day))
    ensures var k := FirstWeekday(year, month) + day - 1;
      0 <= k < |days| && days[k] == Some(CivilDate(year, month, day)) &&
      forall j :: 0 <= j < |days| && j != k ==> days[j] != Some(CivilDate(year, month, day))
  {
  }

  /** A bound is in force when it is given and not empty, as `minDate &&` has it. */
  predicate Given(bound: Option<string>) {
    bound.Some? && bound.value != ""
  }

  /** `isDateDisabled`, on the `YYYY-MM-DD` rendering of a date of the grid. */
  function IsDateDisabled(date: CivilDate, minDate: Option<string>, maxDate: Option<string>): (r: bool)
    requires Valid(date)
    ensures r <==> (Given(minDate) && Less(FormatYYYYMMDD(date), minDate.value)) ||
                   (Given(maxDate) && Less(maxDate.value, FormatYYYYMMDD(date)))
  {
    var dateStr := FormatYYYYMMDD(date);
    if Given(minDate) && Less(dateStr, minDate.value) then true
    else if Given(maxDate) && Less(maxDate.value, dateStr) then true
    else false
  }

  /**
   * With bounds that are themselves rendered dates, a day is disabled
   * exactly when it lies before the first or after the last allowed day.
   */
  lemma DisabledOutsideRange(date: CivilDate, first: CivilDate, last: CivilDate)
    requires Valid(date) && Valid(first) && Valid(last)
    requires FourDigitYear(date) && FourDigitYear(first) && FourDigitYear(last)
    ensures IsDateDisabled(date, Some(FormatYYYYMMDD(first)), Some(FormatYYYYMMDD(last))) <==>
      Before(date, first) || Before(last, date)
  {
    FormatLength(first);
    FormatLength(last);
    FormatOrder(date, first);
    FormatOrder(last, date);
  }

  /** With no bounds, no day is disabled. */
  lemma NoBoundsNothingDisabled(date: CivilDate)
    requires Valid(date)
    ensures !IsDateDisabled(date, None, Some(""))
    ensures !IsDateDisabled(date, None, None)
  {
  }

  /** The picker's open flag. */
  class DatePickerState {
    var isOpen: bool

    constructor ()
      ensures !isOpen
    {
      isOpen := false;
    }

    /**
     * `handleDateClick`: an allowed day is handed to `onChange` as its
     * rendering and closes the picker; a disabled day does nothing.
     */
    method HandleDateClick(date: CivilDate, minDate: Option<string>, maxDate: Option<string>)
      returns (emitted: Option<string>)
      requires Valid(date)
      modifies this
      ensures IsDateDisabled(date, minDate, maxDate) ==> emitted.None? && isOpen == old(isOpen)
      ensures !IsDateDisabled(date, minDate, maxDate) ==> emitted == Some(FormatYYYYMMDD(date)) && !isOpen
    {
      if !IsDateDisabled(date, minDate, maxDate) {
        emitted := Some(FormatYYYYMMDD(date));
        isOpen := false;
      } else {
        emitted := None;
      }
    }
  }
}
