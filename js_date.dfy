/**
 * Dates as the bot builds them: `parseDate` (`new Date(year, month - 1, day)`) and the step
 * back of two days in `createCalendarEvent`. A Date is modelled by the number of its local
 * day counted from 1 January 1970, with the day arithmetic of the ECMAScript standard
 * (DayFromYear, MakeDay, TimeClip): a day or month out of range is rolled over into the
 * neighbouring months and years rather than refused.
 */
module JsDate {
  import opened DateText

  predicate IsLeapYear(y: int) {
    y % 4 == 0 && (y % 100 != 0 || y % 400 == 0)
  }

  function DaysInYear(y: int): int {
    if IsLeapYear(y) then 366 else 365
  }

  function DaysInMonth(y: int, m: int): int
    requires 1 <= m <= 12
  {
    if m == 2 then (if IsLeapYear(y) then 29 else 28)
    else if m == 4 || m == 6 || m == 9 || m == 11 then 30
    else 31
  }

  /** Day d of month m (1 = January) of year y exists in the Gregorian calendar. */
  predicate IsCalendarDate(y: int, m: int, d: int) {
    1 <= m <= 12 && 1 <= d <= DaysInMonth(y, m)
  }

  /** Day number of 1 January of year y (ECMAScript DayFromYear); Dafny's `/` by a positive constant is the floor. */
  function DayFromYear(y: int): int {
    365 * (y - 1970) + (y - 1969) / 4 - (y - 1901) / 100 + (y - 1601) / 400
  }

  /** Days from 1 January to the first of month mn (0 = January) of year y. */
  function DaysBeforeMonth(y: int, mn: int): int
    requires 0 <= mn < 12
  {
    [0, 31, 59, 90, 120, 151, 181, 212, 243, 273, 304, 334][mn] + (if mn >= 2 && IsLeapYear(y) then 1 else 0)
  }

  /** Day number of a calendar date, counted within its year. */
  function DayNumber(y: int, m: int, d: int): int
    requires 1 <= m <= 12
  {
    DayFromYear(y) + DaysBeforeMonth(y, m - 1) + d - 1
  }

  /** ECMAScript MakeDay on integers: the 0-based month may lie outside 0..11 and the date outside the month. */
  function MakeDay(year: int, month: int, date: int): int {
    var ym := year + month / 12;
    var mn := month % 12;
    DayFromYear(ym) + DaysBeforeMonth(ym, mn) + date - 1
  }

  /** A Date value: invalid (a NaN time value) or local midnight of a day number. */
  datatype DateValue = InvalidDate | LocalDay(day: int)

  /** TimeClip: a time value is kept within 8.64e15 ms, that is 10^8 days, of the epoch. */
  const MaxDay: int := 100000000

  function TimeClip(day: int): DateValue {
    if -MaxDay <= day <= MaxDay then LocalDay(day) else InvalidDate
  }

  /** `new Date(year, monthIndex, day)` on integers: a year from 0 to 99 stands for 1900 to 1999. */
  function NewDate(year: int, monthIndex: int, day: int): DateValue {
    var fullYear := if 0 <= year <= 99 then 1900 + year else year;
    TimeClip(MakeDay(fullYear, monthIndex, day))
  }

  /** `Number` applied to a string of decimal digits. */
  function DigitsValue(s: string): nat
    requires AllDigits(s)
  {
    if s == [] then 0 else 10 * DigitsValue(s[..|s| - 1]) + (s[|s| - 1] - '0') as int
  }

  /** The strings `parseDate` is given: what the two date normalisers return. */
  ghost predicate IsNormalisedDate(s: string) {
    DayMonthYear(s, '/') || DayMonthYear(s, '-')
  }

  /**
   * `parseDate`: split on '/', read the three pieces as numbers, build the local date.
   * A dash-separated date is one piece, so the month and year are NaN and the date is invalid.
   */
  function ParseDate(fecha: string): DateValue
    requires IsNormalisedDate(fecha)
  {
    if fecha[2] == '/' then
      NewDate(DigitsValue(fecha[6..10]), DigitsValue(fecha[3..5]) - 1, DigitsValue(fecha[0..2]))
    else
      InvalidDate
  }

  /** `setDate(getDate() - 2)`: the same local time two days earlier; an invalid date stays invalid. */
  function TwoDaysEarlier(d: DateValue): DateValue {
    match d
    case InvalidDate => InvalidDate
    case LocalDay(n) => TimeClip(n - 2)
  }

  /** The reminder's instant in `createCalendarEvent`. */
  function ReminderDate(expiration: string): DateValue
    requires IsNormalisedDate(expiration)
  {
    TwoDaysEarlier(ParseDate(expiration))
  }

  // ---------------------------------------------------------------------------
  // The calendar behind the day numbers
  // ---------------------------------------------------------------------------

  /** A year is as long as the calendar says: 366 days in a leap year, 365 otherwise. */
  lemma {:induction false} YearLength(y: int)
    ensures DayFromYear(y + 1) - DayFromYear(y) == DaysInYear(y)
  {
    QuadrennialStep(y);
    CenturyStep(y);
    QuadricentennialStep(y);
    if y % 100 == 0 {
      CenturyIsQuadrennial(y);
    }
    if y % 400 == 0 {
      QuadricentennialIsCentury(y);
    }
    assert DayFromYear(y + 1) == 365 * (y - 1969) + (y - 1968) / 4 - (y - 1900) / 100 + (y - 1600) / 400;
  }

  /** One more leap day from the four-year rule is counted exactly when y is a multiple of 4. */
  lemma QuadrennialStep(y: int)
    ensures (y - 1968) / 4 - (y - 1969) / 4 == if y % 4 == 0 then 1 else 0
  {
    var q, r := (y - 1969) / 4, (y - 1969) % 4;
    assert y == 4 * (q + 492) + r + 1;
    if r == 3 {
      assert y - 1968 == 4 * (q + 1) && y == 4 * (q + 493);
    } else {
      assert y - 1968 == 4 * q + (r + 1) && y == 4 * (q + 492) + (r + 1);
    }
  }

  lemma CenturyIsQuadrennial(y: int)
    requires y % 100 == 0
    ensures y % 4 == 0
  {
    assert y == 4 * (25 * (y / 100));
  }

  lemma QuadricentennialIsCentury(y: int)
    requires y % 400 == 0
    ensures y % 100 == 0
  {
    assert y == 100 * (4 * (y / 400));
  }

  /** One leap day fewer from the century rule is counted exactly when y is a multiple of 100. */
  lemma CenturyStep(y: int)
    ensures (y - 1900) / 100 - (y - 1901) / 100 == if y % 100 == 0 then 1 else 0
  {
    var q, r := (y - 1901) / 100, (y - 1901) % 100;
    assert y == 100 * (q + 19) + r + 1;
    if r == 99 {
      assert y - 1900 == 100 * (q + 1) && y == 100 * (q + 20);
    } else {
      assert y - 1900 == 100 * q + (r + 1) && y == 100 * (q + 19) + (r + 1);
    }
  }

  /** One more leap day from the 400-year rule is counted exactly when y is a multiple of 400. */
  lemma QuadricentennialStep(y: int)
    ensures (y - 1600) / 400 - (y - 1601) / 400 == if y % 400 == 0 then 1 else 0
  {
    var q, r := (y - 1601) / 400, (y - 1601) % 400;
    assert y == 400 * (q + 4) + r + 1;
    if r == 399 {
      assert y - 1600 == 400 * (q + 1) && y == 400 * (q + 5);
    } else {
      assert y - 1600 == 400 * q + (r + 1) && y == 400 * (q + 4) + (r + 1);
    }
  }

  /** Two calendar dates are in the order of their day numbers. */
  lemma {:induction false} DayNumberOrder(y1: int, m1: int, d1: int, y2: int, m2: int, d2: int)
    requires IsCalendarDate(y1, m1, d1) && IsCalendarDate(y2, m2, d2)
    requires y1 < y2 || (y1 == y2 && (m1 < m2 || (m1 == m2 && d1 < d2)))
    ensures DayNumber(y1, m1, d1) < DayNumber(y2, m2, d2)
    decreases y2 - y1
  {
    if y1 < y2 {
      YearLength(y1);
      assert DayNumber(y1, m1, d1) < DayFromYear(y1 + 1);
      if y1 + 1 < y2 {
        DayNumberOrder(y1 + 1, 1, 1, y2, m2, d2);
      }
    }
  }

  /** A day number names at most one calendar date. */
  lemma DayNumberInjective(y1: int, m1: int, d1: int, y2: int, m2: int, d2: int)
    requires IsCalendarDate(y1, m1, d1) && IsCalendarDate(y2, m2, d2)
    requires DayNumber(y1, m1, d1) == DayNumber(y2, m2, d2)
    ensures y1 == y2 && m1 == m2 && d1 == d2
  {
    if y1 < y2 || (y1 == y2 && (m1 < m2 || (m1 == m2 && d1 < d2))) {
      DayNumberOrder(y1, m1, d1, y2, m2, d2);
    } else if y2 < y1 || (y1 == y2 && (m2 < m1 || (m1 == m2 && d2 < d1))) {
      DayNumberOrder(y2, m2, d2, y1, m1, d1);
    }
  }

  /** A date of the Gregorian calendar: year, month (1 = January) and day of the month. */
  datatype CalendarDate = CalendarDate(year: int, month: int, day: int)

  /** The calendar date two days before a calendar date, borrowing from the month and the year. */
  function TwoDaysBefore(y: int, m: int, d: int): (r: CalendarDate)
    requires IsCalendarDate(y, m, d)
    ensures IsCalendarDate(r.year, r.month, r.day)
  {
    if d > 2 then CalendarDate(y, m, d - 2)
    else if m > 1 then CalendarDate(y, m - 1, DaysInMonth(y, m - 1) + d - 2)
    else CalendarDate(y - 1, 12, 31 + d - 2)
  }

  /** Two days back in day numbers is two days back in the calendar, across month and year ends. */
  lemma TwoDaysBackBorrows(y: int, m: int, d: int)
    requires IsCalendarDate(y, m, d)
    ensures var r := TwoDaysBefore(y, m, d); DayNumber(y, m, d) - 2 == DayNumber(r.year, r.month, r.day)
  {
    if d <= 2 && m == 1 {
      YearLength(y - 1);
    }
  }

  /** For a month from 1 to 12, the month index `m - 1` needs no roll-over. */
  lemma MakeDayOfCalendarDate(y: int, m: int, d: int)
    requires 1 <= m <= 12
    ensures MakeDay(y, m - 1, d) == DayNumber(y, m, d)
  {
  }

  // ---------------------------------------------------------------------------
  // parseDate and the reminder
  // ---------------------------------------------------------------------------

  /** The three numbers `parseDate` reads from a slash-separated date. */
  function Fields(s: string): CalendarDate
    requires DayMonthYear(s, '/')
  {
    CalendarDate(DigitsValue(s[6..10]), DigitsValue(s[3..5]), DigitsValue(s[0..2]))
  }

  function DigitAt(s: string, k: nat): int
    requires k < |s|
  {
    s[k] as int - '0' as int
  }

  /** `Number` reads the last digit as units and the rest as tens. */
  lemma DigitsValueLast(s: string)
    requires AllDigits(s) && s != []
    ensures AllDigits(s[..|s| - 1])
    ensures DigitsValue(s) == 10 * DigitsValue(s[..|s| - 1]) + DigitAt(s, |s| - 1)
  {
  }

  lemma TwoDigitsValue(s: string)
    requires AllDigits(s) && |s| == 2
    ensures DigitsValue(s) == 10 * DigitAt(s, 0) + DigitAt(s, 1)
  {
    DigitsValueLast(s);
    DigitsValueLast(s[..1]);
    assert s[..1][..0] == [];
  }

  lemma FourDigitsValue(s: string)
    requires AllDigits(s) && |s| == 4
    ensures DigitsValue(s) == 1000 * DigitAt(s, 0) + 100 * DigitAt(s, 1) + 10 * DigitAt(s, 2) + DigitAt(s, 3)
  {
    DigitsValueLast(s);
    TwoDigitsValue(s[..2]);
    DigitsValueLast(s[..3]);
    assert s[..3][..2] == s[..2];
  }

  /** DD/MM/YYYY checked character by character. */
  lemma DayMonthYearByChars(s: string)
    requires |s| == 10 && s[2] == '/' && s[5] == '/'
    requires IsDigit(s[0]) && IsDigit(s[1]) && IsDigit(s[3]) && IsDigit(s[4])
    requires IsDigit(s[6]) && IsDigit(s[7]) && IsDigit(s[8]) && IsDigit(s[9])
    ensures DayMonthYear(s, '/')
  {
    assert s[0..2] == [s[0], s[1]] && s[3..5] == [s[3], s[4]] && s[6..10] == [s[6], s[7], s[8], s[9]];
  }

  /** The numbers of a date written as digits, place by place. */
  lemma FieldsByDigits(s: string)
    requires DayMonthYear(s, '/')
    ensures Fields(s).day == 10 * DigitAt(s, 0) + DigitAt(s, 1)
    ensures Fields(s).month == 10 * DigitAt(s, 3) + DigitAt(s, 4)
    ensures Fields(s).year == 1000 * DigitAt(s, 6) + 100 * DigitAt(s, 7) + 10 * DigitAt(s, 8) + DigitAt(s, 9)
  {
    TwoDigitsValue(s[0..2]);
    TwoDigitsValue(s[3..5]);
    FourDigitsValue(s[6..10]);
  }

  lemma DigitsValueBound(s: string)
    requires AllDigits(s)
    ensures DigitsValue(s) < Power10(|s|)
  {
    if s != [] {
      DigitsValueBound(s[..|s| - 1]);
    }
  }

  function Power10(n: nat): nat {
    if n == 0 then 1 else 10 * Power10(n - 1)
  }

  lemma FieldsBound(s: string)
    requires DayMonthYear(s, '/')
    ensures var f := Fields(s); 0 <= f.day < 100 && 0 <= f.month < 100 && 0 <= f.year < 10000
  {
    DigitsValueBound(s[0..2]);
    DigitsValueBound(s[3..5]);
    DigitsValueBound(s[6..10]);
    assert Power10(2) == 100 && Power10(4) == 10000;
  }

  /** Every slash-separated date of digits becomes a valid Date, and so does its reminder. */
  lemma SlashDatesAreValid(s: string)
    requires DayMonthYear(s, '/')
    ensures ParseDate(s).LocalDay? && ReminderDate(s).LocalDay?
  {
    FieldsBound(s);
  }

  /** A dash-separated date, as the OCR scanner may return it, never becomes a valid Date. */
  lemma DashDatesAreInvalid(s: string)
    requires DayMonthYear(s, '-')
    ensures ParseDate(s) == InvalidDate && ReminderDate(s) == InvalidDate
  {
  }

  /** DD/MM/YYYY naming a calendar date from year 100 on parses to that very date. */
  lemma ParseCalendarDate(s: string)
    requires DayMonthYear(s, '/')
    requires IsCalendarDate(Fields(s).year, Fields(s).month, Fields(s).day) && Fields(s).year >= 100
    ensures ParseDate(s) == LocalDay(DayNumber(Fields(s).year, Fields(s).month, Fields(s).day))
  {
    FieldsBound(s);
    MakeDayOfCalendarDate(Fields(s).year, Fields(s).month, Fields(s).day);
  }

  /** The reminder falls exactly two calendar days before the expiration date. */
  lemma ReminderIsTwoDaysBefore(s: string)
    requires DayMonthYear(s, '/')
    requires IsCalendarDate(Fields(s).year, Fields(s).month, Fields(s).day) && Fields(s).year >= 100
    ensures var f := Fields(s); var r := TwoDaysBefore(f.year, f.month, f.day);
            ReminderDate(s) == LocalDay(DayNumber(r.year, r.month, r.day))
  {
    var f := Fields(s);
    ParseCalendarDate(s);
    TwoDaysBackBorrows(f.year, f.month, f.day);
    FieldsBound(s);
  }

  /** The reminder of 15/03/2026 is 13 March 2026. */
  lemma ReminderMidMonth()
    ensures ReminderDate("15/03/2026") == LocalDay(DayNumber(2026, 3, 13))
  {
    var s := "15/03/2026";
    DayMonthYearByChars(s);
    FieldsByDigits(s);
    assert Fields(s) == CalendarDate(2026, 3, 15);
    ReminderIsTwoDaysBefore(s);
  }

  /** The reminder of 01/03/2026 borrows from February: 27 February 2026. */
  lemma ReminderBorrowsMonth()
    ensures ReminderDate("01/03/2026") == LocalDay(DayNumber(2026, 2, 27))
  {
    var s := "01/03/2026";
    DayMonthYearByChars(s);
    FieldsByDigits(s);
    assert Fields(s) == CalendarDate(2026, 3, 1);
    ReminderIsTwoDaysBefore(s);
  }

  /** The reminder of 01/01/2026 borrows from the year before: 30 December 2025. */
  lemma ReminderBorrowsYear()
    ensures ReminderDate("01/01/2026") == LocalDay(DayNumber(2025, 12, 30))
  {
    var s := "01/01/2026";
    DayMonthYearByChars(s);
    FieldsByDigits(s);
    assert Fields(s) == CalendarDate(2026, 1, 1);
    ReminderIsTwoDaysBefore(s);
  }

  /** Nothing checks the calendar: 31/02/2026 rolls over to 3 March 2026. */
  lemma DayRollsOver()
    ensures ParseDate("31/02/2026") == LocalDay(DayNumber(2026, 3, 3))
  {
    var s := "31/02/2026";
    DayMonthYearByChars(s);
    FieldsByDigits(s);
    assert Fields(s) == CalendarDate(2026, 2, 31);
    MakeDayOfCalendarDate(2026, 2, 31);
    assert DayNumber(2026, 2, 31) == DayNumber(2026, 3, 3);
  }

  /** Month 13 rolls over into the next year: 01/13/2026 is 1 January 2027. */
  lemma MonthRollsOver()
    ensures ParseDate("01/13/2026") == LocalDay(DayNumber(2027, 1, 1))
  {
    var s := "01/13/2026";
    DayMonthYearByChars(s);
    FieldsByDigits(s);
    assert Fields(s) == CalendarDate(2026, 13, 1);
    assert MakeDay(2026, 12, 1) == DayFromYear(2027);
  }

  /** A year written 0000 to 0099 is read as 1900 to 1999: 01/01/0050 is 1 January 1950. */
  lemma TwoDigitYearExample()
    ensures ParseDate("01/01/0050") == LocalDay(DayNumber(1950, 1, 1))
  {
    var s := "01/01/0050";
    DayMonthYearByChars(s);
    FieldsByDigits(s);
    assert Fields(s) == CalendarDate(50, 1, 1);
    assert ParseDate(s) == NewDate(50, 0, 1);
    MakeDayOfCalendarDate(1950, 1, 1);
    assert DayNumber(1950, 1, 1) == DayFromYear(1950) == -7305;
  }
}
