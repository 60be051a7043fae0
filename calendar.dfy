/**
 * JavaScript `Date` values at day resolution, in the proleptic Gregorian calendar. A date
 * is a civil date with the JavaScript month convention (0 = January); `MakeDay` is the day
 * number the ECMAScript algorithm of the same name gives (days since 1970-01-01), and it
 * accepts any day of month, so `setDate(0)` or `setDate(45)` roll over into the
 * neighbouring months exactly as `Date` does.
 */
module Calendar {

  datatype Date = Date(year: int, month: int, day: int)

  predicate IsLeapYear(y: int) {
    y % 4 == 0 && (y % 100 != 0 || y % 400 == 0)
  }

  function DaysInMonth(y: int, m: int): (n: int)
    requires 0 <= m < 12
    ensures 28 <= n <= 31
  {
    if m == 1 then (if IsLeapYear(y) then 29 else 28)
    else if m == 3 || m == 5 || m == 8 || m == 10 then 30
    else 31
  }

  /** Days of year `y` before the first of month `m`. */
  function DaysBeforeMonth(y: int, m: int): int
    requires 0 <= m < 12
  {
    [0, 31, 59, 90, 120, 151, 181, 212, 243, 273, 304, 334][m]
      + (if m >= 2 && IsLeapYear(y) then 1 else 0)
  }

  /** Day number of January 1 of year `y` (ECMAScript DayFromYear). */
  function DayFromYear(y: int): int {
    365 * (y - 1970) + (y - 1969) / 4 - (y - 1901) / 100 + (y - 1601) / 400
  }

  /** ECMAScript MakeDay: the month is normalised into a year, the day is an offset. */
  function MakeDay(y: int, m: int, d: int): int {
    var ym := y + m / 12;
    var mn := m % 12;
    DayFromYear(ym) + DaysBeforeMonth(ym, mn) + d - 1
  }

  predicate Valid(date: Date) {
    0 <= date.month < 12 && 1 <= date.day <= DaysInMonth(date.year, date.month)
  }

  /** The dates a `Date` object can hold. */
  type ValidDate = d: Date | Valid(d) witness Date(1970, 0, 1)

  /** Days since 1970-01-01 of a date whose month is in range; agrees with `MakeDay`. */
  function DayNumber(date: Date): int
    requires 0 <= date.month < 12
  {
    FirstOfMonth(date.year, date.month) + date.day - 1
  }

  /** A year is 365 days long, 366 in a leap year. */
  lemma YearLength(y: int)
    ensures DayFromYear(y + 1) == DayFromYear(y) + (if IsLeapYear(y) then 366 else 365)
  {
    Step4(y);
    Step100(y);
    Step400(y);
    LeapDivisors(y);
    assert DayFromYear(y + 1) - DayFromYear(y)
        == 365 + ((y - 1968) / 4 - (y - 1969) / 4) - ((y - 1900) / 100 - (y - 1901) / 100)
           + ((y - 1600) / 400 - (y - 1601) / 400);
  }

  lemma LeapDivisors(y: int)
    ensures y % 100 == 0 ==> y % 4 == 0
    ensures y % 400 == 0 ==> y % 100 == 0
  {
    if y % 100 == 0 {
      assert y == 4 * (25 * (y / 100));
    }
    if y % 400 == 0 {
      assert y == 100 * (4 * (y / 400));
    }
  }

  lemma Step4(y: int)
    ensures (y - 1968) / 4 - (y - 1969) / 4 == (if y % 4 == 0 then 1 else 0)
  {
  }

  lemma Step100(y: int)
    ensures (y - 1900) / 100 - (y - 1901) / 100 == (if y % 100 == 0 then 1 else 0)
  {
  }

  lemma Step400(y: int)
    ensures (y - 1600) / 400 - (y - 1601) / 400 == (if y % 400 == 0 then 1 else 0)
  {
  }

  /** Day number of the first of month `m` of year `y`. */
  function FirstOfMonth(y: int, m: int): int
    requires 0 <= m < 12
  {
    DayFromYear(y) + DaysBeforeMonth(y, m)
  }

  /** For a month within the year, MakeDay counts days from the first of that month. */
  lemma MakeDayInYear(y: int, m: int, d: int)
    requires 0 <= m < 12
    ensures MakeDay(y, m, d) == FirstOfMonth(y, m) + d - 1
  {
    assert m / 12 == 0 && m % 12 == m;
  }

  /** The first of the next month comes `DaysInMonth` days after the first of this one. */
  lemma NextMonthStart(y: int, m: int)
    requires 0 <= m < 12
    ensures m < 11 ==> FirstOfMonth(y, m + 1) == FirstOfMonth(y, m) + DaysInMonth(y, m)
    ensures m == 11 ==> FirstOfMonth(y + 1, 0) == FirstOfMonth(y, m) + DaysInMonth(y, m)
  {
    if m == 11 {
      YearLength(y);
    }
  }

  /**
   * The valid date `Date` arrives at for year `y`, month `m` and a day of month that may lie
   * outside the month: days before the first borrow from the previous months, days after the
   * last carry into the next ones.
   */
  function Normalize(y: int, m: int, d: int): (r: Date)
    requires 0 <= m < 12
    ensures Valid(r)
    decreases if d < 1 then 1 - d else 0, if d < 1 then 0 else d
  {
    if d < 1 then
      var py := if m == 0 then y - 1 else y;
      var pm := if m == 0 then 11 else m - 1;
      Normalize(py, pm, d + DaysInMonth(py, pm))
    else if d > DaysInMonth(y, m) then
      var ny := if m == 11 then y + 1 else y;
      var nm := if m == 11 then 0 else m + 1;
      Normalize(ny, nm, d - DaysInMonth(y, m))
    else
      Date(y, m, d)
  }

  /** Normalising never moves the day: it only renames it. */
  lemma {:induction false} NormalizeKeepsDay(y: int, m: int, d: int)
    requires 0 <= m < 12
    ensures DayNumber(Normalize(y, m, d)) == FirstOfMonth(y, m) + d - 1
    decreases if d < 1 then 1 - d else 0, if d < 1 then 0 else d, 1
  {
    if d < 1 {
      NormalizeKeepsDayBefore(y, m, d);
    } else if d > DaysInMonth(y, m) {
      NormalizeKeepsDayAfter(y, m, d);
    }
  }

  /** A day before the first is a day of the previous month, counted from its end. */
  lemma {:induction false} NormalizeKeepsDayBefore(y: int, m: int, d: int)
    requires 0 <= m < 12 && d < 1
    ensures DayNumber(Normalize(y, m, d)) == FirstOfMonth(y, m) + d - 1
    decreases 1 - d, 0, 0
  {
    var py := if m == 0 then y - 1 else y;
    var pm := if m == 0 then 11 else m - 1;
    assert Normalize(y, m, d) == Normalize(py, pm, d + DaysInMonth(py, pm));
    NormalizeKeepsDay(py, pm, d + DaysInMonth(py, pm));
    NextMonthStart(py, pm);
    assert FirstOfMonth(y, m) == FirstOfMonth(py, pm) + DaysInMonth(py, pm);
  }

  /** A day after the last is a day of the next month. */
  lemma {:induction false} NormalizeKeepsDayAfter(y: int, m: int, d: int)
    requires 0 <= m < 12 && d > DaysInMonth(y, m)
    ensures DayNumber(Normalize(y, m, d)) == FirstOfMonth(y, m) + d - 1
    decreases 0, d, 0
  {
    var ny := if m == 11 then y + 1 else y;
    var nm := if m == 11 then 0 else m + 1;
    assert Normalize(y, m, d) == Normalize(ny, nm, d - DaysInMonth(y, m));
    NormalizeKeepsDay(ny, nm, d - DaysInMonth(y, m));
    NextMonthStart(y, m);
    assert FirstOfMonth(ny, nm) == FirstOfMonth(y, m) + DaysInMonth(y, m);
  }

  lemma NormalizeInMonth(y: int, m: int, d: int)
    requires 0 <= m < 12
    ensures 1 <= d <= DaysInMonth(y, m) ==> Normalize(y, m, d) == Date(y, m, d)
  {
  }

  /** A valid date is left as it is. */
  lemma NormalizeValid(date: Date)
    requires Valid(date)
    ensures Normalize(date.year, date.month, date.day) == date
  {
  }

  /** The value `date.setDate(d)` gives: same year and month, day of month `d`, rolled over as needed. */
  function WithDate(date: Date, d: int): (r: Date)
    requires Valid(date)
    ensures Valid(r)
    ensures 1 <= d <= DaysInMonth(date.year, date.month) ==> r == Date(date.year, date.month, d)
    ensures d == 0 ==> r == LastOfMonth(if date.month == 0 then date.year - 1 else date.year,
                                        if date.month == 0 then 11 else date.month - 1)
  {
    var py, pm := if date.month == 0 then date.year - 1 else date.year, if date.month == 0 then 11 else date.month - 1;
    NormalizeInMonth(date.year, date.month, d);
    NormalizeInMonth(py, pm, DaysInMonth(py, pm));
    Normalize(date.year, date.month, d)
  }

  /** `setDate` lands on the day ECMAScript MakeDay computes. */
  lemma WithDateDayNumber(date: Date, d: int)
    requires Valid(date)
    ensures DayNumber(WithDate(date, d)) == MakeDay(date.year, date.month, d)
  {
    NormalizeKeepsDay(date.year, date.month, d);
    MakeDayInYear(date.year, date.month, d);
  }

  /** The value `date.setMonth(m)` gives: same year and day of month, month `m`, rolled over as needed. */
  function WithMonth(date: Date, m: int): (r: Date)
    requires Valid(date)
    ensures Valid(r)
    ensures date.day <= DaysInMonth(date.year + m / 12, m % 12) ==> r == Date(date.year + m / 12, m % 12, date.day)
    ensures var ym, mn := date.year + m / 12, m % 12;
      date.day > DaysInMonth(ym, mn) ==>
        r == Date(if mn == 11 then ym + 1 else ym, if mn == 11 then 0 else mn + 1, date.day - DaysInMonth(ym, mn))
  {
    var ym, mn := date.year + m / 12, m % 12;
    NormalizeInMonth(ym, mn, date.day);
    NormalizeInMonth(if mn == 11 then ym + 1 else ym, if mn == 11 then 0 else mn + 1, date.day - DaysInMonth(ym, mn));
    Normalize(ym, mn, date.day)
  }

  /** `setMonth` lands on the day ECMAScript MakeDay computes. */
  lemma WithMonthDayNumber(date: Date, m: int)
    requires Valid(date)
    ensures DayNumber(WithMonth(date, m)) == MakeDay(date.year, m, date.day)
  {
    var ym, mn := date.year + m / 12, m % 12;
    assert WithMonth(date, m) == Normalize(ym, mn, date.day);
    NormalizeKeepsDay(ym, mn, date.day);
    assert MakeDay(date.year, m, date.day) == FirstOfMonth(ym, mn) + date.day - 1;
  }

  /** `setMonth(1)` on January 31, 2026 rolls over: February has 28 days, so it gives March 3. */
  lemma SetMonthRollsOver()
    ensures WithMonth(Date(2026, 0, 31), 1) == Date(2026, 2, 3)
  {
  }

  /** Moving the day of month by `k` moves the day number by `k`. */
  lemma WithDateShifts(date: Date, k: int)
    requires Valid(date)
    ensures DayNumber(WithDate(date, date.day + k)) == DayNumber(date) + k
  {
    WithDateDayNumber(date, date.day + k);
    MakeDayInYear(date.year, date.month, date.day + k);
  }

  /** Day numbers order valid dates as the calendar does. */
  lemma DayNumberOrder(a: Date, b: Date)
    requires Valid(a) && Valid(b)
    requires a.year == b.year && (a.month < b.month || (a.month == b.month && a.day <= b.day))
    ensures DayNumber(a) <= DayNumber(b)
  {
  }

  function LastOfMonth(y: int, m: int): (r: Date)
    requires 0 <= m < 12
    ensures Valid(r) && r.year == y && r.month == m
    ensures DayNumber(r) + 1 == FirstOfMonth(if m == 11 then y + 1 else y, if m == 11 then 0 else m + 1)
  {
    MakeDayInYear(y, m, DaysInMonth(y, m));
    NextMonthStart(y, m);
    Date(y, m, DaysInMonth(y, m))
  }

  /** A JavaScript `Date` object; only its local calendar date is modelled. */
  class JsDate {
    var value: Date

    constructor (d: Date)
      requires Valid(d)
      ensures value == d
    {
      value := d;
    }

    method SetDate(d: int)
      requires Valid(value)
      modifies this
      ensures value == WithDate(old(value), d)
    {
      value := WithDate(value, d);
    }

    method SetMonth(m: int)
      requires Valid(value)
      modifies this
      ensures value == WithMonth(old(value), m)
    {
      value := WithMonth(value, m);
    }
  }
}
