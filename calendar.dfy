/**
 * Calendar arithmetic of the ECMAScript `Date` object, on whole local days.
 *
 * A `Date` value is a proleptic Gregorian calendar date: a year (unbounded
 * here, where ECMAScript's TimeClip limits it), a month 0..11 (January is 0,
 * as `getMonth` returns it) and a day of the month. `DayNumber` is the number
 * of days since 1970-01-01 (the DayFromYear and MakeDay operations of
 * ECMA-262); `Normalize` is MakeDay for arbitrary integer fields: months carry
 * into years and days carry into months, rolling over rather than clamping.
 * The three setters the dashboard uses (`Date.prototype.setDate`,
 * `setFullYear` and `setMonth` in ECMA-262) replace one field and normalise,
 * which is what `JsDate` does in place.
 */
module Calendar {

  datatype Date = Date(year: int, month: int, day: int) {
    /** A date the `Date` object can hold: a month 0..11 and a day inside it. */
    predicate Valid() {
      0 <= month < 12 && 1 <= day <= DaysInMonth(year, month)
    }
  }

  /** The Gregorian leap rule (DaysInYear in ECMA-262). */
  predicate IsLeapYear(y: int) {
    y % 4 == 0 && (y % 100 != 0 || y % 400 == 0)
  }

  function DaysInYear(y: int): int {
    if IsLeapYear(y) then 366 else 365
  }

  function DaysInMonth(y: int, m: int): (n: int)
    requires 0 <= m < 12
    ensures 28 <= n <= 31
    ensures n == 28 || n == 29 <==> m == 1
    ensures m == 1 ==> (n == 29 <==> IsLeapYear(y))
  {
    if m == 1 then (if IsLeapYear(y) then 29 else 28)
    else if m == 3 || m == 5 || m == 8 || m == 10 then 30
    else 31
  }

  /** Days of year `y` before the first of month `m` (DayWithinYear in ECMA-262). */
  function DaysBeforeMonth(y: int, m: int): int
    requires 0 <= m < 12
  {
    var leap := if IsLeapYear(y) then 1 else 0;
    match m
    case 0 => 0
    case 1 => 31
    case 2 => 59 + leap
    case 3 => 90 + leap
    case 4 => 120 + leap
    case 5 => 151 + leap
    case 6 => 181 + leap
    case 7 => 212 + leap
    case 8 => 243 + leap
    case 9 => 273 + leap
    case 10 => 304 + leap
    case _ => 334 + leap
  }

  /** Day number of January 1st of year `y` (DayFromYear in ECMA-262). */
  function DayFromYear(y: int): int {
    365 * (y - 1970) + (y - 1969) / 4 - (y - 1901) / 100 + (y - 1601) / 400
  }

  /** Days from 1970-01-01 to `d`: the time value of `d` divided by msPerDay. */
  function DayNumber(d: Date): int
    requires 0 <= d.month < 12
  {
    DayFromYear(d.year) + DaysBeforeMonth(d.year, d.month) + d.day - 1
  }

  function NextMonth(y: int, m: int): (r: (int, int))
    requires 0 <= m < 12
    ensures 0 <= r.1 < 12
  {
    if m == 11 then (y + 1, 0) else (y, m + 1)
  }

  function PreviousMonth(y: int, m: int): (r: (int, int))
    requires 0 <= m < 12
    ensures 0 <= r.1 < 12
    ensures NextMonth(r.0, r.1) == (y, m)
  {
    if m == 0 then (y - 1, 11) else (y, m - 1)
  }

  /**
   * Carries a day of the month that lies outside month `m` of year `y` into
   * the following or preceding months, one month at a time.
   */
  function NormalizeDay(y: int, m: int, d: int): (r: Date)
    requires 0 <= m < 12
    ensures r.Valid()
    ensures 1 <= d <= DaysInMonth(y, m) ==> r == Date(y, m, d)
    decreases if d < 1 then 1 - d else 0, if d > DaysInMonth(y, m) then d else 0
  {
    if d < 1 then
      var (py, pm) := PreviousMonth(y, m);
      NormalizeDay(py, pm, d + DaysInMonth(py, pm))
    else if d > DaysInMonth(y, m) then
      var (ny, nm) := NextMonth(y, m);
      NormalizeDay(ny, nm, d - DaysInMonth(y, m))
    else
      Date(y, m, d)
  }

  /**
   * MakeDay on arbitrary integers: the month carries into the year, then the
   * day carries into the months. Nothing is clamped.
   */
  function Normalize(y: int, m: int, d: int): (r: Date)
    ensures r.Valid()
  {
    NormalizeDay(y + m / 12, m % 12, d)
  }

  /** `setMonth(m)`: the same year and day of the month, month `m`, normalised. */
  function WithMonth(t: Date, m: int): (r: Date)
    ensures r.Valid()
    ensures 0 <= m < 12 && 1 <= t.day <= DaysInMonth(t.year, m) ==> r == Date(t.year, m, t.day)
  {
    Normalize(t.year, m, t.day)
  }

  /** `setFullYear(y)`: the same month and day of the month, year `y`, normalised. */
  function WithFullYear(t: Date, y: int): (r: Date)
    ensures r.Valid()
    ensures 0 <= t.month < 12 && 1 <= t.day <= DaysInMonth(y, t.month) ==> r == Date(y, t.month, t.day)
  {
    Normalize(y, t.month, t.day)
  }

  /** `setDate(d)`: the same year and month, day of the month `d`, normalised. */
  function WithDate(t: Date, d: int): (r: Date)
    ensures r.Valid()
    ensures 0 <= t.month < 12 && 1 <= d <= DaysInMonth(t.year, t.month) ==> r == Date(t.year, t.month, d)
  {
    Normalize(t.year, t.month, d)
  }

  /** Chronological order of two valid dates, field by field. */
  predicate EarlierThan(a: Date, b: Date) {
    a.year < b.year ||
    (a.year == b.year && (a.month < b.month || (a.month == b.month && a.day < b.day)))
  }

  /** Going from January 1st of `y` to that of `y + 1` takes the days of year `y`. */
  lemma DayFromYearStep(y: int)
    ensures DayFromYear(y + 1) == DayFromYear(y) + DaysInYear(y)
  {
    QuotientStep4(y);
    QuotientStep100(y);
    QuotientStep400(y);
    CenturiesAreLeapCandidates(y);
  }

  /** Multiples of 400 are multiples of 100, and multiples of 100 are multiples of 4. */
  lemma CenturiesAreLeapCandidates(y: int)
    ensures y % 400 == 0 ==> y % 100 == 0
    ensures y % 100 == 0 ==> y % 4 == 0
  {
    if y % 400 == 0 {
      var k := y / 400;
      assert y == 400 * k;
      assert y / 100 == 4 * k;
    }
    if y % 100 == 0 {
      var k := y / 100;
      assert y == 100 * k;
      assert y / 4 == 25 * k;
    }
  }

  lemma QuotientStep4(y: int)
    ensures (y + 1 - 1969) / 4 == (y - 1969) / 4 + (if y % 4 == 0 then 1 else 0)
  {
  }

  lemma QuotientStep100(y: int)
    ensures (y + 1 - 1901) / 100 == (y - 1901) / 100 + (if y % 100 == 0 then 1 else 0)
  {
  }

  lemma QuotientStep400(y: int)
    ensures (y + 1 - 1601) / 400 == (y - 1601) / 400 + (if y % 400 == 0 then 1 else 0)
  {
  }

  /** Every day of year `a` lies before January 1st of any later year `b`. */
  lemma {:induction false} DayFromYearIncreasing(a: int, b: int)
    requires a < b
    ensures DayFromYear(a) + DaysInYear(a) <= DayFromYear(b)
    decreases b - a
  {
    DayFromYearStep(a);
    if a + 1 < b {
      DayFromYearIncreasing(a + 1, b);
    }
  }

  /** The first of the next month is `DaysInMonth` days after the first of this one. */
  lemma FirstOfNextMonth(y: int, m: int)
    requires 0 <= m < 12
    ensures DayNumber(Date(NextMonth(y, m).0, NextMonth(y, m).1, 1))
         == DayNumber(Date(y, m, 1)) + DaysInMonth(y, m)
  {
    if m == 11 {
      DayFromYearStep(y);
    }
  }

  /** The day numbers of a year's valid dates lie within that year. */
  lemma DayNumberWithinYear(d: Date)
    requires d.Valid()
    ensures DayFromYear(d.year) <= DayNumber(d) < DayFromYear(d.year) + DaysInYear(d.year)
  {
  }

  /** Day numbers put valid dates in their chronological order. */
  lemma DayNumberIncreasing(a: Date, b: Date)
    requires a.Valid() && b.Valid()
    requires EarlierThan(a, b)
    ensures DayNumber(a) < DayNumber(b)
  {
    if a.year < b.year {
      DayNumberWithinYear(a);
      DayNumberWithinYear(b);
      DayFromYearIncreasing(a.year, b.year);
    }
  }

  /** Comparing `Date` objects with `<`, as their time values, is chronological order. */
  lemma DayNumberOrder(a: Date, b: Date)
    requires a.Valid() && b.Valid()
    ensures DayNumber(a) < DayNumber(b) <==> EarlierThan(a, b)
    ensures DayNumber(a) == DayNumber(b) <==> a == b
  {
    if EarlierThan(a, b) {
      DayNumberIncreasing(a, b);
    } else if EarlierThan(b, a) {
      DayNumberIncreasing(b, a);
    }
  }

  /** `NormalizeDay` moves the day number by exactly the days it carries. */
  lemma {:induction false} NormalizeDayNumber(y: int, m: int, d: int)
    requires 0 <= m < 12
    ensures DayNumber(NormalizeDay(y, m, d)) == DayNumber(Date(y, m, 1)) + d - 1
    decreases if d < 1 then 1 - d else 0, if d > DaysInMonth(y, m) then d else 0
  {
    if d < 1 {
      var (py, pm) := PreviousMonth(y, m);
      NormalizeDayNumber(py, pm, d + DaysInMonth(py, pm));
      FirstOfNextMonth(py, pm);
    } else if d > DaysInMonth(y, m) {
      var (ny, nm) := NextMonth(y, m);
      NormalizeDayNumber(ny, nm, d - DaysInMonth(y, m));
      FirstOfNextMonth(y, m);
    }
  }

  /**
   * `Normalize(y, m, d)` is the one valid date whose day number is that of
   * the first of month `m` of year `y` (after the month carry) plus `d - 1`:
   * the result of MakeDay(y, m, d) in ECMA-262.
   */
  lemma NormalizeIsMakeDay(y: int, m: int, d: int, r: Date)
    ensures r.Valid() && DayNumber(r) == DayNumber(Date(y + m / 12, m % 12, 1)) + d - 1
        <==> r == Normalize(y, m, d)
  {
    var n := Normalize(y, m, d);
    NormalizeDayNumber(y + m / 12, m % 12, d);
    if r.Valid() && DayNumber(r) == DayNumber(n) {
      DayNumberInjective(r, n);
    }
  }

  /** Two valid dates with the same day number are the same date. */
  lemma DayNumberInjective(a: Date, b: Date)
    requires a.Valid() && b.Valid()
    requires DayNumber(a) == DayNumber(b)
    ensures a == b
  {
    DayNumberOrder(a, b);
  }

  /** `setDate(k)` on a valid date moves its day number by `k` minus its day of the month. */
  lemma WithDateDayNumber(t: Date, k: int)
    requires t.Valid()
    ensures DayNumber(WithDate(t, k)) == DayNumber(t) + k - t.day
  {
    assert t.month / 12 == 0 && t.month % 12 == t.month;
    NormalizeDayNumber(t.year, t.month, k);
  }

  /** Normalising a valid date leaves it unchanged. */
  lemma NormalizeOfValid(d: Date)
    requires d.Valid()
    ensures Normalize(d.year, d.month, d.day) == d
  {
    assert d.month / 12 == 0 && d.month % 12 == d.month;
  }

  /**
   * A day that overflows month `m` by at most 28 lands in the next month:
   * `Date(2023, 1, 31)` normalises to March 3, 2023.
   */
  lemma NormalizeOverflow(y: int, m: int, d: int)
    requires 0 <= m < 12
    requires DaysInMonth(y, m) < d <= DaysInMonth(y, m) + 28
    ensures Normalize(y, m, d) == Date(NextMonth(y, m).0, NextMonth(y, m).1, d - DaysInMonth(y, m))
  {
    assert m / 12 == 0 && m % 12 == m;
  }

  /** A month of -1 carries into December of the year before. */
  lemma NormalizeMonthBeforeJanuary(y: int, d: int)
    requires 1 <= d <= 31
    ensures Normalize(y, -1, d) == Date(y - 1, 11, d)
  {
    assert -1 / 12 == -1 && -1 % 12 == 11;
  }

  /** Two consecutive years are never both leap years. */
  lemma LeapYearsApart(y: int)
    requires IsLeapYear(y)
    ensures !IsLeapYear(y - 1)
  {
  }

  /**
   * A JavaScript `Date` object, reduced to the calendar date it denotes.
   * The comparison and series code copy such objects and change them in place
   * through the three setters below.
   */
  class JsDate {
    var value: Date

    /** `new Date(d)`: a fresh object denoting the same date. */
    constructor (d: Date)
      ensures value == d
    {
      value := d;
    }

    method SetMonth(m: int)
      modifies this
      ensures value == WithMonth(old(value), m)
    {
      value := WithMonth(value, m);
    }

    method SetFullYear(y: int)
      modifies this
      ensures value == WithFullYear(old(value), y)
    {
      value := WithFullYear(value, y);
    }

    method SetDate(d: int)
      modifies this
      ensures value == WithDate(old(value), d)
    {
      value := WithDate(value, d);
    }
  }
}
