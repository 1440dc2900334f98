/**
 * The comparison-range calculator of the dashboard (`calculateComparisonRange`):
 * from the selected start and end dates and the comparison mode it derives a
 * prior period by copying both dates and applying `setMonth`, `setFullYear`
 * and `setDate` to the copies, then charts both ranges day by day.
 */
module Comparison {
  import opened Calendar
  import opened Series

  datatype Option<T> = None | Some(value: T)

  /** The two choices of the comparison selector, "month" and "year". */
  datatype ComparisonMode = PreviousMonth | PreviousYear

  /**
   * The comparison range as the setter sequence produces it. `None` stands
   * for the shapes no branch handles, where both ends stay undefined.
   */
  function ComparisonRange(start: Date, end: Date, mode: ComparisonMode): (r: Option<(Date, Date)>)
    ensures r.Some? ==> r.value.0.Valid() && r.value.1.Valid()
  {
    match mode
    case PreviousMonth =>
      if start.month == end.month && start.year == end.year then Some(SameMonthBranch(start, end))
      else if start.day == 1 && start.month == 0 then Some(JanuaryFirstBranch(start, end))
      else if start.year == end.year then Some(YearBackBranch(start, end))
      else None
    case PreviousYear =>
      Some(YearBackBranch(start, end))
  }

  /** Both ends `setMonth(month - 1)`, January also `setFullYear(year - 1)`, February `setDate(1)`/`setDate(31)`. */
  function SameMonthBranch(start: Date, end: Date): (r: (Date, Date))
    ensures r.0.Valid() && r.1.Valid()
  {
    var s1, e1 := WithMonth(start, start.month - 1), WithMonth(end, end.month - 1);
    var s2 := if start.month == 0 then WithFullYear(s1, start.year - 1) else s1;
    var e2 := if start.month == 0 then WithFullYear(e1, end.year - 1) else e1;
    if start.month == 1 && end.month == 1 then (WithDate(s2, 1), WithDate(e2, 31)) else (s2, e2)
  }

  /** The start `setFullYear(year - 1)` then `setMonth(11)`; the end `setFullYear(year - 1)` then `setMonth`. */
  function JanuaryFirstBranch(start: Date, end: Date): (r: (Date, Date))
    ensures r.0.Valid() && r.1.Valid()
  {
    var e1 := WithFullYear(end, end.year - 1);
    (WithMonth(WithFullYear(start, start.year - 1), 11),
     if end.month == 0 then WithMonth(e1, 11) else WithMonth(e1, end.month - 1))
  }

  /** Both ends `setFullYear(year - 1)`. */
  function YearBackBranch(start: Date, end: Date): (r: (Date, Date))
    ensures r.0.Valid() && r.1.Valid()
  {
    (WithFullYear(start, start.year - 1), WithFullYear(end, end.year - 1))
  }

  /** What one run of the calculator leaves for the charts. */
  datatype Outcome =
    | Skipped     // not exactly two dates: nothing is recomputed
    | Unsupported // no rule for this shape: both comparison ends undefined
    | Charted(comparisonStart: Date, comparisonEnd: Date,
              selected: seq<SeriesPoint>, comparison: seq<SeriesPoint>)

  /**
   * The calculator as the dashboard runs it on a date selection: it derives
   * the comparison range and hands both ranges to the series generator.
   */
  method CalculateComparisonRange(dates: seq<Date>, mode: ComparisonMode, orders: map<Date, nat>)
    returns (outcome: Outcome)
    requires forall i :: 0 <= i < |dates| ==> dates[i].Valid()
    ensures |dates| != 2 <==> outcome.Skipped?
    ensures |dates| == 2 ==>
      match ComparisonRange(dates[0], dates[1], mode)
      case None => outcome.Unsupported?
      case Some((cs, ce)) =>
        && outcome.Charted? && outcome.comparisonStart == cs && outcome.comparisonEnd == ce
        && ChartData(dates[0], dates[1], cs, orders, outcome.selected, outcome.comparison)
  {
    if |dates| != 2 {
      return Skipped;
    }
    var start, end := dates[0], dates[1];
    var comparisonStart, comparisonEnd := DeriveComparisonDates(start, end, mode);
    if comparisonStart == null || comparisonEnd == null {
      return Unsupported;
    }
    var cs, ce := comparisonStart.value, comparisonEnd.value;
    var selected, comparison := GenerateChartData(start, end, cs, ce, orders);
    outcome := Charted(cs, ce, selected, comparison);
  }

  /**
   * The branches of the calculator: copies of the selected dates changed in
   * place by the setters, or no objects at all when no branch applies.
   */
  method DeriveComparisonDates(start: Date, end: Date, mode: ComparisonMode)
    returns (comparisonStart: JsDate?, comparisonEnd: JsDate?)
    ensures
      match ComparisonRange(start, end, mode)
      case None => comparisonStart == null && comparisonEnd == null
      case Some((cs, ce)) =>
        comparisonStart != null && comparisonEnd != null &&
        comparisonStart.value == cs && comparisonEnd.value == ce
  {
    comparisonStart, comparisonEnd := null, null;
    if mode == PreviousMonth {
      if start.month == end.month && start.year == end.year {
        comparisonStart, comparisonEnd := PreviousMonthOfSameMonth(start, end);
      } else if start.day == 1 && start.month == 0 {
        comparisonStart, comparisonEnd := PreviousMonthFromJanuaryFirst(start, end);
      } else if start.year == end.year {
        comparisonStart, comparisonEnd := SameDatesYearBefore(start, end);
      }
    } else {
      comparisonStart, comparisonEnd := SameDatesYearBefore(start, end);
    }
  }

  /** The branch for a range inside one month. */
  method PreviousMonthOfSameMonth(start: Date, end: Date) returns (comparisonStart: JsDate, comparisonEnd: JsDate)
    ensures (comparisonStart.value, comparisonEnd.value) == SameMonthBranch(start, end)
  {
    comparisonStart := new JsDate(start);
    comparisonEnd := new JsDate(end);
    comparisonStart.SetMonth(start.month - 1);
    comparisonEnd.SetMonth(end.month - 1);
    ghost var s1, e1 := comparisonStart.value, comparisonEnd.value;
    if start.month == 0 {
      comparisonStart.SetFullYear(start.year - 1);
      comparisonEnd.SetFullYear(end.year - 1);
    }
    ghost var s2, e2 := comparisonStart.value, comparisonEnd.value;
    assert s2 == if start.month == 0 then WithFullYear(s1, start.year - 1) else s1;
    assert e2 == if start.month == 0 then WithFullYear(e1, end.year - 1) else e1;
    SameMonthBranchSteps(start, end, s1, e1, s2, e2);
    if start.month == 1 && end.month == 1 {
      comparisonStart.SetDate(1);
      comparisonEnd.SetDate(31);
    }
  }

  /** The same-month branch split at the point where February's days are forced. */
  lemma SameMonthBranchSteps(start: Date, end: Date, s1: Date, e1: Date, s2: Date, e2: Date)
    requires s1 == WithMonth(start, start.month - 1) && e1 == WithMonth(end, end.month - 1)
    requires s2 == if start.month == 0 then WithFullYear(s1, start.year - 1) else s1
    requires e2 == if start.month == 0 then WithFullYear(e1, end.year - 1) else e1
    ensures SameMonthBranch(start, end) == if start.month == 1 && end.month == 1 then (WithDate(s2, 1), WithDate(e2, 31)) else (s2, e2)
  {
    var r := SameMonthBranch(start, end);
    if start.month == 1 && end.month == 1 {
      assert r == (WithDate(s2, 1), WithDate(e2, 31));
    } else {
      assert r == (s2, e2);
    }
  }

  /** The branch for a range starting January 1 and ending in another month. */
  method PreviousMonthFromJanuaryFirst(start: Date, end: Date) returns (comparisonStart: JsDate, comparisonEnd: JsDate)
    ensures (comparisonStart.value, comparisonEnd.value) == JanuaryFirstBranch(start, end)
  {
    comparisonStart := new JsDate(start);
    comparisonEnd := new JsDate(end);
    comparisonStart.SetFullYear(start.year - 1);
    ghost var s1 := comparisonStart.value;
    comparisonStart.SetMonth(11);
    assert comparisonStart.value == WithMonth(s1, 11);
    comparisonEnd.SetFullYear(end.year - 1);
    ghost var e1 := comparisonEnd.value;
    assert e1 == WithFullYear(end, end.year - 1);
    JanuaryFirstBranchSteps(start, end, s1, e1);
    if end.month == 0 {
      comparisonEnd.SetMonth(11);
      assert comparisonEnd.value == WithMonth(e1, 11);
    } else {
      comparisonEnd.SetMonth(end.month - 1);
      assert comparisonEnd.value == WithMonth(e1, end.month - 1);
    }
  }

  /** The January 1 branch split after its `setFullYear` calls. */
  lemma JanuaryFirstBranchSteps(start: Date, end: Date, s1: Date, e1: Date)
    requires s1 == WithFullYear(start, start.year - 1) && e1 == WithFullYear(end, end.year - 1)
    ensures JanuaryFirstBranch(start, end) ==
      (WithMonth(s1, 11), if end.month == 0 then WithMonth(e1, 11) else WithMonth(e1, end.month - 1))
  {
  }

  /** The branch shared by year mode and multi-month ranges within one year. */
  method SameDatesYearBefore(start: Date, end: Date) returns (comparisonStart: JsDate, comparisonEnd: JsDate)
    ensures (comparisonStart.value, comparisonEnd.value) == YearBackBranch(start, end)
  {
    comparisonStart := new JsDate(start);
    comparisonEnd := new JsDate(end);
    comparisonStart.SetFullYear(start.year - 1);
    comparisonEnd.SetFullYear(end.year - 1);
  }

  // ---------------------------------------------------------------------------
  // One date moved back by one setter, in closed form

  /**
   * `d` one year earlier with the same month and day; February 29 has no
   * counterpart in the year before and rolls over to March 1.
   */
  function OneYearBack(d: Date): Date {
    if d.month == 1 && d.day == 29 then Date(d.year - 1, 2, 1) else Date(d.year - 1, d.month, d.day)
  }

  /** `setFullYear(getFullYear() - 1)` on a valid date is `OneYearBack`. */
  lemma WithFullYearOneYearBack(d: Date)
    requires d.Valid()
    ensures WithFullYear(d, d.year - 1) == OneYearBack(d)
    ensures OneYearBack(d).Valid()
  {
    if d.month == 1 && d.day == 29 {
      LeapYearsApart(d.year);
      NormalizeOverflow(d.year - 1, 1, 29);
    } else {
      NormalizeOfValid(Date(d.year - 1, d.month, d.day));
    }
  }

  /**
   * `d` one month earlier in the same year (not for January): the same day of
   * the month when the earlier month has it, otherwise the overflow past the
   * earlier month's end, counted into `d`'s own month.
   */
  function OneMonthBack(d: Date): Date
    requires 1 <= d.month < 12
  {
    var before := DaysInMonth(d.year, d.month - 1);
    if d.day <= before then Date(d.year, d.month - 1, d.day) else Date(d.year, d.month, d.day - before)
  }

  /** `setMonth(getMonth() - 1)` on a valid date after January is `OneMonthBack`. */
  lemma WithMonthOneMonthBack(d: Date)
    requires d.Valid() && d.month >= 1
    ensures WithMonth(d, d.month - 1) == OneMonthBack(d)
    ensures OneMonthBack(d).Valid()
  {
    var before := DaysInMonth(d.year, d.month - 1);
    if d.day <= before {
      NormalizeOfValid(Date(d.year, d.month - 1, d.day));
    } else {
      NormalizeOverflow(d.year, d.month - 1, d.day);
    }
  }

  // ---------------------------------------------------------------------------
  // The branches of the calculator

  /** Year mode moves both ends back one year, Feb 29 rolling over to Mar 1. */
  lemma PreviousYearShift(start: Date, end: Date)
    requires start.Valid() && end.Valid()
    ensures ComparisonRange(start, end, PreviousYear) == Some((OneYearBack(start), OneYearBack(end)))
  {
    WithFullYearOneYearBack(start);
    WithFullYearOneYearBack(end);
  }

  /**
   * Month mode on a range inside one month other than January and February
   * moves both ends back one month, rolling day overflow forward.
   */
  lemma SameMonthShift(start: Date, end: Date)
    requires start.Valid() && end.Valid()
    requires start.year == end.year && start.month == end.month && start.month >= 2
    ensures ComparisonRange(start, end, PreviousMonth) == Some((OneMonthBack(start), OneMonthBack(end)))
  {
    WithMonthOneMonthBack(start);
    WithMonthOneMonthBack(end);
  }

  /**
   * Month mode on a range inside January of year `y` gives the same days of
   * December of `y - 1`: `setMonth(-1)` already moves to the year before, and
   * the later `setFullYear(y - 1)` changes nothing.
   */
  lemma JanuaryShift(start: Date, end: Date)
    requires start.Valid() && end.Valid()
    requires start.year == end.year && start.month == end.month == 0
    ensures ComparisonRange(start, end, PreviousMonth)
         == Some((Date(start.year - 1, 11, start.day), Date(end.year - 1, 11, end.day)))
  {
    NormalizeMonthBeforeJanuary(start.year, start.day);
    NormalizeMonthBeforeJanuary(end.year, end.day);
    NormalizeOfValid(Date(start.year - 1, 11, start.day));
    NormalizeOfValid(Date(end.year - 1, 11, end.day));
  }

  /**
   * Month mode on a range inside February of year `y` gives exactly January 1
   * to January 31 of `y`, whatever the selected days are.
   */
  lemma FebruaryForcedToJanuary(start: Date, end: Date)
    requires start.Valid() && end.Valid()
    requires start.year == end.year && start.month == end.month == 1
    ensures ComparisonRange(start, end, PreviousMonth) == Some((Date(start.year, 0, 1), Date(start.year, 0, 31)))
  {
    WithMonthOneMonthBack(start);
    WithMonthOneMonthBack(end);
    NormalizeOfValid(Date(start.year, 0, 1));
    NormalizeOfValid(Date(start.year, 0, 31));
  }

  /**
   * The end of a range that starts on January 1 but ends in another month:
   * first one year back, then to December when the end is in January and
   * otherwise to the month before, in that order.
   */
  function JanuaryFirstEnd(end: Date): Date
    requires end.Valid()
  {
    if end.month == 0 then Date(end.year - 1, 11, end.day)
    else if end.month == 1 && end.day == 29 then Date(end.year - 1, 0, 1)
    else OneMonthBack(Date(end.year - 1, end.month, end.day))
  }

  /**
   * Month mode on a range starting January 1 of `y` and ending in another
   * month or year: the start becomes December 1 of `y - 1`, the end is
   * `JanuaryFirstEnd`.
   */
  lemma JanuaryFirstShift(start: Date, end: Date)
    requires start.Valid() && end.Valid()
    requires start.month == 0 && start.day == 1
    requires !(end.month == 0 && end.year == start.year)
    ensures ComparisonRange(start, end, PreviousMonth)
         == Some((Date(start.year - 1, 11, 1), JanuaryFirstEnd(end)))
  {
    WithFullYearOneYearBack(start);
    NormalizeOfValid(Date(start.year - 1, 11, 1));
    WithFullYearOneYearBack(end);
    var e1 := OneYearBack(end);
    if end.month == 0 {
      NormalizeOfValid(Date(end.year - 1, 11, end.day));
    } else if end.month == 1 && end.day == 29 {
      NormalizeOfValid(Date(end.year - 1, 0, 1));
    } else {
      WithMonthOneMonthBack(e1);
    }
  }

  /**
   * Setting the year before the month differs from the other order: for
   * February 29, 2024 it gives January 1, 2023 instead of January 29, 2023.
   */
  lemma SetterOrderMatters()
    ensures WithMonth(WithFullYear(Date(2024, 1, 29), 2023), 0) == Date(2023, 0, 1)
    ensures WithFullYear(WithMonth(Date(2024, 1, 29), 0), 2023) == Date(2023, 0, 29)
  {
    WithFullYearOneYearBack(Date(2024, 1, 29));
    NormalizeOfValid(Date(2023, 0, 1));
    WithMonthOneMonthBack(Date(2024, 1, 29));
    NormalizeOfValid(Date(2023, 0, 29));
  }

  /**
   * For a range from January 1 to a later month of the same year the derived
   * end falls in the year before and never after the derived start, December
   * 1; it comes strictly earlier unless the selection ends on December 31,
   * whose end rolls from November 31 to December 1 and gives a one-day range.
   */
  lemma JanuaryFirstSameYearNotOrdered(start: Date, end: Date)
    requires start.Valid() && end.Valid()
    requires start.month == 0 && start.day == 1 && end.year == start.year && end.month >= 1
    ensures ComparisonRange(start, end, PreviousMonth).Some?
    ensures var (cs, ce) := ComparisonRange(start, end, PreviousMonth).value;
      && !EarlierThan(cs, ce)
      && (!(end.month == 11 && end.day == 31) ==> EarlierThan(ce, cs))
      && (end.month == 11 && end.day == 31 ==> cs == ce == Date(start.year - 1, 11, 1))
  {
    JanuaryFirstShift(start, end);
  }

  /**
   * Month mode on a range spanning several months of one year, not starting
   * January 1, moves both ends back one year.
   */
  lemma MultiMonthSameYearShift(start: Date, end: Date)
    requires start.Valid() && end.Valid()
    requires start.year == end.year && start.month != end.month
    requires !(start.month == 0 && start.day == 1)
    ensures ComparisonRange(start, end, PreviousMonth) == Some((OneYearBack(start), OneYearBack(end)))
  {
    WithFullYearOneYearBack(start);
    WithFullYearOneYearBack(end);
  }

  /**
   * Month mode leaves the comparison undefined exactly for ranges across a
   * year boundary that do not start January 1; year mode never does.
   */
  lemma UndefinedExactly(start: Date, end: Date, mode: ComparisonMode)
    requires start.Valid() && end.Valid()
    ensures ComparisonRange(start, end, mode).None?
        <==> mode == PreviousMonth && start.year != end.year && !(start.month == 0 && start.day == 1)
  {
  }

  // ---------------------------------------------------------------------------
  // Worked dates

  /** 2024-03-05 to 2024-03-20 compares with 2024-02-05 to 2024-02-20. */
  lemma ExampleMarch()
    ensures ComparisonRange(Date(2024, 2, 5), Date(2024, 2, 20), PreviousMonth)
         == Some((Date(2024, 1, 5), Date(2024, 1, 20)))
  {
    SameMonthShift(Date(2024, 2, 5), Date(2024, 2, 20));
  }

  /** March 31 rolls forward past the end of February: to March 3, or March 2 in a leap year. */
  lemma ExampleMarch31()
    ensures ComparisonRange(Date(2023, 2, 1), Date(2023, 2, 31), PreviousMonth)
         == Some((Date(2023, 1, 1), Date(2023, 2, 3)))
    ensures ComparisonRange(Date(2024, 2, 1), Date(2024, 2, 31), PreviousMonth)
         == Some((Date(2024, 1, 1), Date(2024, 2, 2)))
  {
    SameMonthShift(Date(2023, 2, 1), Date(2023, 2, 31));
    SameMonthShift(Date(2024, 2, 1), Date(2024, 2, 31));
  }

  /** 2024-01-01 to 2024-01-10 compares with 2023-12-01 to 2023-12-10. */
  lemma ExampleJanuary()
    ensures ComparisonRange(Date(2024, 0, 1), Date(2024, 0, 10), PreviousMonth)
         == Some((Date(2023, 11, 1), Date(2023, 11, 10)))
  {
    JanuaryShift(Date(2024, 0, 1), Date(2024, 0, 10));
  }

  /** All of February 2024 compares with all of January 2024. */
  lemma ExampleLeapFebruary()
    ensures ComparisonRange(Date(2024, 1, 1), Date(2024, 1, 29), PreviousMonth)
         == Some((Date(2024, 0, 1), Date(2024, 0, 31)))
  {
    FebruaryForcedToJanuary(Date(2024, 1, 1), Date(2024, 1, 29));
  }

  /** 2024-02-15 to 2024-04-10 stays in one year, so it compares with the same dates of 2023. */
  lemma ExampleMultiMonth()
    ensures ComparisonRange(Date(2024, 1, 15), Date(2024, 3, 10), PreviousMonth)
         == Some((Date(2023, 1, 15), Date(2023, 3, 10)))
  {
    MultiMonthSameYearShift(Date(2024, 1, 15), Date(2024, 3, 10));
  }

  /** January 1 to March 15, 2024 compares with December 1, 2023 to February 15, 2023. */
  lemma ExampleJanuaryFirst()
    ensures ComparisonRange(Date(2024, 0, 1), Date(2024, 2, 15), PreviousMonth)
         == Some((Date(2023, 11, 1), Date(2023, 1, 15)))
  {
    JanuaryFirstShift(Date(2024, 0, 1), Date(2024, 2, 15));
  }

  /** A range from November 2023 to January 2024, not starting January 1, has no comparison. */
  lemma ExampleAcrossYears()
    ensures ComparisonRange(Date(2023, 10, 15), Date(2024, 0, 10), PreviousMonth) == None
  {
  }
}
