/**
 * The daily series generator of the dashboard (`generateChartData`): two
 * cursors walk the selected range and the comparison range one day per step,
 * and every step emits one aligned point per series.
 */
module Series {
  import opened Calendar

  /**
   * One bar of a chart: `date` is the "Day n" label, `actualDate` the day it
   * shows (the locale string of that day in the dashboard) and `value` the
   * order count of that day.
   */
  datatype SeriesPoint = SeriesPoint(date: string, actualDate: Date, value: nat)

  /** `mockOrders[key] || 0`: the recorded order count of a day, or 0. */
  function Lookup(orders: map<Date, nat>, d: Date): (n: nat)
    ensures d in orders ==> n == orders[d]
    ensures n > 0 ==> d in orders
  {
    if d in orders then orders[d] else 0
  }

  function DigitChar(k: nat): (c: char)
    requires k < 10
    ensures '0' <= c <= '9'
  {
    "0123456789"[k]
  }

  /** The decimal numeral of `n`, as a template literal writes a number. */
  function DecimalString(n: nat): (s: string)
    ensures |s| > 0
    ensures forall i :: 0 <= i < |s| ==> '0' <= s[i] <= '9'
  {
    if n < 10 then [DigitChar(n)] else DecimalString(n / 10) + [DigitChar(n % 10)]
  }

  /** The number a string of decimal digits denotes. */
  function DecimalValue(s: string): nat
    requires forall i :: 0 <= i < |s| ==> '0' <= s[i] <= '9'
  {
    if s == [] then 0
    else DecimalValue(s[..|s| - 1]) * 10 + (s[|s| - 1] as int - '0' as int)
  }

  /** Reading the numeral back gives the number: distinct steps get distinct labels. */
  lemma {:induction false} DecimalRoundTrip(n: nat)
    ensures DecimalValue(DecimalString(n)) == n
  {
    var s := DecimalString(n);
    if n >= 10 {
      DecimalRoundTrip(n / 10);
      assert s[..|s| - 1] == DecimalString(n / 10);
    }
  }

  /** The label `Day ${dayCount}` of the `n`-th step. */
  function DayLabel(n: nat): (s: string)
    ensures |s| > 4 && s[..4] == "Day "
    ensures forall i :: 4 <= i < |s| ==> '0' <= s[i] <= '9'
    ensures DecimalValue(s[4..]) == n
  {
    var s := "Day " + DecimalString(n);
    DecimalRoundTrip(n);
    assert s[4..] == DecimalString(n);
    s
  }

  /** The number of days from `start` to `end`, both included; 0 when `end` is earlier. */
  function DaysInclusive(start: Date, end: Date): nat
    requires 0 <= start.month < 12 && 0 <= end.month < 12
  {
    if DayNumber(start) <= DayNumber(end) then DayNumber(end) - DayNumber(start) + 1 else 0
  }

  /**
   * `p` is step `i` (from 0) of a series whose cursor starts at `start`: it
   * is labelled "Day i+1", shows the day `i` days after `start` (the valid
   * date with that day number) and carries that day's order count.
   */
  ghost predicate IsStep(p: SeriesPoint, start: Date, i: nat, orders: map<Date, nat>)
    requires start.Valid()
  {
    && p.date == DayLabel(i + 1)
    && p.actualDate.Valid()
    && DayNumber(p.actualDate) == DayNumber(start) + i
    && p.value == Lookup(orders, p.actualDate)
  }

  /** Every point of `s` is the step of its index, from `start`. */
  ghost predicate IsSeries(s: seq<SeriesPoint>, start: Date, orders: map<Date, nat>)
    requires start.Valid()
  {
    forall i :: 0 <= i < |s| ==> IsStep(s[i], start, i, orders)
  }

  /** Appending the next step keeps a series a series. */
  lemma AppendStep(s: seq<SeriesPoint>, p: SeriesPoint, start: Date, orders: map<Date, nat>)
    requires start.Valid()
    requires IsSeries(s, start, orders) && IsStep(p, start, |s|, orders)
    ensures IsSeries(s + [p], start, orders)
  {
  }

  /**
   * What `generateChartData` produces: one point per day of the selected
   * range in each series, step `i` of the selected series dated `i` days
   * after `currentStart` and step `i` of the comparison series `i` days after
   * `compStart`.
   */
  ghost predicate ChartData(currentStart: Date, currentEnd: Date, compStart: Date,
                            orders: map<Date, nat>,
                            selected: seq<SeriesPoint>, comparison: seq<SeriesPoint>)
    requires currentStart.Valid() && currentEnd.Valid() && compStart.Valid()
    ensures ChartData(currentStart, currentEnd, compStart, orders, selected, comparison) ==>
      |selected| == |comparison| &&
      forall i :: 0 <= i < |selected| ==> selected[i].date == comparison[i].date
  {
    && |selected| == |comparison| == DaysInclusive(currentStart, currentEnd)
    && IsSeries(selected, currentStart, orders)
    && IsSeries(comparison, compStart, orders)
  }

  /**
   * `cursor.setDate(cursor.getDate() + 1)`: the cursor moves to the valid
   * date whose day number is one more, rolling over month and year ends.
   */
  method AdvanceOneDay(cursor: JsDate)
    requires cursor.value.Valid()
    modifies cursor
    ensures cursor.value == WithDate(old(cursor.value), old(cursor.value).day + 1)
    ensures cursor.value.Valid() && DayNumber(cursor.value) == DayNumber(old(cursor.value)) + 1
  {
    WithDateDayNumber(cursor.value, cursor.value.day + 1);
    cursor.SetDate(cursor.value.day + 1);
  }

  /**
   * Walks both cursors while the selected cursor is not past `currentEnd`.
   * `compEnd` is accepted and never read, as in the dashboard: the comparison
   * series has the selected range's length whatever its own range is.
   */
  method GenerateChartData(currentStart: Date, currentEnd: Date, compStart: Date, compEnd: Date,
                           orders: map<Date, nat>)
    returns (selected: seq<SeriesPoint>, comparison: seq<SeriesPoint>)
    requires currentStart.Valid() && currentEnd.Valid() && compStart.Valid()
    ensures ChartData(currentStart, currentEnd, compStart, orders, selected, comparison)
  {
    selected, comparison := [], [];
    var currentDate := new JsDate(currentStart);
    var compDate := new JsDate(compStart);
    var dayCount: nat := 1;
    while DayNumber(currentDate.value) <= DayNumber(currentEnd)
      invariant currentDate != compDate
      invariant dayCount >= 1
      invariant currentDate.value.Valid() && compDate.value.Valid()
      invariant DayNumber(currentDate.value) == DayNumber(currentStart) + dayCount - 1
      invariant DayNumber(compDate.value) == DayNumber(compStart) + dayCount - 1
      invariant dayCount == 1 || DayNumber(currentStart) + dayCount - 2 <= DayNumber(currentEnd)
      invariant |selected| == |comparison| == dayCount - 1
      invariant IsSeries(selected, currentStart, orders)
      invariant IsSeries(comparison, compStart, orders)
      decreases DayNumber(currentEnd) - DayNumber(currentStart) - dayCount + 2
    {
      var cur, cmp := currentDate.value, compDate.value;
      var dateLabel := "Day " + DecimalString(dayCount);
      AppendStep(selected, SeriesPoint(dateLabel, cur, Lookup(orders, cur)), currentStart, orders);
      AppendStep(comparison, SeriesPoint(dateLabel, cmp, Lookup(orders, cmp)), compStart, orders);
      selected := selected + [SeriesPoint(dateLabel, cur, Lookup(orders, cur))];
      comparison := comparison + [SeriesPoint(dateLabel, cmp, Lookup(orders, cmp))];
      AdvanceOneDay(currentDate);
      AdvanceOneDay(compDate);
      dayCount := dayCount + 1;
    }
  }

  /**
   * The series are determined by the selected range, the comparison start and
   * the lookup: the selected series does not depend on the comparison range,
   * and the comparison series' length does not either.
   */
  lemma ChartDataDetermined(currentStart: Date, currentEnd: Date,
                            compStart: Date, compStart': Date,
                            orders: map<Date, nat>,
                            selected: seq<SeriesPoint>, comparison: seq<SeriesPoint>,
                            selected': seq<SeriesPoint>, comparison': seq<SeriesPoint>)
    requires currentStart.Valid() && currentEnd.Valid() && compStart.Valid() && compStart'.Valid()
    requires ChartData(currentStart, currentEnd, compStart, orders, selected, comparison)
    requires ChartData(currentStart, currentEnd, compStart', orders, selected', comparison')
    ensures selected == selected' && |comparison| == |comparison'|
    ensures compStart == compStart' ==> comparison == comparison'
  {
    forall i | 0 <= i < |selected|
      ensures selected[i] == selected'[i]
    {
      DayNumberInjective(selected[i].actualDate, selected'[i].actualDate);
    }
    if compStart == compStart' {
      forall i | 0 <= i < |comparison|
        ensures comparison[i] == comparison'[i]
      {
        DayNumberInjective(comparison[i].actualDate, comparison'[i].actualDate);
      }
    }
  }

  /** With no recorded orders every bar of both series is 0. */
  lemma NoOrdersAllZero(currentStart: Date, currentEnd: Date, compStart: Date,
                        selected: seq<SeriesPoint>, comparison: seq<SeriesPoint>)
    requires currentStart.Valid() && currentEnd.Valid() && compStart.Valid()
    requires ChartData(currentStart, currentEnd, compStart, map[], selected, comparison)
    ensures forall i :: 0 <= i < |selected| ==> selected[i].value == 0 && comparison[i].value == 0
  {
  }

  /** Walking the days one by one crosses month ends: Feb 27, 2024 plus four days is Mar 2. */
  lemma FiveDayRange(orders: map<Date, nat>, selected: seq<SeriesPoint>, comparison: seq<SeriesPoint>)
    requires ChartData(Date(2024, 2, 5), Date(2024, 2, 9), Date(2024, 1, 27), orders, selected, comparison)
    ensures |selected| == |comparison| == 5
    ensures selected[0].date == comparison[0].date == "Day 1"
    ensures selected[4].date == comparison[4].date == "Day 5"
    ensures selected[4].actualDate == Date(2024, 2, 9)
    ensures comparison[4].actualDate == Date(2024, 2, 2)
  {
    DayNumberInjective(selected[4].actualDate, Date(2024, 2, 9));
    DayNumberInjective(comparison[4].actualDate, Date(2024, 2, 2));
  }

  /**
   * Point `i` of both series has the same label "Day " followed by the
   * numeral of `i + 1`, and the selected series never passes `currentEnd`.
   */
  lemma LabelsAligned(currentStart: Date, currentEnd: Date, compStart: Date,
                      orders: map<Date, nat>,
                      selected: seq<SeriesPoint>, comparison: seq<SeriesPoint>, i: nat)
    requires currentStart.Valid() && currentEnd.Valid() && compStart.Valid()
    requires ChartData(currentStart, currentEnd, compStart, orders, selected, comparison)
    requires i < |selected|
    ensures selected[i].date == comparison[i].date
    ensures |selected[i].date| > 4 && selected[i].date[..4] == "Day "
    ensures DecimalValue(selected[i].date[4..]) == i + 1
    ensures DayNumber(currentStart) <= DayNumber(selected[i].actualDate) <= DayNumber(currentEnd)
  {
    DecimalRoundTrip(i + 1);
    assert selected[i].date[4..] == DecimalString(i + 1);
  }
}
