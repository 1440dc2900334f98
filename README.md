# Date-range comparison dashboard: the date logic, in Dafny

The dashboard lets a user pick a date range, derives a comparable prior
period ("previous month" or "previous year") and charts per-day order counts
for both ranges side by side. This project models the two pieces of logic
behind that, both in `app/page.js`, together with the JavaScript `Date`
arithmetic they rely on:

- `calendar.dfy`, module `Calendar`: proleptic Gregorian dates as
  `(year, month 0..11, day)`, the day number of a date (days since
  1970-01-01, per the DayFromYear operation of ECMA-262), and
  `Normalize`, ECMA-262's MakeDay computation on arbitrary
  integers: month overflow carries into the year, day overflow carries into
  the months, and nothing is clamped. The class `JsDate` is a `Date` object
  reduced to its calendar date; its `SetMonth`, `SetFullYear` and `SetDate`
  replace one field and normalise, in place, as `Date.prototype.setMonth`,
  `setFullYear` and `setDate` do in ECMA-262.
- `comparison.dfy`, module `Comparison`: `calculateComparisonRange`. The
  function `ComparisonRange` is the setter sequence on values and specifies
  the imperative `DeriveComparisonDates`, which copies the selected dates
  into fresh `JsDate` objects and changes them branch by branch just as the
  source does; `CalculateComparisonRange` adds the "exactly two dates" guard
  and the call to the series generator. The lemmas give every branch its
  result in closed form: Feb 29 rolling over to Mar 1 a year back, day 31
  rolling forward past a shorter month, January wrapping to December,
  February forced to Jan 1–Jan 31, the January 1 branch and its setter order,
  and exactly which shapes are left undefined.
- `series.dfy`, module `Series`: `generateChartData`, a `while` loop that
  walks two `JsDate` cursors one day per step and appends one
  `{date: "Day n", actualDate, value}` point per step to each series. Its
  contract pins the series length to the inclusive day count of the selected
  range (0 when the end is earlier), independent of the comparison end, and
  point `i` to the day `i` days after each start with the order count of that
  day, or 0.

Two consequences of the code as written are proved rather than assumed:

- When the range starts on January 1 and ends in a later month of the same
  year, the derived end lies a year and a month back while the derived start
  lies one month back. The derived end is then never after the derived
  start, and strictly before it except for an end on December 31, which
  rolls from November 31 to December 1 and gives the one-day range
  Dec 1..Dec 1. For example 2024-01-01..2024-03-15 compares with
  2023-12-01..2023-02-15 (`JanuaryFirstSameYearNotOrdered`,
  `ExampleJanuaryFirst`).
- Setting the year before the month matters for an end on February 29:
  the end becomes January 1 of the year before, not January 29
  (`SetterOrderMatters`).

Two further consequences for month mode:

- A range inside February compares with January 1–31 of the same year,
  because `setMonth` to January followed by `setDate(31)` never leaves
  January (`FebruaryForcedToJanuary`).
- A multi-month range inside one year, such as 2024-02-15..2024-04-10, takes
  the same-year branch and compares with the same dates a year back,
  2023-02-15..2023-04-10 (`ExampleMultiMonth`).

## Model

| member | source | states |
|---|---|---|
| Calendar.Normalize | app/page.js:57-67 | every setter's normalisation yields a valid date |
| Calendar.WithMonth | app/page.js:57-58 | `setMonth(m)` on a value gives a valid date, and the old year and day with month m when that month has the day |
| Calendar.WithFullYear | app/page.js:61-62 | `setFullYear(y)` on a value gives a valid date, and year y with the old month and day when that month of y has the day |
| Calendar.WithDate | app/page.js:66-67 | `setDate(d)` on a value gives a valid date, and the old year and month with day d when the month has day d |
| Calendar.NormalizeIsMakeDay | app/page.js:55-94 | a date is the result of normalising (y, m, d) exactly when it is valid and its day number is that of the first of the carried month plus d - 1 |
| Calendar.DayNumberOrder | app/page.js:110 | comparing two dates' time values is their chronological order, and equal day numbers mean equal dates |
| Calendar.DayNumberInjective | app/page.js:110 | two valid dates with the same day number are the same date |
| Calendar.NormalizeOfValid | app/page.js:86-87 | a setter whose result is already a valid date changes nothing else |
| Calendar.NormalizeOverflow | app/page.js:57-58 | a day past the end of a month by at most 28 rolls into the next month instead of clamping |
| Calendar.NormalizeMonthBeforeJanuary | app/page.js:57-58 | month -1 carries into December of the previous year |
| Calendar.WithDateDayNumber | app/page.js:134-135 | setting the day of the month to k moves the day number by k minus the old day |
| Calendar.JsDate.constructor | app/page.js:55-56 | `new Date(d)` is a fresh object holding the same date |
| Calendar.JsDate.SetMonth | app/page.js:57-58 | the object now holds the old year and day with month m, normalised |
| Calendar.JsDate.SetFullYear | app/page.js:61-62 | the object now holds year y with the old month and day, normalised |
| Calendar.JsDate.SetDate | app/page.js:66-67 | the object now holds the old year and month with day d, normalised |
| Comparison.ComparisonRange | app/page.js:47-95 | the derived range, when defined, consists of two valid dates |
| Comparison.SameMonthBranch | app/page.js:50-68 | the same-month branch's setter sequence yields two valid dates |
| Comparison.JanuaryFirstBranch | app/page.js:69-81 | the January 1 branch's setter sequence yields two valid dates |
| Comparison.YearBackBranch | app/page.js:82-95 | the year-back branch's setter sequence yields two valid dates |
| Comparison.CalculateComparisonRange | app/page.js:41-99 | nothing is recomputed unless exactly two dates are given; otherwise the outcome is undefined exactly when no branch applies, and else carries the derived range and both series for it |
| Comparison.DeriveComparisonDates | app/page.js:47-95 | the objects left by the branches hold the derived range, and no objects exist when no branch applies |
| Comparison.PreviousMonthOfSameMonth | app/page.js:50-68 | the setter calls of the same-month branch leave the branch's two dates |
| Comparison.PreviousMonthFromJanuaryFirst | app/page.js:69-81 | the setter calls of the January 1 branch, year before month, leave the branch's two dates |
| Comparison.SameDatesYearBefore | app/page.js:82-95 | `setFullYear(year - 1)` on both copies leaves the year-back pair |
| Comparison.WithFullYearOneYearBack | app/page.js:86-87 | one year back keeps month and day, except Feb 29, which becomes Mar 1 |
| Comparison.WithMonthOneMonthBack | app/page.js:57-58 | one month back keeps the day when the earlier month has it, else rolls the overflow into the original month |
| Comparison.PreviousYearShift | app/page.js:89-95 | year mode gives both ends one year back, Feb 29 to Mar 1, and is always defined |
| Comparison.SameMonthShift | app/page.js:50-58 | a range inside one month from March on compares with the same days one month earlier, overflow rolling forward |
| Comparison.JanuaryShift | app/page.js:57-63 | a range inside January of y compares with the same days of December of y - 1 |
| Comparison.FebruaryForcedToJanuary | app/page.js:57-68 | a range inside February of y compares with exactly Jan 1 to Jan 31 of y |
| Comparison.JanuaryFirstShift | app/page.js:69-81 | a range from Jan 1 ending in another month or year compares with Dec 1 of the previous year to the end moved back a year, then to December or the month before |
| Comparison.SetterOrderMatters | app/page.js:75-80 | for Feb 29, 2024 year-then-month gives Jan 1, 2023 and month-then-year gives Jan 29, 2023 |
| Comparison.JanuaryFirstSameYearNotOrdered | app/page.js:69-81 | from Jan 1 to a later month of the same year, the derived end is never after the derived start, strictly before it unless the end is December 31, and for December 31 both ends are December 1 of the year before |
| Comparison.MultiMonthSameYearShift | app/page.js:82-88 | a multi-month range within one year not starting Jan 1 compares with both ends one year back |
| Comparison.UndefinedExactly | app/page.js:49-97 | the comparison is undefined exactly in month mode for ranges across years that do not start Jan 1 |
| Comparison.ExampleMarch | app/page.js:50-58 | 2024-03-05..2024-03-20 compares with 2024-02-05..2024-02-20 |
| Comparison.ExampleMarch31 | app/page.js:57-58 | Mar 1..Mar 31 compares with Feb 1..Mar 3 in 2023 and Feb 1..Mar 2 in 2024 |
| Comparison.ExampleJanuary | app/page.js:57-63 | 2024-01-01..2024-01-10 compares with 2023-12-01..2023-12-10 |
| Comparison.ExampleLeapFebruary | app/page.js:65-68 | 2024-02-01..2024-02-29 compares with 2024-01-01..2024-01-31 |
| Comparison.ExampleMultiMonth | app/page.js:82-88 | 2024-02-15..2024-04-10 compares with 2023-02-15..2023-04-10 |
| Comparison.ExampleJanuaryFirst | app/page.js:69-81 | 2024-01-01..2024-03-15 compares with 2023-12-01..2023-02-15 |
| Comparison.ExampleAcrossYears | app/page.js:82-97 | 2023-11-15..2024-01-10 has no comparison |
| Series.Lookup | app/page.js:122-131 | a recorded day reads its count, and a nonzero count only comes from a record, so a missing day reads 0 |
| Series.DecimalString | app/page.js:114 | the numeral of a step number is nonempty and made of decimal digits |
| Series.DayLabel | app/page.js:114 | the label of step n is "Day " followed by digits that read back as n |
| Series.ChartData | app/page.js:105-137 | output satisfying the generator's specification has equally long series whose points carry the same labels index by index |
| Series.GenerateChartData | app/page.js:101-141 | both series have the inclusive day count of the selected range, and point i of each is labelled "Day i+1", dated i days after its own start and valued by the lookup or 0 |
| Series.AdvanceOneDay | app/page.js:134-135 | `setDate(getDate() + 1)` moves a cursor to the valid date one day number later |
| Series.DecimalRoundTrip | app/page.js:114 | the numeral in a label reads back as the step number, so labels of different steps differ |
| Series.ChartDataDetermined | app/page.js:105-137 | the series are determined by the selected range, the comparison start and the lookup; the comparison range's own end plays no part |
| Series.NoOrdersAllZero | app/page.js:122-131 | with no recorded orders every value of both series is 0 |
| Series.FiveDayRange | app/page.js:108-137 | a five-day range gives five points per series labelled "Day 1" to "Day 5", the comparison cursor crossing Feb 29 into March |
| Series.LabelsAligned | app/page.js:114-132 | point i of both series carries the same label "Day " followed by i + 1, and the selected point lies within the selected range |

## Left out

- React state and effects: `setComparisonRange`, `setSelectedChartData` and `setComparisonChartData` become the returned `Outcome`; the effect that reruns on a mode change is not modelled.
- URL query parameters, the router and `dayjs` parsing and formatting: browser I/O and a third-party library. Dates enter the model as valid calendar dates.
- `toLocaleDateString` formatting: a call into the Intl library. `actualDate` is the calendar date itself, as is the card text.
- `toISOString().split("T")` keys: they depend on the time zone. The order lookup is keyed by the calendar date, as a `map<Date, nat>`; the contents of `mockOrders` are not part of this model.
- Time of day, daylight saving time and milliseconds: every date is a whole local day, so the loop test `currentDate <= currentEnd` compares day numbers.
- The undefined comparison range: the dashboard still calls `generateChartData` with `undefined` ends, and `new Date(undefined).toISOString()` throws once the loop runs. The model returns `Unsupported` and produces no series.
- A missing selection (`!dates`) is modelled as a date list whose length is not 2.
- Chart configuration and JSX: presentation only.
- Comparison.ComparisonRange: its own contract states only that the derived dates are valid; what each branch derives is stated by the lemmas beside it.
- Comparison.SameMonthBranch, Comparison.JanuaryFirstBranch, Comparison.YearBackBranch: their own contracts state only validity; the dates each derives are stated by `SameMonthShift`, `JanuaryShift`, `FebruaryForcedToJanuary`, `JanuaryFirstShift`, `PreviousYearShift` and `MultiMonthSameYearShift`.
- TimeClip: an ECMAScript time value beyond ±8.64e15 ms (years outside about −271821..275760) makes the `Date` an Invalid Date; the model's years are unbounded and a `JsDate` never becomes invalid.
