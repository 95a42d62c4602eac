/** Calendar months as integers. Every table row of the pipeline is stamped
    with the first day of a month; month index `year * 12 + (month - 1)`
    makes "next month" `+ 1` and "a year earlier" `- 12`. */
module Months {

  type Month = int

  /** The month index of (year, month-of-year). */
  function MonthOf(year: int, month: int): Month
    requires 1 <= month <= 12
  {
    year * 12 + (month - 1)
  }

  function YearOf(m: Month): int {
    m / 12
  }

  function MonthOfYear(m: Month): int {
    m % 12 + 1
  }

  /** January 2020, the first month of the uploaded-data panel. */
  const Jan2020: Month := 2020 * 12

  /** Year and month-of-year read back from an index give the index again,
      and an index built from a year and month reads back as both. */
  lemma MonthRoundTrip(year: int, month: int, m: Month)
    requires 1 <= month <= 12
    ensures YearOf(MonthOf(year, month)) == year
    ensures MonthOfYear(MonthOf(year, month)) == month
    ensures 1 <= MonthOfYear(m) <= 12
    ensures MonthOf(YearOf(m), MonthOfYear(m)) == m
  {
  }

  /** A calendar day; only values with `1 <= month <= 12` and `day >= 1` arise. */
  datatype Date = Date(year: int, month: int, day: int)

  predicate ValidDate(d: Date) {
    1 <= d.month <= 12 && 1 <= d.day <= 31
  }

  /** `a <= b` on timestamps. */
  predicate DateLe(a: Date, b: Date) {
    || a.year < b.year
    || (a.year == b.year && a.month < b.month)
    || (a.year == b.year && a.month == b.month && a.day <= b.day)
  }

  /** The timestamp of a month-stamped row: the first of that month. */
  function FirstDay(m: Month): (d: Date)
    ensures ValidDate(d) && d.day == 1
  {
    Date(YearOf(m), MonthOfYear(m), 1)
  }

  /** `pd.Timestamp(d).replace(day=1)`: the month a date falls in. */
  function MonthOfDate(d: Date): Month
    requires ValidDate(d)
  {
    MonthOf(d.year, d.month)
  }

  /** The first month whose first day is on or after `d`. */
  function CeilMonth(d: Date): Month
    requires ValidDate(d)
  {
    if d.day == 1 then MonthOfDate(d) else MonthOfDate(d) + 1
  }

  /** Comparing first-of-month timestamps is comparing month indices. */
  lemma FirstDayMonotone(a: Month, b: Month)
    ensures DateLe(FirstDay(a), FirstDay(b)) <==> a <= b
  {
    var ya, ra, yb, rb := a / 12, a % 12, b / 12, b % 12;
    assert a == 12 * ya + ra && 0 <= ra < 12;
    assert b == 12 * yb + rb && 0 <= rb < 12;
    if ya < yb {
      assert 12 * ya + 12 <= 12 * yb;
    } else if ya > yb {
      assert 12 * yb + 12 <= 12 * ya;
    }
  }

  /** A row's first-of-month timestamp is on or after a bound exactly when its
      month is at least the bound's ceiling month. */
  lemma OnOrAfterBound(m: Month, d: Date)
    requires ValidDate(d)
    ensures DateLe(d, FirstDay(m)) <==> CeilMonth(d) <= m
  {
    MonthRoundTrip(d.year, d.month, m);
  }

  /** A row's first-of-month timestamp is on or before a bound exactly when its
      month is at most the month the bound falls in. */
  lemma OnOrBeforeBound(m: Month, d: Date)
    requires ValidDate(d)
    ensures DateLe(FirstDay(m), d) <==> m <= MonthOfDate(d)
  {
    MonthRoundTrip(d.year, d.month, m);
  }
}
