/** The dashboards' table helpers (`app/app.py`, `app/app_clean.py`): the
    series-kind radio, the inclusive date-range filter, the chained filter
    of the charts, and the two year-over-year KPI computations. */
module Dashboard {
  import opened Wrappers
  import opened Months
  import opened Tables

  // ---------------------------------------------------------------------
  // Filters

  /** The series-kind radio's labels that restrict the rows. */
  const HistoryOnly: string := "History only"
  const ForecastOnly: string := "Forecast only"

  /** The kind a radio choice admits, if it restricts at all. */
  function ChosenKind(choice: string): Option<Kind> {
    if choice == HistoryOnly then Some(History)
    else if choice == ForecastOnly then Some(Forecast)
    else None
  }

  /** `filter_kind(df)`: history rows, forecast rows, or every row. */
  function FilterKind(rows: seq<SeriesRow>, choice: string): (r: seq<SeriesRow>)
    ensures multiset(r) <= multiset(rows)
  {
    if choice == HistoryOnly then Filter(rows, (t: SeriesRow) => t.kind == History)
    else if choice == ForecastOnly then Filter(rows, (t: SeriesRow) => t.kind == Forecast)
    else rows
  }

  /** A row survives the kind filter exactly when the choice admits its kind. */
  lemma FilterKindKeeps(rows: seq<SeriesRow>, choice: string, t: SeriesRow)
    ensures t in FilterKind(rows, choice) <==>
      t in rows && (ChosenKind(choice).Some? ==> t.kind == ChosenKind(choice).value)
  {
  }

  /** Any other label (for example "Both") leaves the rows as they are. */
  lemma FilterKindBoth(rows: seq<SeriesRow>, choice: string)
    requires choice != HistoryOnly && choice != ForecastOnly
    ensures FilterKind(rows, choice) == rows
  {
  }

  /** Whether a month-stamped row lies within the optional bounds, both ends
      inclusive, comparing the row's first-of-month timestamp. */
  predicate InRange(t: SeriesRow, start: Option<Date>, end: Option<Date>) {
    && (start.Some? ==> DateLe(start.value, FirstDay(t.date)))
    && (end.Some? ==> DateLe(FirstDay(t.date), end.value))
  }

  /** `filter_date_range(df, start_date, end_date)`: one comparison per bound
      given, the rows unchanged when neither is. */
  function FilterDateRange(rows: seq<SeriesRow>, start: Option<Date>, end: Option<Date>): (r: seq<SeriesRow>)
    ensures multiset(r) <= multiset(rows)
  {
    match (start, end)
    case (Some(s), Some(e)) => Filter(rows, (t: SeriesRow) => DateLe(s, FirstDay(t.date)) && DateLe(FirstDay(t.date), e))
    case (Some(s), None) => Filter(rows, (t: SeriesRow) => DateLe(s, FirstDay(t.date)))
    case (None, Some(e)) => Filter(rows, (t: SeriesRow) => DateLe(FirstDay(t.date), e))
    case (None, None) => rows
  }

  /** The four branches are one mask: the rows within the bounds, in order. */
  lemma FilterDateRangeIsMask(rows: seq<SeriesRow>, start: Option<Date>, end: Option<Date>)
    ensures FilterDateRange(rows, start, end) == Filter(rows, (t: SeriesRow) => InRange(t, start, end))
  {
    var p := (t: SeriesRow) => InRange(t, start, end);
    match (start, end)
    case (Some(s), Some(e)) =>
      FilterExt(rows, (t: SeriesRow) => DateLe(s, FirstDay(t.date)) && DateLe(FirstDay(t.date), e), p);
    case (Some(s), None) =>
      FilterExt(rows, (t: SeriesRow) => DateLe(s, FirstDay(t.date)), p);
    case (None, Some(e)) =>
      FilterExt(rows, (t: SeriesRow) => DateLe(FirstDay(t.date), e), p);
    case (None, None) =>
      FilterAll(rows, p);
  }

  /** In month terms: a row is kept exactly when its month is at least the
      first month starting on or after `start` and at most the month `end`
      falls in. A start bound in mid-month therefore drops that month. */
  lemma FilterDateRangeMonths(rows: seq<SeriesRow>, start: Date, end: Date, t: SeriesRow)
    requires ValidDate(start) && ValidDate(end)
    ensures t in FilterDateRange(rows, Some(start), Some(end)) <==>
      t in rows && CeilMonth(start) <= t.date <= MonthOfDate(end)
  {
    OnOrAfterBound(t.date, start);
    OnOrBeforeBound(t.date, end);
  }

  /** The rows a chart shows (`app/app_clean.py`): kind filter, then the
      selected keys, then the date range. */
  function Selected(rows: seq<SeriesRow>, choice: string, keys: set<string>, start: Option<Date>, end: Option<Date>): (r: seq<SeriesRow>)
    ensures multiset(r) <= multiset(rows)
  {
    FilterDateRange(Filter(FilterKind(rows, choice), (t: SeriesRow) => t.key in keys), start, end)
  }

  /** The chained filters only remove rows, and they keep exactly the rows
      satisfying all three conditions. */
  lemma SelectedKeeps(rows: seq<SeriesRow>, choice: string, keys: set<string>, start: Option<Date>, end: Option<Date>, t: SeriesRow)
    ensures t in Selected(rows, choice, keys, start, end) <==>
      && t in rows
      && (ChosenKind(choice).Some? ==> t.kind == ChosenKind(choice).value)
      && t.key in keys
      && InRange(t, start, end)
  {
    var k := Filter(FilterKind(rows, choice), (t: SeriesRow) => t.key in keys);
    FilterDateRangeIsMask(k, start, end);
    FilterKindKeeps(rows, choice, t);
  }

  // ---------------------------------------------------------------------
  // Year-over-year change of `app/app_clean.py`

  /** `calculate_yoy(series)`: no value for fewer than twelve points,
      otherwise the percentage change from the twelfth point from the end to
      the last point; a missing price or a zero baseline gives a non-finite
      result. */
  function CalculateYoy(s: seq<Option<real>>): (y: Yoy)
    ensures y.NoBaseline? <==> |s| < 12
    ensures y.Pct? ==> s[|s| - 1].Some? && s[|s| - 12].Some? && s[|s| - 12].value != 0.0
  {
    if |s| < 12 then NoBaseline
    else
      var latest, yearAgo := s[|s| - 1], s[|s| - 12];
      if latest.Some? && yearAgo.Some? && yearAgo.value != 0.0 then
        Pct((latest.value - yearAgo.value) / yearAgo.value * 100.0)
      else Undefined
  }

  /** Both dashboards compute the same percentage once a baseline exists. */
  lemma CalculateYoyIsPercentChange(s: seq<Option<real>>)
    requires |s| >= 12
    ensures CalculateYoy(s) == PercentChange(s[|s| - 1], s[|s| - 12])
  {
    var latest, yearAgo := s[|s| - 1], s[|s| - 12];
    if latest.Some? && yearAgo.Some? && yearAgo.value != 0.0 {
      var l, b := latest.value, yearAgo.value;
      assert (l - b) / b == l / b - b / b;
      assert b / b == 1.0;
    }
  }

  /** Rows of consecutive months. */
  predicate Consecutive(rows: seq<SeriesRow>) {
    forall i :: 0 < i < |rows| ==> rows[i].date == rows[i - 1].date + 1
  }

  lemma {:induction false} ConsecutiveOffset(rows: seq<SeriesRow>, i: nat)
    requires Consecutive(rows) && i < |rows|
    ensures rows[i].date == rows[0].date + i
  {
    if i > 0 {
      ConsecutiveOffset(rows, i - 1);
    }
  }

  /** On a gap-free monthly series the baseline `calculate_yoy` compares with
      is eleven months before the latest point, not twelve. */
  lemma CalculateYoyBaselineGap(rows: seq<SeriesRow>)
    requires Consecutive(rows) && |rows| >= 12
    ensures rows[|rows| - 1].date - rows[|rows| - 12].date == 11
  {
    ConsecutiveOffset(rows, |rows| - 1);
    ConsecutiveOffset(rows, |rows| - 12);
  }

  // ---------------------------------------------------------------------
  // KPI tiles of `app/app.py`

  /** The position of a latest-dated row; of several rows on that date, the
      last one. */
  function Latest(rows: seq<SeriesRow>): (i: nat)
    requires |rows| > 0
    ensures i < |rows|
    ensures forall j :: 0 <= j < |rows| ==> rows[j].date <= rows[i].date
    ensures forall j :: i < j < |rows| ==> rows[j].date < rows[i].date
  {
    if |rows| == 1 then 0
    else
      var k := Latest(rows[..|rows| - 1]);
      if rows[|rows| - 1].date >= rows[k].date then |rows| - 1 else k
  }

  /** A KPI tile: the latest history price and its change over a year. */
  datatype Kpi = Kpi(value: Option<real>, yoy: Yoy)

  /** The history rows of one material. */
  function KeyRows(hist: seq<SeriesRow>, name: string): (rs: seq<SeriesRow>)
    ensures forall t :: t in rs <==> t in hist && t.key == name
  {
    Filter(hist, (t: SeriesRow) => t.key == name)
  }

  /** The price `groupby().last()` reports: that of the latest priced row. */
  function LatestPrice(rs: seq<SeriesRow>): (v: Option<real>)
    ensures v.Some? <==> exists t :: t in rs && t.value.Some?
    ensures v.Some? ==> exists t :: t in rs && t.value == v && LatestAmongPriced(rs, t)
  {
    var priced := Filter(rs, (t: SeriesRow) => t.value.Some?);
    if priced == [] then None
    else
      var t := priced[Latest(priced)];
      assert t in priced;
      assert LatestAmongPriced(rs, t) by {
        forall u | u in rs && u.value.Some?
          ensures u.date <= t.date
        {
          assert u in priced;
        }
      }
      t.value
  }

  /** No priced row of `rs` is dated after `t`. */
  predicate LatestAmongPriced(rs: seq<SeriesRow>, t: SeriesRow) {
    forall u :: u in rs && u.value.Some? ==> u.date <= t.date
  }

  /** The latest row of `rs` dated at or before `d` minus one year. */
  function YearAgo(rs: seq<SeriesRow>, d: Month): (b: Option<SeriesRow>)
    ensures b.None? <==> forall t :: t in rs ==> t.date > d - 12
    ensures b.Some? ==> b.value in rs && b.value.date <= d - 12
    ensures b.Some? ==> forall u :: u in rs && u.date <= d - 12 ==> u.date <= b.value.date
  {
    var before := Filter(rs, (t: SeriesRow) => t.date <= d - 12);
    if before == [] then None
    else
      var t := before[Latest(before)];
      assert t in before;
      assert forall u :: u in rs && u.date <= d - 12 ==> u in before;
      Some(t)
  }

  /** `kpi_pair(name)` over the history rows `hist`: `None` when the
      material has no history. Otherwise the value is the price of the
      latest priced row (`groupby().last()` skips missing prices), the date
      is the latest row's date `d`, and the change is measured against the
      latest row dated at or before `d` minus one year. */
  function KpiPair(hist: seq<SeriesRow>, name: string): (r: Option<Kpi>)
    ensures r.None? <==> forall t :: t in hist ==> t.key != name
    ensures r.Some? ==> (r.value.value.Some? <==> exists t :: t in hist && t.key == name && t.value.Some?)
    ensures r.Some? ==> (r.value.yoy.NoBaseline? <==>
      forall t, u :: t in hist && u in hist && t.key == name && u.key == name ==> t.date > u.date - 12)
  {
    var rs := KeyRows(hist, name);
    if rs == [] then
      assert forall t :: t in hist ==> t.key != name;
      None
    else
      var last := rs[Latest(rs)];
      assert last in rs;
      var v := LatestPrice(rs);
      var b := YearAgo(rs, last.date);
      Some(Kpi(v, if b.None? then NoBaseline else PercentChange(v, b.value.value)))
  }

  /** The tile's value is the price of a history row of the material that no
      other priced row of it post-dates. */
  lemma KpiValueIsLatestPrice(hist: seq<SeriesRow>, name: string)
    requires KpiPair(hist, name).Some? && KpiPair(hist, name).value.value.Some?
    ensures exists t :: (t in hist && t.key == name && t.value == KpiPair(hist, name).value.value
      && forall u :: u in hist && u.key == name && u.value.Some? ==> u.date <= t.date)
  {
    var rs := KeyRows(hist, name);
    var t :| t in rs && t.value == LatestPrice(rs) && LatestAmongPriced(rs, t);
    assert forall u :: u in hist && u.key == name ==> u in rs;
  }

  /** `t` is the row the change is measured against: a row of the material
      dated at least a year before its latest row `last`, and no row of the
      material in that range is more recent. */
  predicate IsYearAgoRow(hist: seq<SeriesRow>, name: string, t: SeriesRow, last: SeriesRow) {
    && t in hist && last in hist && t.key == name && last.key == name
    && t.date <= last.date - 12
    && (forall u :: u in hist && u.key == name ==> u.date <= last.date)
    && (forall u :: u in hist && u.key == name && u.date <= last.date - 12 ==> u.date <= t.date)
  }

  /** The change compares the tile's value with the price of the year-ago
      row. */
  lemma KpiBaselineIsLatestYearAgo(hist: seq<SeriesRow>, name: string)
    requires KpiPair(hist, name).Some? && !KpiPair(hist, name).value.yoy.NoBaseline?
    ensures exists t, last :: (IsYearAgoRow(hist, name, t, last)
      && KpiPair(hist, name).value.yoy == PercentChange(KpiPair(hist, name).value.value, t.value))
  {
    var rs := KeyRows(hist, name);
    var last := rs[Latest(rs)];
    assert last in rs;
    var b := YearAgo(rs, last.date);
    var t := b.value;
    assert KpiPair(hist, name) == Some(Kpi(LatestPrice(rs), PercentChange(LatestPrice(rs), t.value)));
    assert forall u :: u in hist && u.key == name ==> u in rs;
    assert IsYearAgoRow(hist, name, t, last);
  }
}
