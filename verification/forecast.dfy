/** The per-material forecaster of `scripts/build_forecasts.py`: gap filling,
    the three-tier model (flat, exponential smoothing, linear drift), the
    trim to the current month, the rolling window and the forecast horizon,
    and the long table of history and forecast rows sorted by material and
    date. */
module Forecast {
  import opened Wrappers
  import opened Text
  import opened Months
  import opened Tables

  /** `ROLLING_MONTHS` when the environment does not set it. */
  const DefaultRollingMonths: nat := 60
  /** `FORECAST_MONTHS` when the environment does not set it. */
  const DefaultForecastMonths: int := 36
  /** Fewer filled points than this get the flat forecaster. */
  const MinSmoothingPoints: nat := 6

  // ---------------------------------------------------------------------
  // Gap filling: `interpolate("time").bfill().ffill()` on a monthly grid

  /** The last index at or before `i` that holds a value. */
  function PrevKnown(s: seq<Option<real>>, i: nat): (r: Option<nat>)
    requires i < |s|
    ensures r.Some? ==> r.value <= i && s[r.value].Some?
    ensures r.Some? ==> forall j :: r.value < j <= i ==> s[j].None?
    ensures r.None? ==> forall j :: 0 <= j <= i ==> s[j].None?
  {
    if s[i].Some? then Some(i)
    else if i == 0 then None
    else PrevKnown(s, i - 1)
  }

  /** The first index at or after `i` that holds a value. */
  function NextKnown(s: seq<Option<real>>, i: nat): (r: Option<nat>)
    requires i < |s|
    ensures r.Some? ==> i <= r.value < |s| && s[r.value].Some?
    ensures r.Some? ==> forall j :: i <= j < r.value ==> s[j].None?
    ensures r.None? ==> forall j :: i <= j < |s| ==> s[j].None?
    decreases |s| - i
  {
    if s[i].Some? then Some(i)
    else if i == |s| - 1 then None
    else NextKnown(s, i + 1)
  }

  /** The straight line through `(a, va)` and `(b, vb)` read at `i`. */
  function Interpolate(va: real, vb: real, a: nat, b: nat, i: nat): real
    requires a < b
  {
    va + (vb - va) * ((i - a) as real / (b - a) as real)
  }

  /** The filled value at `i`: interpolated between the neighbouring known
      points, the first known value before them, the last known value after
      them, and missing when the series has no value at all. */
  function FillAt(s: seq<Option<real>>, i: nat): Option<real>
    requires i < |s|
  {
    match (PrevKnown(s, i), NextKnown(s, i))
    case (Some(a), Some(b)) =>
      if a == b then s[a] else Some(Interpolate(s[a].value, s[b].value, a, b, i))
    case (None, Some(b)) => s[b]
    case (Some(a), None) => s[a]
    case (None, None) => None
  }

  /** The filled series. */
  function Fill(s: seq<Option<real>>): (r: seq<Option<real>>)
    ensures |r| == |s|
    ensures forall i :: 0 <= i < |s| ==> r[i] == FillAt(s, i)
  {
    seq(|s|, i requires 0 <= i < |s| => FillAt(s, i))
  }

  /** Known values are kept. */
  lemma FillKeepsKnown(s: seq<Option<real>>, i: nat)
    requires i < |s| && s[i].Some?
    ensures Fill(s)[i] == s[i]
  {
  }

  /** A series with at least one value has no gaps once filled. */
  lemma FillLeavesNoGaps(s: seq<Option<real>>, k: nat)
    requires k < |s| && s[k].Some?
    ensures forall i :: 0 <= i < |s| ==> Fill(s)[i].Some?
  {
    forall i | 0 <= i < |s|
      ensures FillAt(s, i).Some?
    {
      if k <= i {
        assert PrevKnown(s, i).Some?;
      } else {
        assert NextKnown(s, i).Some?;
      }
    }
  }

  /** A series with no value stays entirely missing. */
  lemma FillOfEmpty(s: seq<Option<real>>)
    requires forall i :: 0 <= i < |s| ==> s[i].None?
    ensures forall i :: 0 <= i < |s| ==> Fill(s)[i].None?
  {
  }

  /** Before the first known value the series is back-filled with it. */
  lemma FillLeading(s: seq<Option<real>>, first: nat, i: nat)
    requires first < |s| && s[first].Some?
    requires forall j :: 0 <= j < first ==> s[j].None?
    requires i <= first
    ensures Fill(s)[i] == s[first]
  {
    if i < first {
      assert PrevKnown(s, i).None?;
      assert NextKnown(s, i) == Some(first);
    }
  }

  /** After the last known value the series is forward-filled with it. */
  lemma FillTrailing(s: seq<Option<real>>, last: nat, i: nat)
    requires last < |s| && s[last].Some?
    requires forall j :: last < j < |s| ==> s[j].None?
    requires last <= i < |s|
    ensures Fill(s)[i] == s[last]
  {
    assert NextKnown(s, i).None? || NextKnown(s, i).value == last;
    assert PrevKnown(s, i) == Some(last);
  }

  /** Between two neighbouring known values the series follows the straight
      line through them. */
  lemma FillInterior(s: seq<Option<real>>, a: nat, b: nat, i: nat)
    requires a < i < b < |s| && s[a].Some? && s[b].Some?
    requires forall j :: a < j < b ==> s[j].None?
    ensures Fill(s)[i] == Some(Interpolate(s[a].value, s[b].value, a, b, i))
  {
    assert PrevKnown(s, i) == Some(a);
    assert NextKnown(s, i) == Some(b);
  }

  // ---------------------------------------------------------------------
  // The three forecasters of `fit_ets`

  /** The library's exponential-smoothing fit (additive trend, no season),
      which this model does not look inside: given the filled history it
      yields a fitted model whose step-`k` forecast is `path(k)`, or `None`
      when the fit raises. */
  type Ets = seq<real> -> Option<nat -> real>

  /** The object `fit_ets` returns. `Flat` repeats a level, `Smoothing` is
      the fitted library model, `Drift` extends the line through the first
      and last filled points. */
  datatype Forecaster =
    | Flat(level: Option<real>)
    | Smoothing(path: nat -> real)
    | Drift(series: seq<real>)

  /** A drift forecaster always has a series to read its last value from. */
  predicate WellFormed(m: Forecaster) {
    m.Drift? ==> |m.series| > 0
  }

  function Last<T>(s: seq<T>): T
    requires |s| > 0
  {
    s[|s| - 1]
  }

  /** `fit_ets(y)`: fill the series; with fewer than six filled points use the
      flat forecaster at the last filled value; otherwise the smoothing fit,
      falling back to drift when the fit raises. */
  function FitEts(y: seq<Option<real>>, ets: Ets): (m: Forecaster)
    requires |y| > 0
    ensures WellFormed(m)
    ensures m.Drift? ==> |m.series| == |y| >= MinSmoothingPoints
  {
    var f := Fill(y);
    var known := Dropna(f);
    FilledCount(y);
    if |known| < MinSmoothingPoints then Flat(Last(f))
    else match ets(known)
      case Some(path) => Smoothing(path)
      case None => Drift(known)
  }

  /** The drift slope `(last - first) / (n - 1)`. */
  function Slope(s: seq<real>): real
    requires |s| >= 2
  {
    (Last(s) - s[0]) / ((|s| - 1) as real)
  }

  /** The drift forecast `steps` months ahead of the last point, `steps >= 1`. */
  function DriftAt(s: seq<real>, steps: nat): real
    requires |s| >= 2
  {
    Last(s) + Slope(s) * (steps as real)
  }

  /** `model.forecast(steps)`. */
  function Predict(m: Forecaster, steps: nat): (r: seq<Option<real>>)
    requires WellFormed(m)
    ensures |r| == steps
  {
    match m
    case Flat(level) => seq(steps, _ => level)
    case Smoothing(path) => seq(steps, k requires 0 <= k < steps => Some(path(k)))
    case Drift(s) =>
      if |s| < 2 then seq(steps, _ => Some(Last(s)))
      else seq(steps, i requires 0 <= i < steps => Some(DriftAt(s, i + 1)))
  }

  /** The flat forecaster is chosen exactly when the series is shorter than
      six months or has no value at all (filling leaves no gap otherwise, so
      the threshold is on the length). */
  lemma FlatThreshold(y: seq<Option<real>>, ets: Ets)
    requires |y| > 0
    ensures FitEts(y, ets).Flat? <==> |y| < MinSmoothingPoints || Dropna(y) == []
  {
    if Dropna(y) == [] {
      FilledEmpty(y);
    } else {
      FilledLength(y);
    }
  }

  /** Which forecaster the fit yields, in terms of the raw series: flat at
      the last filled value for a short or empty series; otherwise the
      smoothing fit's own path when it succeeds, and drift over the filled
      series when it raises. */
  lemma FitDispatch(y: seq<Option<real>>, ets: Ets)
    requires |y| > 0
    ensures |y| < MinSmoothingPoints || Dropna(y) == [] ==> FitEts(y, ets) == Flat(Last(Fill(y)))
    ensures |y| >= MinSmoothingPoints && Dropna(y) != [] && ets(Dropna(Fill(y))).None? ==>
      FitEts(y, ets) == Drift(Dropna(Fill(y)))
    ensures |y| >= MinSmoothingPoints && Dropna(y) != [] && ets(Dropna(Fill(y))).Some? ==>
      FitEts(y, ets) == Smoothing(ets(Dropna(Fill(y))).value)
  {
    if Dropna(y) == [] {
      FilledEmpty(y);
    } else {
      FilledLength(y);
    }
  }

  /** Filling keeps either nothing or every month. */
  lemma FilledCount(y: seq<Option<real>>)
    ensures Dropna(Fill(y)) == [] || |Dropna(Fill(y))| == |y|
  {
    if Dropna(y) == [] {
      FilledEmpty(y);
    } else {
      FilledLength(y);
    }
  }

  lemma FilledEmpty(y: seq<Option<real>>)
    requires Dropna(y) == []
    ensures Dropna(Fill(y)) == []
  {
    FillOfEmpty(y);
  }

  lemma FilledLength(y: seq<Option<real>>)
    requires Dropna(y) != []
    ensures |Dropna(Fill(y))| == |y|
  {
    var k :| 0 <= k < |y| && y[k].Some?;
    FillLeavesNoGaps(y, k);
  }

  /** The flat forecast repeats the last observed value at every step
      (carried forward by the fill), and is missing throughout when the
      series has no value. */
  lemma FlatRepeatsLastObservation(y: seq<Option<real>>, ets: Ets, last: nat, steps: nat)
    requires last < |y| && y[last].Some?
    requires forall j :: last < j < |y| ==> y[j].None?
    requires |y| < MinSmoothingPoints
    ensures forall k :: 0 <= k < steps ==> Predict(FitEts(y, ets), steps)[k] == y[last]
  {
    var f := Fill(y);
    FillTrailing(y, last, |y| - 1);
    assert Last(f) == y[last];
    assert FitEts(y, ets) == Flat(y[last]);
    PredictFlat(y[last], steps);
  }

  lemma PredictFlat(level: Option<real>, steps: nat)
    ensures forall k :: 0 <= k < steps ==> Predict(Flat(level), steps)[k] == level
  {
  }

  /** Drift is used only when the smoothing fit raised, and then it extends
      the whole filled series. */
  lemma DriftOnlyAfterFailedFit(y: seq<Option<real>>, ets: Ets)
    requires |y| > 0 && FitEts(y, ets).Drift?
    ensures ets(Dropna(Fill(y))).None?
    ensures FitEts(y, ets).series == Dropna(Fill(y))
  {
  }

  /** The drift forecast continues the straight line through the first and
      last points: step `i` lies `n - 1 + i` slopes above the first point. */
  lemma {:induction false} DriftContinuesLine(s: seq<real>, steps: nat, i: nat)
    requires |s| >= 2 && 1 <= i <= steps
    ensures Predict(Drift(s), steps)[i - 1] == Some(s[0] + Slope(s) * ((|s| - 1 + i) as real))
  {
    var n := (|s| - 1) as real;
    var d := Last(s) - s[0];
    assert Slope(s) == d / n;
    assert d / n * n == d;
    var m := Slope(s);
    assert m * n == d;
    assert ((|s| - 1 + i) as real) == n + (i as real);
    assert m * (n + (i as real)) == m * n + m * (i as real);
    assert DriftAt(s, i) == s[0] + m * ((|s| - 1 + i) as real);
    assert Predict(Drift(s), steps)[i - 1] == Some(DriftAt(s, i));
  }

  /** Consecutive drift steps differ by the slope. */
  lemma DriftSteps(s: seq<real>, steps: nat, i: nat)
    requires |s| >= 2 && i + 1 < steps
    ensures Predict(Drift(s), steps)[i + 1].value - Predict(Drift(s), steps)[i].value == Slope(s)
  {
    var f := Predict(Drift(s), steps);
    assert f[i] == Some(DriftAt(s, i + 1)) && f[i + 1] == Some(DriftAt(s, i + 2));
    assert Slope(s) * ((i + 2) as real) == Slope(s) * ((i + 1) as real) + Slope(s);
  }

  /** A drift series of fewer than two points repeats its last value. */
  lemma DriftShortSeries(s: seq<real>, steps: nat)
    requires |s| == 1
    ensures forall k :: 0 <= k < steps ==> Predict(Drift(s), steps)[k] == Some(s[0])
  {
  }

  /** `[100, 110, 120]` drifts on to 130 and 140. */
  lemma DriftExample()
    ensures Predict(Drift([100.0, 110.0, 120.0]), 2) == [Some(130.0), Some(140.0)]
  {
    var s := [100.0, 110.0, 120.0];
    assert Slope(s) == 10.0;
    assert DriftAt(s, 1) == 130.0;
    assert DriftAt(s, 2) == 140.0;
  }

  // ---------------------------------------------------------------------
  // One material: trim, window, forecast horizon

  /** One column of the monthly price table: a material's prices on
      consecutive months from `start`, `None` where the cell is empty. */
  datatype PriceColumn = PriceColumn(material: string, start: Month, values: seq<Option<real>>)

  /** The month of the column's last entry. */
  function LastMonth(c: PriceColumn): Month {
    c.start + |c.values| - 1
  }

  /** `s[s.index <= CURRENT_MS]`: the entries up to the current month. */
  function TrimToCurrent(c: PriceColumn, current: Month): (r: PriceColumn)
    ensures r.material == c.material && r.start == c.start && r.values <= c.values
    ensures |r.values| > 0 ==> LastMonth(r) <= current
    ensures |r.values| < |c.values| ==> LastMonth(r) + 1 > current
  {
    var keep :=
      if current < c.start then 0
      else if current - c.start + 1 < |c.values| then current - c.start + 1
      else |c.values|;
    PriceColumn(c.material, c.start, c.values[..keep])
  }

  /** The rolling window: when more than `rolling` values are known, the last
      `rolling` entries. `iloc[-0:]` is the whole series, so a window of 0
      keeps everything. */
  function Window(c: PriceColumn, rolling: nat): (r: PriceColumn)
    ensures r.material == c.material && LastMonth(r) == LastMonth(c)
    ensures |r.values| <= |c.values| && r.values == c.values[|c.values| - |r.values|..]
    ensures rolling > 0 && |Dropna(c.values)| > rolling ==> |r.values| == rolling
    ensures |Dropna(c.values)| <= rolling ==> r == c
  {
    if rolling > 0 && |Dropna(c.values)| > rolling then
      PriceColumn(c.material, c.start + |c.values| - rolling, c.values[|c.values| - rolling..])
    else c
  }

  /** `ROLLING_MONTHS=0` disables the window. */
  lemma WindowOfZero(c: PriceColumn)
    ensures Window(c, 0) == c
  {
  }

  /** The series a material's model is fitted to. */
  function Prepared(c: PriceColumn, current: Month, rolling: nat): PriceColumn {
    Window(TrimToCurrent(c, current), rolling)
  }

  /** `min(last + 1, current + 1)`, the first forecast month as written. */
  function ForecastStart(w: PriceColumn, current: Month): Month {
    if LastMonth(w) + 1 <= current + 1 then LastMonth(w) + 1 else current + 1
  }

  /** The number of months in `pd.date_range(start, end, freq="MS")`. */
  function RangeLength(start: Month, end: Month): (n: nat)
    ensures n == 0 <==> end < start
    ensures n > 0 ==> start + n - 1 == end
  {
    if end < start then 0 else end - start + 1
  }

  /** History rows keep the raw (unfilled) prices of the window. */
  function HistoryRows(w: PriceColumn): (r: seq<SeriesRow>)
    ensures |r| == |w.values|
    ensures forall i :: 0 <= i < |r| ==> r[i] == SeriesRow(w.start + i, w.material, w.values[i], History)
  {
    seq(|w.values|, i requires 0 <= i < |w.values| => SeriesRow(w.start + i, w.material, w.values[i], History))
  }

  /** Forecast rows on consecutive months from `start`. */
  function ForecastRows(material: string, start: Month, values: seq<Option<real>>): (r: seq<SeriesRow>)
    ensures |r| == |values|
    ensures forall i :: 0 <= i < |r| ==> r[i] == SeriesRow(start + i, material, values[i], Forecast)
  {
    seq(|values|, i requires 0 <= i < |values| => SeriesRow(start + i, material, values[i], Forecast))
  }

  /** A material's rows form one block: one key, consecutive months. */
  predicate IsBlock(m: string, rows: seq<SeriesRow>) {
    && |rows| > 0
    && (forall i :: 0 <= i < |rows| ==> rows[i].key == m)
    && (forall i :: 0 <= i < |rows| ==> rows[i].date == rows[0].date + i)
  }

  /** The rows one material contributes to `material_forecasts.csv`, or
      `None` when it has no known price up to the current month. */
  function MaterialRows(c: PriceColumn, current: Month, rolling: nat, horizon: int, ets: Ets): (r: Option<seq<SeriesRow>>)
    ensures r.None? <==> Dropna(TrimToCurrent(c, current).values) == []
    ensures r.Some? ==> IsBlock(c.material, r.value)
  {
    var t := TrimToCurrent(c, current);
    if Dropna(t.values) == [] then None
    else
      var w := Window(t, rolling);
      assert |w.values| > 0 && LastMonth(w) <= current;
      Some(WindowRows(w, current, horizon, ets))
  }

  /** The history rows of the window followed by its forecast rows. */
  function WindowRows(w: PriceColumn, current: Month, horizon: int, ets: Ets): (r: seq<SeriesRow>)
    requires |w.values| > 0 && LastMonth(w) <= current
    ensures IsBlock(w.material, r)
  {
    var start := ForecastStart(w, current);
    var fc := Predict(FitEts(w.values, ets), RangeLength(start, current + horizon));
    ForecastStartIsNextMonth(w, current);
    HistoryThenForecastIsBlock(w, fc);
    HistoryRows(w) + ForecastRows(w.material, start, fc)
  }

  lemma HistoryThenForecastIsBlock(w: PriceColumn, fc: seq<Option<real>>)
    requires |w.values| > 0
    ensures IsBlock(w.material, HistoryRows(w) + ForecastRows(w.material, LastMonth(w) + 1, fc))
  {
    var h := HistoryRows(w);
    var f := ForecastRows(w.material, LastMonth(w) + 1, fc);
    var rows := h + f;
    forall i | 0 <= i < |rows|
      ensures rows[i].key == w.material && rows[i].date == rows[0].date + i
    {
      if i >= |h| {
        assert rows[i] == f[i - |h|];
      }
    }
  }

  /** Since history never passes the current month, the first forecast
      month is always the month after the last history month. */
  lemma ForecastStartIsNextMonth(w: PriceColumn, current: Month)
    requires LastMonth(w) <= current
    ensures ForecastStart(w, current) == LastMonth(w) + 1
  {
  }

  /** The layout of a material's rows: first the window's months with their
      raw prices as history, all at or before the current month; then the
      forecast months from the month after the last history month through
      `current + horizon`, one per month, with the model's forecasts. */
  predicate IsLayout(rows: seq<SeriesRow>, w: PriceColumn, current: Month, horizon: int, ets: Ets)
    requires |w.values| > 0
  {
    var n := RangeLength(LastMonth(w) + 1, current + horizon);
    && |rows| == |w.values| + n
    && (forall i :: 0 <= i < |w.values| ==>
          rows[i].kind == History && rows[i].date <= current && rows[i].value == w.values[i])
    && (forall i :: |w.values| <= i < |rows| ==>
          rows[i].kind == Forecast && LastMonth(w) < rows[i].date <= current + horizon)
    && (n > 0 ==> rows[|rows| - 1].date == current + horizon)
    && rows[|w.values|..] == ForecastRows(w.material, LastMonth(w) + 1, Predict(FitEts(w.values, ets), n))
  }

  lemma MaterialRowsLayout(c: PriceColumn, current: Month, rolling: nat, horizon: int, ets: Ets)
    requires MaterialRows(c, current, rolling, horizon, ets).Some?
    ensures |Prepared(c, current, rolling).values| > 0
    ensures IsLayout(MaterialRows(c, current, rolling, horizon, ets).value, Prepared(c, current, rolling), current, horizon, ets)
  {
    var t := TrimToCurrent(c, current);
    var w := Window(t, rolling);
    assert |w.values| > 0 && LastMonth(w) <= current;
    var rows := WindowRows(w, current, horizon, ets);
    assert MaterialRows(c, current, rolling, horizon, ets) == Some(rows);
    WindowRowsLayout(w, current, horizon, ets);
  }

  lemma WindowRowsLayout(w: PriceColumn, current: Month, horizon: int, ets: Ets)
    requires |w.values| > 0 && LastMonth(w) <= current
    ensures IsLayout(WindowRows(w, current, horizon, ets), w, current, horizon, ets)
  {
    ForecastStartIsNextMonth(w, current);
    var rows := WindowRows(w, current, horizon, ets);
    var n := RangeLength(LastMonth(w) + 1, current + horizon);
    var h := HistoryRows(w);
    var f := ForecastRows(w.material, LastMonth(w) + 1, Predict(FitEts(w.values, ets), n));
    assert rows == h + f;
    assert rows[|w.values|..] == f;
    forall i | |w.values| <= i < |rows|
      ensures rows[i].kind == Forecast && LastMonth(w) < rows[i].date <= current + horizon
    {
      assert rows[i] == f[i - |w.values|];
    }
  }

  /** The number of forecast months is `current + horizon - last`, or none
      when the history already reaches past the horizon. */
  lemma ForecastCount(last: Month, current: Month, horizon: int)
    ensures RangeLength(last + 1, current + horizon) == if current + horizon > last then current + horizon - last else 0
  {
  }

  // ---------------------------------------------------------------------
  // All materials: `pd.concat(rows).sort_values(["material", "date"])`

  /** Row `a` comes before row `b` in (material, date) order. */
  predicate RowBefore(a: SeriesRow, b: SeriesRow) {
    StrLt(a.key, b.key) || (a.key == b.key && a.date < b.date)
  }

  predicate RowsSorted(rows: seq<SeriesRow>) {
    forall i, j :: 0 <= i < j < |rows| ==> RowBefore(rows[i], rows[j])
  }

  predicate MaterialsSorted(cols: seq<PriceColumn>) {
    forall i, j :: 0 <= i < j < |cols| ==> StrLt(cols[i].material, cols[j].material)
  }

  /** Column names of a data frame are distinct. */
  predicate DistinctMaterials(cols: seq<PriceColumn>) {
    forall i, j :: 0 <= i < j < |cols| ==> cols[i].material != cols[j].material
  }

  /** Inserts a column into a list sorted by material. */
  function InsertColumn(c: PriceColumn, s: seq<PriceColumn>): (r: seq<PriceColumn>)
    requires MaterialsSorted(s)
    requires forall d :: d in s ==> d.material != c.material
    ensures MaterialsSorted(r)
    ensures multiset(r) == multiset(s) + multiset{c}
  {
    if s == [] then [c]
    else if StrLt(c.material, s[0].material) then
      forall d | d in s
        ensures StrLt(c.material, d.material)
      {
        var j :| 0 <= j < |s| && s[j] == d;
        if j > 0 {
          StrLtTransitive(c.material, s[0].material, s[j].material);
        }
      }
      LeadingColumn(c, s);
      [c] + s
    else
      StrLtTotal(c.material, s[0].material);
      assert s == [s[0]] + s[1..];
      var rest := InsertColumn(c, s[1..]);
      forall d | d in rest
        ensures StrLt(s[0].material, d.material)
      {
        assert d in multiset(rest);
        if d != c {
          assert d in multiset(s[1..]);
          var k :| 0 <= k < |s[1..]| && s[1..][k] == d;
          assert s[k + 1] == d;
        }
      }
      LeadingColumn(s[0], rest);
      assert multiset([s[0]] + rest) == multiset{s[0]} + multiset(rest);
      [s[0]] + rest
  }

  /** A column whose material comes before all of sorted columns can lead
      them. */
  lemma LeadingColumn(x: PriceColumn, s: seq<PriceColumn>)
    requires MaterialsSorted(s)
    requires forall d :: d in s ==> StrLt(x.material, d.material)
    ensures MaterialsSorted([x] + s)
  {
    forall i, j | 0 <= i < j < |[x] + s|
      ensures StrLt(([x] + s)[i].material, ([x] + s)[j].material)
    {
      assert ([x] + s)[j] == s[j - 1];
      if i > 0 {
        assert ([x] + s)[i] == s[i - 1];
      } else {
        assert s[j - 1] in s;
      }
    }
  }

  /** The columns in material order. */
  function SortColumns(cols: seq<PriceColumn>): (r: seq<PriceColumn>)
    requires DistinctMaterials(cols)
    ensures MaterialsSorted(r)
    ensures multiset(r) == multiset(cols)
  {
    if cols == [] then []
    else
      assert cols == [cols[0]] + cols[1..];
      var rest := SortColumns(cols[1..]);
      forall d | d in rest
        ensures d.material != cols[0].material
      {
        assert d in multiset(cols[1..]);
      }
      InsertColumn(cols[0], rest)
  }

  /** The blocks of the given columns, concatenated in that order. */
  function Blocks(cols: seq<PriceColumn>, current: Month, rolling: nat, horizon: int, ets: Ets): seq<SeriesRow> {
    if cols == [] then []
    else MaterialRows(cols[0], current, rolling, horizon, ets).GetOr([]) + Blocks(cols[1..], current, rolling, horizon, ets)
  }

  /** The rows of one material. */
  function RowsFor(rows: seq<SeriesRow>, m: string): seq<SeriesRow> {
    Filter(rows, (row: SeriesRow) => row.key == m)
  }

  /** The material forecast table, or `None` when no material has data
      (`pd.concat` of an empty list raises). It is sorted by material and
      date, and a material's rows are exactly its block. */
  function BuildMaterialForecasts(cols: seq<PriceColumn>, current: Month, rolling: nat, horizon: int, ets: Ets): (r: Option<seq<SeriesRow>>)
    requires DistinctMaterials(cols)
    ensures r.None? <==> forall c :: c in cols ==> MaterialRows(c, current, rolling, horizon, ets).None?
    ensures r.Some? ==> RowsSorted(r.value)
    ensures r.Some? ==> forall c :: c in cols ==>
      RowsFor(r.value, c.material) == MaterialRows(c, current, rolling, horizon, ets).GetOr([])
    ensures r.Some? ==> forall row :: row in r.value ==>
      exists c :: c in cols && row.key == c.material && row in MaterialRows(c, current, rolling, horizon, ets).GetOr([])
  {
    var sorted := SortColumns(cols);
    var rows := Blocks(sorted, current, rolling, horizon, ets);
    SortedBlocks(cols, sorted, current, rolling, horizon, ets);
    if rows == [] then None else Some(rows)
  }

  /** The blocks of a material-sorted permutation of the columns are sorted,
      hold each column's block, and are empty exactly when every column is
      skipped. */
  lemma SortedBlocks(cols: seq<PriceColumn>, sorted: seq<PriceColumn>, current: Month, rolling: nat, horizon: int, ets: Ets)
    requires MaterialsSorted(sorted) && multiset(sorted) == multiset(cols)
    ensures RowsSorted(Blocks(sorted, current, rolling, horizon, ets))
    ensures forall c :: c in cols ==>
      RowsFor(Blocks(sorted, current, rolling, horizon, ets), c.material) == MaterialRows(c, current, rolling, horizon, ets).GetOr([])
    ensures Blocks(sorted, current, rolling, horizon, ets) == [] <==>
      forall c :: c in cols ==> MaterialRows(c, current, rolling, horizon, ets).None?
    ensures forall row :: row in Blocks(sorted, current, rolling, horizon, ets) ==>
      exists c :: c in cols && row.key == c.material && row in MaterialRows(c, current, rolling, horizon, ets).GetOr([])
  {
    var rows := Blocks(sorted, current, rolling, horizon, ets);
    BlocksSorted(sorted, current, rolling, horizon, ets);
    forall c | c in cols
      ensures RowsFor(rows, c.material) == MaterialRows(c, current, rolling, horizon, ets).GetOr([])
    {
      assert c in multiset(sorted);
      BlocksFor(sorted, c, current, rolling, horizon, ets);
    }
    BlocksEmpty(sorted, current, rolling, horizon, ets);
    forall c
      ensures c in cols <==> c in sorted
    {
      assert c in cols <==> c in multiset(cols);
      assert c in sorted <==> c in multiset(sorted);
    }
    BlocksFrom(sorted, current, rolling, horizon, ets);
  }

  /** The blocks hold nothing but the columns' own blocks. */
  lemma {:induction false} BlocksFrom(cols: seq<PriceColumn>, current: Month, rolling: nat, horizon: int, ets: Ets)
    ensures forall row :: row in Blocks(cols, current, rolling, horizon, ets) ==>
      exists c :: c in cols && row.key == c.material && row in MaterialRows(c, current, rolling, horizon, ets).GetOr([])
  {
    if cols != [] {
      var b := MaterialRows(cols[0], current, rolling, horizon, ets).GetOr([]);
      var rest := Blocks(cols[1..], current, rolling, horizon, ets);
      BlocksFrom(cols[1..], current, rolling, horizon, ets);
      forall row: SeriesRow | row in b + rest
        ensures exists c :: c in cols && row.key == c.material && row in MaterialRows(c, current, rolling, horizon, ets).GetOr([])
      {
        if row in b {
          var i :| 0 <= i < |b| && b[i] == row;
          assert cols[0] in cols;
        } else {
          var c :| c in cols[1..] && row.key == c.material && row in MaterialRows(c, current, rolling, horizon, ets).GetOr([]);
          assert c in cols;
        }
      }
    }
  }

  /** Every row of the blocks belongs to a material above `m`. */
  lemma {:induction false} BlocksAbove(cols: seq<PriceColumn>, m: string, current: Month, rolling: nat, horizon: int, ets: Ets)
    requires forall c :: c in cols ==> StrLt(m, c.material)
    ensures forall row :: row in Blocks(cols, current, rolling, horizon, ets) ==> StrLt(m, row.key)
  {
    if cols != [] {
      var b := MaterialRows(cols[0], current, rolling, horizon, ets).GetOr([]);
      var rest := Blocks(cols[1..], current, rolling, horizon, ets);
      assert cols[0] in cols;
      forall row | row in b
        ensures StrLt(m, row.key)
      {
        var i :| 0 <= i < |b| && b[i] == row;
      }
      BlocksAbove(cols[1..], m, current, rolling, horizon, ets);
      assert Blocks(cols, current, rolling, horizon, ets) == b + rest;
    }
  }

  lemma {:induction false} BlocksSorted(cols: seq<PriceColumn>, current: Month, rolling: nat, horizon: int, ets: Ets)
    requires MaterialsSorted(cols)
    ensures RowsSorted(Blocks(cols, current, rolling, horizon, ets))
  {
    if cols != [] {
      var m := cols[0].material;
      var b := MaterialRows(cols[0], current, rolling, horizon, ets).GetOr([]);
      var rest := Blocks(cols[1..], current, rolling, horizon, ets);
      BlocksSorted(cols[1..], current, rolling, horizon, ets);
      forall c | c in cols[1..]
        ensures StrLt(m, c.material)
      {
      }
      BlocksAbove(cols[1..], m, current, rolling, horizon, ets);
      if b != [] {
        BlockIsSorted(m, b);
      }
      forall x, y | x in b && y in rest
        ensures RowBefore(x, y)
      {
      }
      SortedConcat(b, rest);
    }
  }

  /** A block is in date order. */
  lemma BlockIsSorted(m: string, rows: seq<SeriesRow>)
    requires IsBlock(m, rows)
    ensures RowsSorted(rows)
  {
  }

  /** Two sorted runs, the first entirely before the second, make a sorted run. */
  lemma SortedConcat(a: seq<SeriesRow>, b: seq<SeriesRow>)
    requires RowsSorted(a) && RowsSorted(b)
    requires forall x, y :: x in a && y in b ==> RowBefore(x, y)
    ensures RowsSorted(a + b)
  {
    var all := a + b;
    forall i, j | 0 <= i < j < |all|
      ensures RowBefore(all[i], all[j])
    {
      if j < |a| {
        assert all[i] == a[i] && all[j] == a[j];
      } else if i < |a| {
        assert all[i] in a && all[j] in b;
      } else {
        assert all[i] == b[i - |a|] && all[j] == b[j - |a|];
      }
    }
  }

  lemma {:induction false} BlocksFor(cols: seq<PriceColumn>, c: PriceColumn, current: Month, rolling: nat, horizon: int, ets: Ets)
    requires MaterialsSorted(cols) && c in cols
    ensures RowsFor(Blocks(cols, current, rolling, horizon, ets), c.material) == MaterialRows(c, current, rolling, horizon, ets).GetOr([])
  {
    var b := MaterialRows(cols[0], current, rolling, horizon, ets).GetOr([]);
    var rest := Blocks(cols[1..], current, rolling, horizon, ets);
    var p := (row: SeriesRow) => row.key == c.material;
    FilterAppend(b, rest, p);
    if cols[0] == c {
      FilterAll(b, p);
      forall d | d in cols[1..]
        ensures StrLt(c.material, d.material)
      {
      }
      BlocksAbove(cols[1..], c.material, current, rolling, horizon, ets);
      forall row | row in rest
        ensures !p(row)
      {
        StrLtIrreflexive(c.material);
      }
      FilterNone(rest, p);
    } else {
      assert c in cols[1..];
      StrLtIrreflexive(c.material);
      assert cols[0].material != c.material;
      FilterNone(b, p);
      BlocksFor(cols[1..], c, current, rolling, horizon, ets);
    }
  }

  lemma {:induction false} BlocksEmpty(cols: seq<PriceColumn>, current: Month, rolling: nat, horizon: int, ets: Ets)
    ensures Blocks(cols, current, rolling, horizon, ets) == [] <==>
      forall c :: c in cols ==> MaterialRows(c, current, rolling, horizon, ets).None?
  {
    if cols != [] {
      BlocksEmpty(cols[1..], current, rolling, horizon, ets);
    }
  }
}
