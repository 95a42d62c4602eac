/** Long-format table rows shared by the forecaster, the composition engine
    and the dashboards, and the list operations the pipeline applies to them. */
module Tables {
  import opened Wrappers
  import opened Months

  /** The `kind` column: observed or model-extrapolated. */
  datatype Kind = History | Forecast

  /** One row of a long table: `(date, material or chemistry, value, kind)`.
      `value` is `None` where pandas holds `NaN`. */
  datatype SeriesRow = SeriesRow(date: Month, key: string, value: Option<real>, kind: Kind)

  /** Outcome of a year-over-year percentage: no baseline point (`None` in the
      source), a defined percentage, or a `NaN`/infinite result (a missing
      price or a zero baseline). */
  datatype Yoy = NoBaseline | Undefined | Pct(pct: real)

  /** `((latest / baseline) - 1) * 100` in floating point: undefined when either
      is missing or the baseline is zero. */
  function PercentChange(latest: Option<real>, baseline: Option<real>): (y: Yoy)
    ensures y != NoBaseline
    ensures y.Pct? <==> latest.Some? && baseline.Some? && baseline.value != 0.0
    ensures y.Pct? ==> y.pct * baseline.value == (latest.value - baseline.value) * 100.0
  {
    if latest.Some? && baseline.Some? && baseline.value != 0.0 then
      Pct((latest.value / baseline.value - 1.0) * 100.0)
    else
      Undefined
  }

  /** The rows satisfying `p`, in their original order (a boolean mask). */
  function Filter<T(!new)>(s: seq<T>, p: T -> bool): (r: seq<T>)
    ensures |r| <= |s|
    ensures forall x :: x in r <==> x in s && p(x)
    ensures multiset(r) <= multiset(s)
  {
    if s == [] then []
    else
      assert s == [s[0]] + s[1..];
      if p(s[0]) then [s[0]] + Filter(s[1..], p) else Filter(s[1..], p)
  }

  /** A mask every row passes keeps the table as it is. */
  lemma {:induction false} FilterAll<T(!new)>(s: seq<T>, p: T -> bool)
    requires forall x :: x in s ==> p(x)
    ensures Filter(s, p) == s
  {
    if s != [] {
      FilterAll(s[1..], p);
    }
  }

  /** Filtering distributes over concatenation. */
  lemma {:induction false} FilterAppend<T(!new)>(a: seq<T>, b: seq<T>, p: T -> bool)
    ensures Filter(a + b, p) == Filter(a, p) + Filter(b, p)
  {
    if a == [] {
      assert a + b == b;
    } else {
      assert (a + b)[1..] == a[1..] + b;
      FilterAppend(a[1..], b, p);
    }
  }

  /** Masks that agree on every row select the same rows. */
  lemma {:induction false} FilterExt<T(!new)>(s: seq<T>, p: T -> bool, q: T -> bool)
    requires forall x :: x in s ==> p(x) == q(x)
    ensures Filter(s, p) == Filter(s, q)
  {
    if s != [] {
      assert s[0] in s;
      FilterExt(s[1..], p, q);
    }
  }

  /** Filtering preserves the relative order of the kept rows: a filter of
      a filter is a filter by both masks. */
  lemma {:induction false} FilterFilter<T(!new)>(s: seq<T>, p: T -> bool, q: T -> bool)
    ensures Filter(Filter(s, p), q) == Filter(s, (x: T) => p(x) && q(x))
  {
    if s != [] {
      FilterFilter(s[1..], p, q);
    }
  }

  /** A mask no row passes empties the table. */
  lemma {:induction false} FilterNone<T(!new)>(s: seq<T>, p: T -> bool)
    requires forall x :: x in s ==> !p(x)
    ensures Filter(s, p) == []
  {
    if s != [] {
      FilterNone(s[1..], p);
    }
  }

  /** `s.dropna()`: the present values, in order. */
  function Dropna(s: seq<Option<real>>): (r: seq<real>)
    ensures |r| <= |s|
    ensures forall x :: x in r <==> Some(x) in s
    ensures (forall i :: 0 <= i < |s| ==> s[i].Some?) ==>
      |r| == |s| && forall i :: 0 <= i < |s| ==> r[i] == s[i].value
    ensures |r| == 0 <==> forall i :: 0 <= i < |s| ==> s[i].None?
  {
    if s == [] then []
    else
      assert s == [s[0]] + s[1..];
      if s[0].Some? then [s[0].value] + Dropna(s[1..])
    else Dropna(s[1..])
  }

  function Sum(xs: seq<real>): real {
    if xs == [] then 0.0 else xs[0] + Sum(xs[1..])
  }

  lemma {:induction false} SumAppend(a: seq<real>, b: seq<real>)
    ensures Sum(a + b) == Sum(a) + Sum(b)
  {
    if a == [] {
      assert a + b == b;
    } else {
      assert (a + b)[1..] == a[1..] + b;
      SumAppend(a[1..], b);
    }
  }

  /** The arithmetic mean pandas' `mean()` takes over the non-missing values. */
  function Mean(xs: seq<real>): (r: real)
    requires |xs| > 0
    ensures r * (|xs| as real) == Sum(xs)
  {
    Sum(xs) / (|xs| as real)
  }

  /** A mean lies between any lower and upper bound of the values. */
  lemma MeanWithin(xs: seq<real>, lo: real, hi: real)
    requires |xs| > 0
    requires forall i :: 0 <= i < |xs| ==> lo <= xs[i] <= hi
    ensures lo <= Mean(xs) <= hi
  {
    SumBounds(xs, lo, hi);
    var n := |xs| as real;
    assert Mean(xs) * n == Sum(xs);
    assert lo * n <= Mean(xs) * n <= hi * n;
  }

  lemma {:induction false} SumBounds(xs: seq<real>, lo: real, hi: real)
    requires forall i :: 0 <= i < |xs| ==> lo <= xs[i] <= hi
    ensures lo * (|xs| as real) <= Sum(xs) <= hi * (|xs| as real)
  {
    if xs != [] {
      SumBounds(xs[1..], lo, hi);
    }
  }
}
