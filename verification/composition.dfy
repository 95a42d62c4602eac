/** The base chemistry composition of `scripts/build_forecasts.py`: each
    chemistry's cost per GWh is the sum, over its intensity rows, of material
    price times tons per GWh, per (chemistry, month, kind); the annual table
    averages those months per year. The material key used to match an
    intensity row to a price column is shared with the dashboard. */
module Composition {
  import opened Wrappers
  import opened Text
  import opened Months
  import opened Tables

  /** One row of the intensity table `data/intensity_baseline.csv`. */
  datatype IntensityRow = IntensityRow(chemistry: string, material: string, tonsPerGwh: real)

  /** Intensity names that differ from their price column. */
  const Aliases: map<string, string> := map["manganese" := "manganese_sulfate"]

  /** `material.lower().replace(" ", "_")`. */
  function Normalized(name: string): string {
    Underscore(Lower(name))
  }

  /** The price-column key of an intensity material: the normalised name,
      renamed when it is an alias. */
  function MaterialKey(name: string): string {
    Get(Aliases, Normalized(name), Normalized(name))
  }

  // ---------------------------------------------------------------------
  // Material keys

  lemma LowerCharIdempotent(c: char)
    ensures LowerChar(LowerChar(c)) == LowerChar(c)
  {
  }

  /** A normalised name has no space and no upper-case letter. */
  predicate IsKeyShaped(s: string) {
    forall i :: 0 <= i < |s| ==> s[i] != ' ' && !('A' <= s[i] <= 'Z')
  }

  lemma NormalizedIsKeyShaped(name: string)
    ensures IsKeyShaped(Normalized(name))
  {
  }

  /** Normalising a key-shaped string leaves it as it is. */
  lemma NormalizedOfKeyShaped(s: string)
    requires IsKeyShaped(s)
    ensures Normalized(s) == s
  {
    assert Lower(s) == s;
  }

  /** Every material key is key-shaped: no space, no capital letter. */
  lemma MaterialKeyIsKeyShaped(name: string)
    ensures IsKeyShaped(MaterialKey(name))
  {
    NormalizedIsKeyShaped(name);
    if Normalized(name) in Aliases {
      var k := Aliases[Normalized(name)];
      assert k == "manganese_sulfate";
      assert IsKeyShaped(k) by {
        forall i | 0 <= i < |k|
          ensures k[i] != ' ' && !('A' <= k[i] <= 'Z')
        {
        }
      }
    }
  }

  /** Keys are stable: the key of a key is the key itself. */
  lemma MaterialKeyIdempotent(name: string)
    ensures MaterialKey(MaterialKey(name)) == MaterialKey(name)
  {
    var k := MaterialKey(name);
    MaterialKeyIsKeyShaped(name);
    NormalizedOfKeyShaped(k);
    assert "manganese_sulfate" !in Aliases;
  }

  /** `Normalized` character by character. */
  lemma NormalizedPointwise(s: string, w: string)
    requires |s| == |w|
    requires forall i :: 0 <= i < |s| ==> w[i] == (if LowerChar(s[i]) == ' ' then '_' else LowerChar(s[i]))
    ensures Normalized(s) == w
  {
  }

  /** `Manganese` is priced as manganese sulfate. */
  lemma ManganeseKey()
    ensures MaterialKey("Manganese") == "manganese_sulfate"
  {
    NormalizedPointwise("Manganese", "manganese");
  }

  // ---------------------------------------------------------------------
  // Monthly composition

  /** A material-table row priced for `key` at `(date, kind)`. */
  predicate Matches(t: SeriesRow, key: string, date: Month, kind: Kind) {
    t.key == key && t.date == date && t.kind == kind
  }

  /** The components one intensity row adds at `(date, kind)`: the matching
      price rows times the intensity; missing prices add nothing. */
  function RowSum(rows: seq<SeriesRow>, key: string, date: Month, kind: Kind, tons: real): real {
    if rows == [] then 0.0
    else
      (if Matches(rows[0], key, date, kind) && rows[0].value.Some? then rows[0].value.value * tons else 0.0)
      + RowSum(rows[1..], key, date, kind, tons)
  }

  /** Whether some material-table row matches, priced or not. */
  predicate AnyMatch(rows: seq<SeriesRow>, key: string, date: Month, kind: Kind) {
    exists i :: 0 <= i < |rows| && Matches(rows[i], key, date, kind)
  }

  /** The sum of components of chemistry `chem` at `(date, kind)`. */
  function ChemSum(inten: seq<IntensityRow>, rows: seq<SeriesRow>, chem: string, date: Month, kind: Kind): real {
    if inten == [] then 0.0
    else
      (if inten[0].chemistry == chem
       then RowSum(rows, MaterialKey(inten[0].material), date, kind, inten[0].tonsPerGwh)
       else 0.0)
      + ChemSum(inten[1..], rows, chem, date, kind)
  }

  /** Whether `(chem, date, kind)` is a group of the monthly table: some
      intensity row of `chem` has a matching material row. */
  predicate HasGroup(inten: seq<IntensityRow>, rows: seq<SeriesRow>, chem: string, date: Month, kind: Kind) {
    exists j :: 0 <= j < |inten| && inten[j].chemistry == chem
      && AnyMatch(rows, MaterialKey(inten[j].material), date, kind)
  }

  /** `usd_per_gwh` of `chemistry_costs_monthly.csv` at `(chem, date, kind)`,
      or `None` where the table has no such row. */
  function ChemistryMonthly(inten: seq<IntensityRow>, rows: seq<SeriesRow>, chem: string, date: Month, kind: Kind): (r: Option<real>)
    ensures r.Some? <==> HasGroup(inten, rows, chem, date, kind)
  {
    if HasGroup(inten, rows, chem, date, kind) then Some(ChemSum(inten, rows, chem, date, kind)) else None
  }

  /** No intensity row names a material of the table: the list of
      components is empty and `pd.concat(comp)` raises. */
  predicate NoComponents(inten: seq<IntensityRow>, rows: seq<SeriesRow>) {
    forall j, i :: 0 <= j < |inten| && 0 <= i < |rows| ==> rows[i].key != MaterialKey(inten[j].material)
  }

  /** The monthly table is empty, the model's stand-in for the crash,
      exactly when there are no components. */
  lemma NoComponentsIsEmptyTable(inten: seq<IntensityRow>, rows: seq<SeriesRow>)
    ensures NoComponents(inten, rows) ==>
      forall chem, date, kind :: ChemistryMonthly(inten, rows, chem, date, kind).None?
    ensures !NoComponents(inten, rows) ==>
      exists chem, date, kind :: ChemistryMonthly(inten, rows, chem, date, kind).Some?
  {
    if !NoComponents(inten, rows) {
      var j, i :| 0 <= j < |inten| && 0 <= i < |rows| && rows[i].key == MaterialKey(inten[j].material);
      assert Matches(rows[i], MaterialKey(inten[j].material), rows[i].date, rows[i].kind);
      assert HasGroup(inten, rows, inten[j].chemistry, rows[i].date, rows[i].kind);
      assert ChemistryMonthly(inten, rows, inten[j].chemistry, rows[i].date, rows[i].kind).Some?;
    }
  }

  /** Splitting the intensity table splits the sum. */
  lemma {:induction false} ChemSumAppend(a: seq<IntensityRow>, b: seq<IntensityRow>, rows: seq<SeriesRow>, chem: string, date: Month, kind: Kind)
    ensures ChemSum(a + b, rows, chem, date, kind) == ChemSum(a, rows, chem, date, kind) + ChemSum(b, rows, chem, date, kind)
  {
    if a == [] {
      assert a + b == b;
    } else {
      assert (a + b)[1..] == a[1..] + b;
      ChemSumAppend(a[1..], b, rows, chem, date, kind);
    }
  }

  /** A material with no row in the material table adds nothing, and does
      not create a group on its own. */
  lemma {:induction false} UnknownMaterialAddsNothing(rows: seq<SeriesRow>, key: string, date: Month, kind: Kind, tons: real)
    requires forall t :: t in rows ==> t.key != key
    ensures RowSum(rows, key, date, kind, tons) == 0.0
    ensures !AnyMatch(rows, key, date, kind)
  {
    if rows != [] {
      UnknownMaterialAddsNothing(rows[1..], key, date, kind, tons);
      assert rows[0] in rows;
    }
  }

  /** A material whose only row at `(date, kind)` carries price `p`
      contributes `p` times the intensity. */
  lemma {:induction false} SingleRowContribution(rows: seq<SeriesRow>, key: string, date: Month, kind: Kind, tons: real, i: nat)
    requires i < |rows| && Matches(rows[i], key, date, kind) && rows[i].value.Some?
    requires forall j :: 0 <= j < |rows| && j != i ==> !Matches(rows[j], key, date, kind)
    ensures RowSum(rows, key, date, kind, tons) == rows[i].value.value * tons
  {
    if i == 0 {
      NoMatchSumsToZero(rows[1..], key, date, kind, tons);
    } else {
      SingleRowContribution(rows[1..], key, date, kind, tons, i - 1);
    }
  }

  lemma {:induction false} NoMatchSumsToZero(rows: seq<SeriesRow>, key: string, date: Month, kind: Kind, tons: real)
    requires forall j :: 0 <= j < |rows| ==> !Matches(rows[j], key, date, kind)
    ensures RowSum(rows, key, date, kind, tons) == 0.0
  {
    if rows != [] {
      NoMatchSumsToZero(rows[1..], key, date, kind, tons);
    }
  }

  /** Non-negative prices and intensities give a non-negative cost. */
  lemma {:induction false} ChemSumNonNegative(inten: seq<IntensityRow>, rows: seq<SeriesRow>, chem: string, date: Month, kind: Kind)
    requires forall t :: t in rows && t.value.Some? ==> t.value.value >= 0.0
    requires forall r :: r in inten ==> r.tonsPerGwh >= 0.0
    ensures ChemSum(inten, rows, chem, date, kind) >= 0.0
  {
    if inten != [] {
      RowSumNonNegative(rows, MaterialKey(inten[0].material), date, kind, inten[0].tonsPerGwh);
      ChemSumNonNegative(inten[1..], rows, chem, date, kind);
    }
  }

  lemma {:induction false} RowSumNonNegative(rows: seq<SeriesRow>, key: string, date: Month, kind: Kind, tons: real)
    requires forall t :: t in rows && t.value.Some? ==> t.value.value >= 0.0
    requires tons >= 0.0
    ensures RowSum(rows, key, date, kind, tons) >= 0.0
  {
    if rows != [] {
      assert rows[0] in rows;
      RowSumNonNegative(rows[1..], key, date, kind, tons);
    }
  }

  // ---------------------------------------------------------------------
  // Annual composition

  /** The monthly values of a chemistry in one calendar year, in month order,
      for the months that have a row. */
  function YearValues(inten: seq<IntensityRow>, rows: seq<SeriesRow>, chem: string, year: int, kind: Kind): seq<real> {
    Dropna(YearMonths(inten, rows, chem, year, kind))
  }

  /** The twelve monthly cells of `year`, January first. */
  function YearMonths(inten: seq<IntensityRow>, rows: seq<SeriesRow>, chem: string, year: int, kind: Kind): (r: seq<Option<real>>)
    ensures |r| == 12
    ensures forall k :: 0 <= k < 12 ==> r[k] == ChemistryMonthly(inten, rows, chem, MonthOf(year, k + 1), kind)
  {
    MonthsFrom(inten, rows, chem, year, kind, 1)
  }

  /** The monthly cells of months `from`..12 of `year`, in month order. */
  function MonthsFrom(inten: seq<IntensityRow>, rows: seq<SeriesRow>, chem: string, year: int, kind: Kind, from: int): (r: seq<Option<real>>)
    requires 1 <= from <= 13
    ensures |r| == 13 - from
    ensures forall k :: 0 <= k < |r| ==> r[k] == ChemistryMonthly(inten, rows, chem, MonthOf(year, from + k), kind)
    decreases 13 - from
  {
    if from == 13 then []
    else [ChemistryMonthly(inten, rows, chem, MonthOf(year, from), kind)] + MonthsFrom(inten, rows, chem, year, kind, from + 1)
  }

  /** The chemistry costs of the grouped months `from`..12 of `year`, in
      month order: the rows `groupby(["chemistry","year","kind"])` gathers. */
  function GroupCosts(inten: seq<IntensityRow>, rows: seq<SeriesRow>, chem: string, year: int, kind: Kind, from: int): seq<real>
    requires 1 <= from <= 13
    decreases 13 - from
  {
    if from == 13 then []
    else
      var d := MonthOf(year, from);
      (if HasGroup(inten, rows, chem, d, kind) then [ChemSum(inten, rows, chem, d, kind)] else [])
        + GroupCosts(inten, rows, chem, year, kind, from + 1)
  }

  lemma DropnaCons(s: seq<Option<real>>, head: Option<real>, tail: seq<Option<real>>)
    requires s == [head] + tail
    ensures Dropna(s) == (if head.Some? then [head.value] else []) + Dropna(tail)
  {
    assert s[1..] == tail;
  }

  /** The year's values are the costs of its grouped months, in month order. */
  lemma YearValuesAreGroupCosts(inten: seq<IntensityRow>, rows: seq<SeriesRow>, chem: string, year: int, kind: Kind)
    ensures YearValues(inten, rows, chem, year, kind) == GroupCosts(inten, rows, chem, year, kind, 1)
  {
    MonthsFromAreGroupCosts(inten, rows, chem, year, kind, 1);
  }

  lemma {:induction false} MonthsFromAreGroupCosts(inten: seq<IntensityRow>, rows: seq<SeriesRow>, chem: string, year: int, kind: Kind, from: int)
    requires 1 <= from <= 13
    ensures Dropna(MonthsFrom(inten, rows, chem, year, kind, from)) == GroupCosts(inten, rows, chem, year, kind, from)
    decreases 13 - from
  {
    if from < 13 {
      MonthsFromAreGroupCosts(inten, rows, chem, year, kind, from + 1);
      var d := MonthOf(year, from);
      var head := ChemistryMonthly(inten, rows, chem, d, kind);
      DropnaCons(MonthsFrom(inten, rows, chem, year, kind, from), head, MonthsFrom(inten, rows, chem, year, kind, from + 1));
      MonthHead(inten, rows, chem, d, kind, head);
    }
  }

  /** A monthly cell contributes its month's cost exactly when the month is grouped. */
  lemma MonthHead(inten: seq<IntensityRow>, rows: seq<SeriesRow>, chem: string, d: Month, kind: Kind, head: Option<real>)
    requires head == ChemistryMonthly(inten, rows, chem, d, kind)
    ensures (if head.Some? then [head.value] else [])
         == (if HasGroup(inten, rows, chem, d, kind) then [ChemSum(inten, rows, chem, d, kind)] else [])
  {
  }

  /** `usd_per_gwh` of `chemistry_costs_annual.csv`: the mean of the year's
      monthly rows, or `None` when the year has none. */
  function ChemistryAnnual(inten: seq<IntensityRow>, rows: seq<SeriesRow>, chem: string, year: int, kind: Kind): (r: Option<real>)
    ensures r.None? <==> forall m :: 1 <= m <= 12 ==> !HasGroup(inten, rows, chem, MonthOf(year, m), kind)
    ensures r.Some? ==> IsMeanOf(r.value, YearValues(inten, rows, chem, year, kind))
    ensures r.Some? ==> IsMeanOf(r.value, GroupCosts(inten, rows, chem, year, kind, 1))
  {
    var vals := YearValues(inten, rows, chem, year, kind);
    YearValuesAreGroupCosts(inten, rows, chem, year, kind);
    var months := YearMonths(inten, rows, chem, year, kind);
    assert forall m :: 1 <= m <= 12 ==> months[m - 1] == ChemistryMonthly(inten, rows, chem, MonthOf(year, m), kind);
    if vals == [] then None
    else
      MeanIsMean(vals);
      Some(Mean(vals))
  }

  /** `x` is the mean of the non-empty `xs`: `x` times the count is the sum. */
  predicate IsMeanOf(x: real, xs: seq<real>) {
    |xs| > 0 && x * (|xs| as real) == Sum(xs)
  }

  lemma MeanIsMean(xs: seq<real>)
    requires |xs| > 0
    ensures IsMeanOf(Mean(xs), xs)
  {
  }

  /** The annual value lies between bounds every monthly value of that year
      respects. */
  lemma AnnualWithinMonthly(inten: seq<IntensityRow>, rows: seq<SeriesRow>, chem: string, year: int, kind: Kind, lo: real, hi: real)
    requires forall m :: 1 <= m <= 12 && HasGroup(inten, rows, chem, MonthOf(year, m), kind) ==>
      lo <= ChemSum(inten, rows, chem, MonthOf(year, m), kind) <= hi
    requires ChemistryAnnual(inten, rows, chem, year, kind).Some?
    ensures lo <= ChemistryAnnual(inten, rows, chem, year, kind).value <= hi
  {
    var months := YearMonths(inten, rows, chem, year, kind);
    var vals := YearValues(inten, rows, chem, year, kind);
    forall i | 0 <= i < |vals|
      ensures lo <= vals[i] <= hi
    {
      assert vals[i] in vals;
      assert Some(vals[i]) in months;
      var k :| 0 <= k < 12 && months[k] == Some(vals[i]);
      assert HasGroup(inten, rows, chem, MonthOf(year, k + 1), kind);
    }
    MeanWithin(vals, lo, hi);
  }
}
