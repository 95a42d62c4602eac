/** The sensitivity tab of `app/app.py`: for one chemistry and month, the
    change in battery cost per kWh when each basket material's price moves
    by 10% either way, ordered from the smallest impact to the largest. */
module Sensitivity {
  import opened Wrappers
  import opened Months
  import opened Tables
  import opened Composition
  import opened Scenario

  /** One bar of the tornado: the basket key, its base contribution in USD
      per kWh of battery, the two deltas and the larger of their sizes. */
  datatype Impact = Impact(material: string, contribution: real, deltaUp: real, deltaDown: real, impact: real)

  /** What the tab shows: no scenario row for the month, no material priced
      at that month, or the bars. */
  datatype Outcome = NoBaseRow | NoMaterials | Bars(bars: seq<Impact>)

  /** `1 + pack_overhead / 100`. */
  function Overhead(sc: Settings): real {
    1.0 + sc.packOverheadPct / 100.0
  }

  /** A battery cost per kWh after a per-ton price change of `dp` on a
      material used at `eff` tons per GWh. */
  function Shifted(base: real, dp: real, eff: real, sc: Settings): real {
    base + (dp * eff) / 1000.0 * Overhead(sc)
  }

  function Abs(x: real): real {
    if x < 0.0 then -x else x
  }

  function Max(a: real, b: real): real {
    if a >= b then a else b
  }

  /** The bar of one basket row at month `d`, or `None` when the row's key
      has no wide price at `d`. The base price adds the import duty to the
      wide price, which already includes it. */
  function ImpactOf(wide: seq<SeriesRow>, row: IntensityRow, d: Month, sc: Settings, baseBattery: real): (r: Option<Impact>)
    ensures r.Some? <==> WidePrice(wide, MaterialKey(row.material), d).Some?
    ensures r.Some? ==> r.value.material == MaterialKey(row.material) && r.value.impact >= 0.0
  {
    var mk := MaterialKey(row.material);
    match WidePrice(wide, mk, d)
    case None => None
    case Some(p) =>
      var p0 := p + Duty(sc, mk);
      var eff := EffectiveTons(row, sc);
      var up := Shifted(baseBattery, p0 * 1.1 - p0, eff, sc);
      var down := Shifted(baseBattery, p0 * 0.9 - p0, eff, sc);
      var dUp, dDown := up - baseBattery, baseBattery - down;
      Some(Impact(mk, (p0 * eff) / 1000.0 * Overhead(sc), dUp, dDown, Max(Abs(dUp), Abs(dDown))))
  }

  /** Each delta is a tenth of the material's base contribution, the base
      battery cost cancels out of both, and the impact is the size of that
      tenth. */
  lemma DeltasAreTenthOfContribution(wide: seq<SeriesRow>, row: IntensityRow, d: Month, sc: Settings, baseBattery: real, otherBase: real)
    requires ImpactOf(wide, row, d, sc, baseBattery).Some?
    ensures var x := ImpactOf(wide, row, d, sc, baseBattery).value;
      && x.deltaUp == x.contribution / 10.0
      && x.deltaDown == x.contribution / 10.0
      && x.impact == Abs(x.contribution) / 10.0
    ensures ImpactOf(wide, row, d, sc, otherBase) == ImpactOf(wide, row, d, sc, baseBattery)
  {
    var mk := MaterialKey(row.material);
    var p := WidePrice(wide, mk, d).value;
    var p0 := p + Duty(sc, mk);
    var eff := EffectiveTons(row, sc);
    var f := Overhead(sc);
    var c := (p0 * eff) / 1000.0 * f;
    assert (p0 * 1.1 - p0) * eff == (p0 * eff) / 10.0;
    assert (p0 * 0.9 - p0) * eff == -((p0 * eff) / 10.0);
    assert ((p0 * eff) / 10.0) / 1000.0 * f == c / 10.0;
    var x := ImpactOf(wide, row, d, sc, baseBattery).value;
    var y := ImpactOf(wide, row, d, sc, otherBase).value;
    assert y.deltaUp == Shifted(otherBase, p0 * 1.1 - p0, eff, sc) - otherBase == c / 10.0;
    assert y.deltaDown == otherBase - Shifted(otherBase, p0 * 0.9 - p0, eff, sc) == c / 10.0;
    assert x == y;
  }

  /** With one row per cell, the base price of a material is its raw price
      shocked, plus the duty twice: once in the shocked price and once more
      on top of it. */
  lemma DutyCountedTwice(rows: seq<SeriesRow>, i: nat, row: IntensityRow, sc: Settings, baseBattery: real)
    requires UniqueCells(rows) && i < |rows| && rows[i].value.Some?
    requires rows[i].key == MaterialKey(row.material)
    ensures var x := ImpactOf(ShockRows(rows, sc), row, rows[i].date, sc, baseBattery);
      && x.Some?
      && x.value.contribution
        == ((rows[i].value.value * ShockMultiplier(sc, rows[i].key) + 2.0 * Duty(sc, rows[i].key)) * EffectiveTons(row, sc)) / 1000.0 * Overhead(sc)
  {
    var wide := ShockRows(rows, sc);
    ShockKeepsUniqueCells(rows, sc);
    WidePriceOfUniqueRow(wide, i);
  }

  lemma ShockKeepsUniqueCells(rows: seq<SeriesRow>, sc: Settings)
    requires UniqueCells(rows)
    ensures UniqueCells(ShockRows(rows, sc))
  {
    var wide := ShockRows(rows, sc);
    forall a, b | 0 <= a < b < |wide|
      ensures wide[a].key != wide[b].key || wide[a].date != wide[b].date
    {
    }
  }

  // ---------------------------------------------------------------------
  // Bars and their order

  /** The bars of chemistry `chem`'s basket rows priced at `d`, in basket
      order. */
  function Impacts(wide: seq<SeriesRow>, inten: seq<IntensityRow>, chem: string, d: Month, sc: Settings, baseBattery: real): (r: seq<Impact>)
    ensures forall x :: x in r ==> exists j :: (0 <= j < |inten| && inten[j].chemistry == chem
      && ImpactOf(wide, inten[j], d, sc, baseBattery) == Some(x))
    ensures forall j :: (0 <= j < |inten| && inten[j].chemistry == chem
      && ImpactOf(wide, inten[j], d, sc, baseBattery).Some?) ==> ImpactOf(wide, inten[j], d, sc, baseBattery).value in r
  {
    if inten == [] then []
    else
      var rest := Impacts(wide, inten[1..], chem, d, sc, baseBattery);
      assert forall j :: 1 <= j < |inten| ==> inten[j] == inten[1..][j - 1];
      var x := if inten[0].chemistry == chem then ImpactOf(wide, inten[0], d, sc, baseBattery) else None;
      if x.Some? then [x.value] + rest else rest
  }

  predicate SortedByImpact(s: seq<Impact>) {
    forall i, j :: 0 <= i < j < |s| ==> s[i].impact <= s[j].impact
  }

  /** Insertion of one bar into bars already in ascending order. */
  function Insert(x: Impact, s: seq<Impact>): (r: seq<Impact>)
    requires SortedByImpact(s)
    ensures SortedByImpact(r)
    ensures multiset(r) == multiset(s) + multiset{x}
  {
    if s == [] then [x]
    else if x.impact <= s[0].impact then
      SmallestLeads(x, s);
      [x] + s
    else
      var t := Insert(x, s[1..]);
      HeadStaysFirst(x, s, t);
      [s[0]] + t
  }

  /** A bar no larger than the first of sorted bars goes in front. */
  lemma SmallestLeads(x: Impact, s: seq<Impact>)
    requires SortedByImpact(s) && s != [] && x.impact <= s[0].impact
    ensures SortedByImpact([x] + s)
  {
    forall y | y in s
      ensures x.impact <= y.impact
    {
      var j :| 0 <= j < |s| && s[j] == y;
    }
    LeadingBar(x, s);
  }

  /** A bar larger than the first of sorted bars leaves it in front. */
  lemma HeadStaysFirst(x: Impact, s: seq<Impact>, t: seq<Impact>)
    requires SortedByImpact(s) && s != [] && x.impact > s[0].impact
    requires SortedByImpact(t) && multiset(t) == multiset(s[1..]) + multiset{x}
    ensures SortedByImpact([s[0]] + t)
    ensures multiset([s[0]] + t) == multiset(s) + multiset{x}
  {
    assert s == [s[0]] + s[1..];
    forall y | y in t
      ensures s[0].impact <= y.impact
    {
      assert y in multiset(t);
      if y != x {
        assert y in multiset(s[1..]);
        var k :| 0 <= k < |s[1..]| && s[1..][k] == y;
        assert s[k + 1] == y;
      }
    }
    LeadingBar(s[0], t);
  }

  /** A bar no larger than any of sorted bars can lead them. */
  lemma LeadingBar(x: Impact, s: seq<Impact>)
    requires SortedByImpact(s)
    requires forall y :: y in s ==> x.impact <= y.impact
    ensures SortedByImpact([x] + s)
  {
    forall i, j | 0 <= i < j < |[x] + s|
      ensures ([x] + s)[i].impact <= ([x] + s)[j].impact
    {
      assert ([x] + s)[j] == s[j - 1];
      if i > 0 {
        assert ([x] + s)[i] == s[i - 1];
      } else {
        assert s[j - 1] in s;
      }
    }
  }

  /** `sort_values("impact", ascending=True)`: the same bars, smallest
      impact first. */
  function SortByImpact(s: seq<Impact>): (r: seq<Impact>)
    ensures SortedByImpact(r)
    ensures multiset(r) == multiset(s)
  {
    if s == [] then []
    else
      assert s == [s[0]] + s[1..];
      Insert(s[0], SortByImpact(s[1..]))
  }

  /** The tornado of `chem` at the month `date` falls in. The base row is
      the scenario chemistry row of that month; its battery cost is the
      reference the bars are measured from. With a base row but no priced
      basket cell there are no bars (`NoMaterials`). */
  function Tornado(wide: seq<SeriesRow>, inten: seq<IntensityRow>, chems: set<string>, chem: string, date: Date, sc: Settings): (o: Outcome)
    requires ValidDate(date)
    ensures o.NoBaseRow? <==> ScenarioChem(wide, inten, chems, chem, MonthOfDate(date), sc).None?
    ensures o.Bars? ==> SortedByImpact(o.bars) && |o.bars| > 0
    ensures ScenarioChem(wide, inten, chems, chem, MonthOfDate(date), sc).Some? ==>
      (o.Bars? <==> Impacts(wide, inten, chem, MonthOfDate(date), sc,
                            CostOf(ScenarioChem(wide, inten, chems, chem, MonthOfDate(date), sc).value, sc).batteryPerKwh) != [])
  {
    var d := MonthOfDate(date);
    match ScenarioChem(wide, inten, chems, chem, d, sc)
    case None => NoBaseRow
    case Some(usdPerGwh) =>
      var impacts := Impacts(wide, inten, chem, d, sc, CostOf(usdPerGwh, sc).batteryPerKwh);
      if impacts == [] then NoMaterials else Bars(SortByImpact(impacts))
  }

  /** The bars are exactly the basket's priced rows, each listed once per
      basket row, whatever the base cost. */
  lemma TornadoBars(wide: seq<SeriesRow>, inten: seq<IntensityRow>, chems: set<string>, chem: string, date: Date, sc: Settings)
    requires ValidDate(date)
    requires Tornado(wide, inten, chems, chem, date, sc).Bars?
    ensures var d := MonthOfDate(date);
      var base := CostOf(ScenarioChem(wide, inten, chems, chem, d, sc).value, sc).batteryPerKwh;
      multiset(Tornado(wide, inten, chems, chem, date, sc).bars) == multiset(Impacts(wide, inten, chem, d, sc, base))
  {
  }

  /** A chemistry whose basket has no price at the month, but which has a
      scenario row there, gets no bars. */
  lemma {:induction false} NoPricedMaterialNoBars(wide: seq<SeriesRow>, inten: seq<IntensityRow>, chem: string, d: Month, sc: Settings, baseBattery: real)
    requires forall j :: 0 <= j < |inten| && inten[j].chemistry == chem ==>
      WidePrice(wide, MaterialKey(inten[j].material), d).None?
    ensures Impacts(wide, inten, chem, d, sc, baseBattery) == []
  {
    if inten != [] {
      NoPricedMaterialNoBars(wide, inten[1..], chem, d, sc, baseBattery);
    }
  }
}
