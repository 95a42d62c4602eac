/** The dashboard's scenario engine (`app/app.py`): material prices shocked
    by a percentage and raised by an import duty, intensities reduced by
    recycling, the shocked prices pivoted to a (date x material) table, and
    every selected chemistry's cost per GWh recomputed from them and turned
    into material and battery cost per kWh in USD and INR. */
module Scenario {
  import opened Wrappers
  import opened Months
  import opened Tables
  import opened Composition
  import opened Dashboard

  /** The sidebar's scenario settings. Absent keys take the defaults the
      source's `.get` calls give: no shock, no duty, the global recycling
      rate. */
  datatype Settings = Settings(
    shockPct: map<string, real>,
    importDuty: map<string, real>,
    recycleGlobal: real,
    recycleOverride: map<string, real>,
    packOverheadPct: real,
    usdInr: real)

  // ---------------------------------------------------------------------
  // Shocked prices

  function ShockMultiplier(sc: Settings, m: string): real {
    1.0 + Get(sc.shockPct, m, 0.0) / 100.0
  }

  function Duty(sc: Settings, m: string): real {
    Get(sc.importDuty, m, 0.0)
  }

  /** `price * (1 + shock% / 100) + duty`; a missing price stays missing. */
  function ShockedPrice(price: Option<real>, m: string, sc: Settings): (r: Option<real>)
    ensures r.Some? <==> price.Some?
    ensures m !in sc.shockPct && m !in sc.importDuty ==> r == price
  {
    if price.None? then None else Some(price.value * ShockMultiplier(sc, m) + Duty(sc, m))
  }

  /** A 10% shock and a 5 USD duty take 100 USD/t to 115 USD/t. */
  lemma ShockExample(sc: Settings)
    requires sc.shockPct == map["nickel" := 10.0] && sc.importDuty == map["nickel" := 5.0]
    ensures ShockedPrice(Some(100.0), "nickel", sc) == Some(115.0)
  {
  }

  /** The duty is added after the shock, so the shock does not scale it. */
  lemma DutyIsNotShocked(p: real, m: string, sc: Settings)
    ensures ShockedPrice(Some(p), m, sc).value
      == ShockedPrice(Some(p), m, sc.(importDuty := map[])).value + Duty(sc, m)
  {
    assert Duty(sc.(importDuty := map[]), m) == 0.0;
  }

  /** Under a shock no worse than -100% a higher price stays higher. */
  lemma ShockedPriceMonotone(p: real, q: real, m: string, sc: Settings)
    requires p <= q && Get(sc.shockPct, m, 0.0) >= -100.0
    ensures ShockedPrice(Some(p), m, sc).value <= ShockedPrice(Some(q), m, sc).value
  {
    MultiplierNonNegative(sc, m);
    ScaleMonotone(p, q, ShockMultiplier(sc, m), Duty(sc, m));
  }

  lemma MultiplierNonNegative(sc: Settings, m: string)
    requires Get(sc.shockPct, m, 0.0) >= -100.0
    ensures ShockMultiplier(sc, m) >= 0.0
  {
  }

  lemma ScaleMonotone(p: real, q: real, k: real, d: real)
    requires p <= q && k >= 0.0
    ensures p * k + d <= q * k + d
  {
    assert (q - p) * k >= 0.0;
  }

  /** Every row with its price replaced by the shocked price. */
  function ShockRows(rows: seq<SeriesRow>, sc: Settings): (r: seq<SeriesRow>)
    ensures |r| == |rows|
    ensures forall i :: 0 <= i < |rows| ==>
      r[i] == rows[i].(value := ShockedPrice(rows[i].value, rows[i].key, sc))
  {
    seq(|rows|, i requires 0 <= i < |rows| => rows[i].(value := ShockedPrice(rows[i].value, rows[i].key, sc)))
  }

  /** A scenario with no shock and no duty leaves the prices as they are. */
  lemma NoShockKeepsRows(rows: seq<SeriesRow>, sc: Settings)
    requires sc.shockPct == map[] && sc.importDuty == map[]
    ensures ShockRows(rows, sc) == rows
  {
  }

  /** `mat_use`: the material table through the kind filter and the date
      range, with shocked prices. (The `isin(materials_all)` step keeps
      every row, since `materials_all` lists every material of the table.) */
  function MaterialsUse(mat: seq<SeriesRow>, choice: string, start: Option<Date>, end: Option<Date>, sc: Settings): (r: seq<SeriesRow>)
    ensures |r| <= |mat|
  {
    ShockRows(FilterDateRange(FilterKind(mat, choice), start, end), sc)
  }

  /** A row the kind filter and the date range both keep. */
  predicate KeptRow(t: SeriesRow, choice: string, start: Option<Date>, end: Option<Date>) {
    (ChosenKind(choice).Some? ==> t.kind == ChosenKind(choice).value) && InRange(t, start, end)
  }

  /** Every kept row of the table reaches `mat_use` with its shocked price. */
  lemma MaterialsUseKeeps(mat: seq<SeriesRow>, choice: string, start: Option<Date>, end: Option<Date>, sc: Settings, t: SeriesRow)
    requires t in mat && KeptRow(t, choice, start, end)
    ensures t.(value := ShockedPrice(t.value, t.key, sc)) in MaterialsUse(mat, choice, start, end, sc)
  {
    var k := FilterKind(mat, choice);
    FilterKindKeeps(mat, choice, t);
    FilterDateRangeIsMask(k, start, end);
    var kept := FilterDateRange(k, start, end);
    assert t in kept;
    var j :| 0 <= j < |kept| && kept[j] == t;
    assert ShockRows(kept, sc)[j] == t.(value := ShockedPrice(t.value, t.key, sc));
  }

  /** Every row of `mat_use` is a kept row of the table with its price shocked. */
  lemma MaterialsUseFrom(mat: seq<SeriesRow>, choice: string, start: Option<Date>, end: Option<Date>, sc: Settings, i: nat)
    requires i < |MaterialsUse(mat, choice, start, end, sc)|
    ensures exists t :: (t in mat && KeptRow(t, choice, start, end)
      && MaterialsUse(mat, choice, start, end, sc)[i] == t.(value := ShockedPrice(t.value, t.key, sc)))
  {
    var k := FilterKind(mat, choice);
    FilterDateRangeIsMask(k, start, end);
    var kept := FilterDateRange(k, start, end);
    var t := kept[i];
    assert t in kept;
    FilterKindKeeps(mat, choice, t);
    assert MaterialsUse(mat, choice, start, end, sc)[i] == t.(value := ShockedPrice(t.value, t.key, sc));
  }

  // ---------------------------------------------------------------------
  // The wide table `mat_wide`

  /** The priced values falling in the pivot cell `(d, m)`, in row order. */
  function CellValues(rows: seq<SeriesRow>, m: string, d: Month): (vs: seq<real>)
    ensures |vs| <= |rows|
    ensures |vs| == 0 <==> forall i :: 0 <= i < |rows| ==> !PricedAt(rows[i], m, d)
  {
    if rows == [] then []
    else
      (if PricedAt(rows[0], m, d) then [rows[0].value.value] else [])
      + CellValues(rows[1..], m, d)
  }

  /** A row of material `m` at month `d` that carries a price. */
  predicate PricedAt(t: SeriesRow, m: string, d: Month) {
    t.key == m && t.date == d && t.value.Some?
  }

  /** `pivot_table(index="date", columns="material")`: the mean of the
      cell's priced values, missing when there are none. */
  function WidePrice(rows: seq<SeriesRow>, m: string, d: Month): (r: Option<real>)
    ensures r.Some? <==> exists i :: 0 <= i < |rows| && PricedAt(rows[i], m, d)
  {
    var vs := CellValues(rows, m, d);
    if vs == [] then None else Some(Mean(vs))
  }

  /** A column of the wide table: `pivot_table` drops all-missing columns. */
  predicate HasColumn(rows: seq<SeriesRow>, m: string) {
    exists i :: 0 <= i < |rows| && rows[i].key == m && rows[i].value.Some?
  }

  /** A date of the wide table's index: `pivot_table` drops all-missing rows. */
  predicate InIndex(rows: seq<SeriesRow>, d: Month) {
    exists i :: 0 <= i < |rows| && rows[i].date == d && rows[i].value.Some?
  }

  /** A priced cell lies in a kept row and a kept column. */
  lemma PricedCellIsInTable(rows: seq<SeriesRow>, m: string, d: Month)
    requires WidePrice(rows, m, d).Some?
    ensures HasColumn(rows, m) && InIndex(rows, d)
  {
    var i :| 0 <= i < |rows| && PricedAt(rows[i], m, d);
  }

  /** At most one row per (material, month), as the material table holds. */
  predicate UniqueCells(rows: seq<SeriesRow>) {
    forall i, j :: 0 <= i < j < |rows| ==> rows[i].key != rows[j].key || rows[i].date != rows[j].date
  }

  lemma MeanOfOne(v: real)
    ensures Mean([v]) == v
  {
    assert Sum([v]) == v + Sum([]);
  }

  /** With one row per cell, the pivot's value is that row's price. */
  lemma {:induction false} WidePriceOfUniqueRow(rows: seq<SeriesRow>, i: nat)
    requires UniqueCells(rows) && i < |rows| && rows[i].value.Some?
    ensures WidePrice(rows, rows[i].key, rows[i].date) == rows[i].value
  {
    var m, d := rows[i].key, rows[i].date;
    CellOfUniqueRow(rows, i);
    MeanOfOne(rows[i].value.value);
  }

  lemma {:induction false} CellOfUniqueRow(rows: seq<SeriesRow>, i: nat)
    requires UniqueCells(rows) && i < |rows| && rows[i].value.Some?
    ensures CellValues(rows, rows[i].key, rows[i].date) == [rows[i].value.value]
  {
    var m, d := rows[i].key, rows[i].date;
    if i == 0 {
      assert forall j :: 0 <= j < |rows[1..]| ==> !PricedAt(rows[1..][j], m, d) by {
        forall j | 0 <= j < |rows[1..]|
          ensures !PricedAt(rows[1..][j], m, d)
        {
          assert rows[1..][j] == rows[j + 1];
        }
      }
    } else {
      assert !PricedAt(rows[0], m, d);
      assert rows[1..][i - 1] == rows[i];
      CellOfUniqueRow(rows[1..], i - 1);
    }
  }

  // ---------------------------------------------------------------------
  // Recycling

  /** The recycling rate applied to a material key. */
  function RecycleRate(sc: Settings, key: string): real {
    Get(sc.recycleOverride, key, sc.recycleGlobal)
  }

  /** The material keys of the intensity table (the override sliders). */
  function IntensityKeys(inten: seq<IntensityRow>): set<string> {
    set r | r in inten :: MaterialKey(r.material)
  }

  /** `recycle_override`: the per-key sliders when they are shown, otherwise
      the global rate for every key. */
  function ResolveOverrides(show: bool, keys: set<string>, slider: string -> real, global: real): (o: map<string, real>)
    ensures o.Keys == keys
  {
    if show then map k | k in keys :: slider(k) else map k | k in keys :: global
  }

  /** With the overrides hidden every material, listed or not, recycles at
      the global rate. */
  lemma HiddenOverridesFollowGlobal(sc: Settings, keys: set<string>, slider: string -> real, key: string)
    requires sc.recycleOverride == ResolveOverrides(false, keys, slider, sc.recycleGlobal)
    ensures RecycleRate(sc, key) == sc.recycleGlobal
  {
  }

  /** With the overrides shown, a listed key recycles at its slider's rate
      and any other key at the global rate. */
  lemma ShownOverridesFollowSliders(sc: Settings, keys: set<string>, slider: string -> real, key: string)
    requires sc.recycleOverride == ResolveOverrides(true, keys, slider, sc.recycleGlobal)
    ensures RecycleRate(sc, key) == if key in keys then slider(key) else sc.recycleGlobal
  {
  }

  /** `tons_per_gwh * (1 - recycle_pct / 100)`. */
  function EffectiveTons(row: IntensityRow, sc: Settings): real {
    row.tonsPerGwh * (1.0 - RecycleRate(sc, MaterialKey(row.material)) / 100.0)
  }

  /** Recycling between 0% and 100% scales the intensity into `[0, tons]`:
      0% keeps it, 100% removes it. */
  lemma EffectiveTonsBounds(row: IntensityRow, sc: Settings)
    requires row.tonsPerGwh >= 0.0
    requires 0.0 <= RecycleRate(sc, MaterialKey(row.material)) <= 100.0
    ensures 0.0 <= EffectiveTons(row, sc) <= row.tonsPerGwh
    ensures RecycleRate(sc, MaterialKey(row.material)) == 0.0 ==> EffectiveTons(row, sc) == row.tonsPerGwh
    ensures RecycleRate(sc, MaterialKey(row.material)) == 100.0 ==> EffectiveTons(row, sc) == 0.0
  {
    var f := 1.0 - RecycleRate(sc, MaterialKey(row.material)) / 100.0;
    assert 0.0 <= f <= 1.0;
    assert row.tonsPerGwh * f <= row.tonsPerGwh * 1.0;
  }

  // ---------------------------------------------------------------------
  // Scenario chemistry

  /** One basket row's `usd_per_gwh_component` at month `d`: the wide price
      of its key times its effective intensity, `NaN` (skipped by the sum)
      where the cell is missing. */
  function Component(wide: seq<SeriesRow>, row: IntensityRow, d: Month, sc: Settings): real {
    match WidePrice(wide, MaterialKey(row.material), d)
    case Some(p) => p * EffectiveTons(row, sc)
    case None => 0.0
  }

  /** `comp_df.sum(axis=1)` for chemistry `chem`: the components of its
      basket rows, missing ones counting as zero. */
  function ComponentSum(wide: seq<SeriesRow>, inten: seq<IntensityRow>, chem: string, d: Month, sc: Settings): real {
    if inten == [] then 0.0
    else
      (if inten[0].chemistry == chem then Component(wide, inten[0], d, sc) else 0.0)
      + ComponentSum(wide, inten[1..], chem, d, sc)
  }

  /** Some basket row of `chem` has a column in the wide table. */
  predicate HasPricedMaterial(wide: seq<SeriesRow>, inten: seq<IntensityRow>, chem: string) {
    exists j :: 0 <= j < |inten| && inten[j].chemistry == chem && HasColumn(wide, MaterialKey(inten[j].material))
  }

  /** `usd_per_gwh` of `chem_scn` at `(chem, d)`: a row exists for every
      selected chemistry with a basket row whose key is a wide column, at
      every date of the wide table. */
  function ScenarioChem(wide: seq<SeriesRow>, inten: seq<IntensityRow>, chems: set<string>, chem: string, d: Month, sc: Settings): (r: Option<real>)
    ensures r.Some? <==> chem in chems && InIndex(wide, d) && HasPricedMaterial(wide, inten, chem)
  {
    if chem in chems && InIndex(wide, d) && HasPricedMaterial(wide, inten, chem) then
      Some(ComponentSum(wide, inten, chem, d, sc))
    else None
  }

  /** Splitting the intensity table splits the scenario sum. */
  lemma {:induction false} ComponentSumAppend(wide: seq<SeriesRow>, a: seq<IntensityRow>, b: seq<IntensityRow>, chem: string, d: Month, sc: Settings)
    ensures ComponentSum(wide, a + b, chem, d, sc) == ComponentSum(wide, a, chem, d, sc) + ComponentSum(wide, b, chem, d, sc)
  {
    if a == [] {
      assert a + b == b;
    } else {
      assert (a + b)[1..] == a[1..] + b;
      ComponentSumAppend(wide, a[1..], b, chem, d, sc);
    }
  }

  /** Non-negative shocked prices and effective intensities give a
      non-negative cost. */
  lemma {:induction false} ComponentSumNonNegative(wide: seq<SeriesRow>, inten: seq<IntensityRow>, chem: string, d: Month, sc: Settings)
    requires forall i :: 0 <= i < |wide| && wide[i].value.Some? ==> wide[i].value.value >= 0.0
    requires forall r :: r in inten ==> EffectiveTons(r, sc) >= 0.0
    ensures ComponentSum(wide, inten, chem, d, sc) >= 0.0
  {
    if inten != [] {
      assert inten[0] in inten;
      ComponentNonNegative(wide, inten[0], d, sc);
      ComponentSumNonNegative(wide, inten[1..], chem, d, sc);
    }
  }

  lemma ComponentNonNegative(wide: seq<SeriesRow>, row: IntensityRow, d: Month, sc: Settings)
    requires forall i :: 0 <= i < |wide| && wide[i].value.Some? ==> wide[i].value.value >= 0.0
    requires EffectiveTons(row, sc) >= 0.0
    ensures Component(wide, row, d, sc) >= 0.0
  {
    var m := MaterialKey(row.material);
    if WidePrice(wide, m, d).Some? {
      CellValuesNonNegative(wide, m, d);
      var vs := CellValues(wide, m, d);
      MeanWithin(vs, 0.0, MaxOf(vs));
      ProductNonNegative(WidePrice(wide, m, d).value, EffectiveTons(row, sc));
    }
  }

  lemma ProductNonNegative(a: real, b: real)
    requires a >= 0.0 && b >= 0.0
    ensures a * b >= 0.0
  {
  }

  function MaxOf(xs: seq<real>): (r: real)
    requires |xs| > 0
    ensures forall i :: 0 <= i < |xs| ==> xs[i] <= r
  {
    if |xs| == 1 then xs[0]
    else
      var t := MaxOf(xs[1..]);
      if xs[0] >= t then xs[0] else t
  }

  lemma {:induction false} CellValuesNonNegative(rows: seq<SeriesRow>, m: string, d: Month)
    requires forall i :: 0 <= i < |rows| && rows[i].value.Some? ==> rows[i].value.value >= 0.0
    ensures forall i :: 0 <= i < |CellValues(rows, m, d)| ==> CellValues(rows, m, d)[i] >= 0.0
  {
    if rows != [] {
      CellValuesNonNegative(rows[1..], m, d);
    }
  }

  /** With one row per cell, all rows of month `d` of one kind, and a
      neutral scenario (no shock, no duty, no recycling), the scenario cost
      of a chemistry equals the base composition's sum for that kind. */
  lemma {:induction false} NeutralScenarioIsBaseComposition(rows: seq<SeriesRow>, inten: seq<IntensityRow>, chem: string, d: Month, kind: Kind, sc: Settings)
    requires UniqueCells(rows)
    requires forall i :: 0 <= i < |rows| && rows[i].date == d ==> rows[i].kind == kind
    requires sc.shockPct == map[] && sc.importDuty == map[] && sc.recycleOverride == map[] && sc.recycleGlobal == 0.0
    ensures ComponentSum(ShockRows(rows, sc), inten, chem, d, sc) == ChemSum(inten, rows, chem, d, kind)
  {
    NoShockKeepsRows(rows, sc);
    if inten != [] {
      NeutralComponent(rows, inten[0], d, kind, sc);
      NeutralScenarioIsBaseComposition(rows, inten[1..], chem, d, kind, sc);
    }
  }

  lemma NeutralComponent(rows: seq<SeriesRow>, r: IntensityRow, d: Month, kind: Kind, sc: Settings)
    requires UniqueCells(rows)
    requires forall i :: 0 <= i < |rows| && rows[i].date == d ==> rows[i].kind == kind
    requires sc.recycleOverride == map[] && sc.recycleGlobal == 0.0
    ensures Component(rows, r, d, sc) == RowSum(rows, MaterialKey(r.material), d, kind, r.tonsPerGwh)
  {
    RowSumIsCell(rows, MaterialKey(r.material), d, kind, r.tonsPerGwh);
    assert EffectiveTons(r, sc) == r.tonsPerGwh;
    match WidePrice(rows, MaterialKey(r.material), d)
    case Some(p) =>
      assert Component(rows, r, d, sc) == p * r.tonsPerGwh;
    case None =>
  }

  /** The base composition's per-row sum is the wide cell times the
      intensity, when cells are unique and month `d` has one kind. */
  lemma {:induction false} RowSumIsCell(rows: seq<SeriesRow>, key: string, d: Month, kind: Kind, tons: real)
    requires UniqueCells(rows)
    requires forall i :: 0 <= i < |rows| && rows[i].date == d ==> rows[i].kind == kind
    ensures RowSum(rows, key, d, kind, tons) == match WidePrice(rows, key, d) case Some(p) => p * tons case None => 0.0
  {
    if rows != [] {
      if PricedAt(rows[0], key, d) {
        RowSumOfPricedHead(rows, key, d, kind, tons);
      } else {
        UniqueCellsTail(rows);
        assert CellValues(rows, key, d) == CellValues(rows[1..], key, d);
        RowSumIsCell(rows[1..], key, d, kind, tons);
      }
    }
  }

  lemma UniqueCellsTail(rows: seq<SeriesRow>)
    requires UniqueCells(rows) && rows != []
    ensures UniqueCells(rows[1..])
  {
    forall i, j | 0 <= i < j < |rows[1..]|
      ensures rows[1..][i].key != rows[1..][j].key || rows[1..][i].date != rows[1..][j].date
    {
      assert rows[1..][i] == rows[i + 1] && rows[1..][j] == rows[j + 1];
    }
  }

  /** When the first row holds the cell, it is the only row that counts. */
  lemma RowSumOfPricedHead(rows: seq<SeriesRow>, key: string, d: Month, kind: Kind, tons: real)
    requires UniqueCells(rows) && rows != [] && PricedAt(rows[0], key, d) && rows[0].kind == kind
    ensures WidePrice(rows, key, d) == rows[0].value
    ensures RowSum(rows, key, d, kind, tons) == rows[0].value.value * tons
  {
    WidePriceOfUniqueRow(rows, 0);
    forall j | 0 <= j < |rows[1..]|
      ensures !Matches(rows[1..][j], key, d, kind)
    {
      assert rows[1..][j] == rows[j + 1];
    }
    NoMatchSumsToZero(rows[1..], key, d, kind, tons);
  }

  // ---------------------------------------------------------------------
  // Cost passes

  /** The cost columns `chem_scn` derives from `usd_per_gwh`. */
  datatype Cost = Cost(materialPerKwh: real, batteryPerKwh: real, inrPerKwh: real)

  /** `/ 1000`, then `* (1 + pack_overhead / 100)`, then `* usd_inr`. */
  function CostOf(usdPerGwh: real, sc: Settings): (c: Cost)
    ensures c.materialPerKwh * 1000.0 == usdPerGwh
    ensures usdPerGwh >= 0.0 && sc.packOverheadPct >= 0.0 ==> c.materialPerKwh <= c.batteryPerKwh
    ensures usdPerGwh >= 0.0 && sc.packOverheadPct >= 0.0 && sc.usdInr >= 1.0 ==> c.batteryPerKwh <= c.inrPerKwh
  {
    var material := usdPerGwh / 1000.0;
    var battery := material * (1.0 + sc.packOverheadPct / 100.0);
    assert material >= 0.0 && sc.packOverheadPct >= 0.0 ==> material * 1.0 <= battery;
    assert battery >= 0.0 && sc.usdInr >= 1.0 ==> battery * 1.0 <= battery * sc.usdInr;
    Cost(material, battery, battery * sc.usdInr)
  }

  /** 600,000 USD/GWh with 25% pack overhead at 83 INR/USD is 600 USD/kWh of
      material, 750 USD/kWh of battery and 62,250 INR/kWh. */
  lemma CostExample(sc: Settings)
    requires sc.packOverheadPct == 25.0 && sc.usdInr == 83.0
    ensures CostOf(600000.0, sc) == Cost(600.0, 750.0, 62250.0)
  {
  }

  /** The battery cost is linear in the chemistry cost: scaling `usd_per_gwh`
      scales every column. */
  lemma CostIsLinear(usdPerGwh: real, k: real, sc: Settings)
    ensures CostOf(k * usdPerGwh, sc).batteryPerKwh == k * CostOf(usdPerGwh, sc).batteryPerKwh
    ensures CostOf(k * usdPerGwh, sc).inrPerKwh == k * CostOf(usdPerGwh, sc).inrPerKwh
  {
    var f := 1.0 + sc.packOverheadPct / 100.0;
    var m := usdPerGwh / 1000.0;
    assert (k * usdPerGwh) / 1000.0 == k * m;
    assert (k * m) * f == k * (m * f);
    assert ((k * m) * f) * sc.usdInr == k * ((m * f) * sc.usdInr);
  }
}
