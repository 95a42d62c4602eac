# Battery material price forecasting — a Dafny model

This project models the computational core of a battery-material cost
dashboard. The pipeline has six parts, and each is modelled as pure functions
over immutable data:

- **Units** (`src/units.py`). Normalises quoted prices (USD/lb, USD/kg, USD/oz,
  cents/lb, CNY/t, USD/t) to US dollars per metric ton.
- **Symbols** (`src/symbol_resolver.py`). Picks, for each target material, the
  best-scoring TradingEconomics symbol among those whose name contains the
  material's word.
- **Uploads** (`scripts/process_uploaded_data.py`). Recognises the date, price
  and material columns of uploaded tables by keyword. It maps material names
  and file names to the seven target materials, then overlays their monthly
  series onto a panel that runs from January 2020 to the current month.
- **Forecast** (`scripts/build_forecasts.py`). For each material:
  - trims the series to the current month and applies the rolling window;
  - fills gaps by interpolation, then back-fill and forward-fill;
  - forecasts with a flat, exponential-smoothing or linear-drift model;
  - emits history rows followed by forecast rows.

  The long table is sorted by material and date.
- **Composition** (`scripts/build_forecasts.py`, `app/app.py`). Sums price ×
  tons-per-GWh per chemistry and month. The intensity file's material names
  are normalised to price-column keys.
- **Dashboard, Scenario and Sensitivity** (`app/app.py`, `app/app_clean.py`).
  Covers:
  - the kind and date filters;
  - the year-over-year and KPI tiles;
  - shocked prices with import duties;
  - the pivoted wide price table;
  - recycling-reduced intensities;
  - per-chemistry scenario cost per GWh and per kWh (material, battery, INR);
  - the ±10% tornado chart.

Modules follow that structure:

| module | contents |
|---|---|
| `Wrappers` | the `Option` type and map lookup with a default |
| `Text` | ASCII strip, upper and lower case, `in`, `\b` word matching, string order |
| `Months` | month indices and calendar dates |
| `Tables` | rows of the long tables, filters, `dropna`, sums and means, percentage change |
| `Units`, `Symbols`, `Uploads`, `Forecast`, `Composition`, `Dashboard`, `Scenario`, `Sensitivity` | one module per component above |

Modelling conventions:

- **Prices** are `real`s. A missing price (`NaN`) is `None`.
- **Months** are indices: `year * 12 + (month - 1)`.
- **Smoothing.** The exponential-smoothing library is an opaque parameter
  `Ets`. It either fails (`None`, where the library raises) or yields a
  forecast path.
- **Clock.** The current month and any "days old" computation are
  parameters.

Where the code and its surrounding documentation disagree, the model
follows the code:

- The drift slope divides by the length of the *filled* series.
- The first forecast month is always the month after the last history month.
  The `min` in `start_future` never bites, because the series was trimmed to
  the current month.
- The scenario table has a row for every date of the wide table, for every
  selected chemistry with at least one basket material among the wide
  table's columns. A date at which none of those materials is priced gets a
  cost of 0, because `sum(axis=1)` of an all-missing row is 0.
- The uploaded-file path's `normalize_material_name` is a different function
  from the symbol resolver's function of the same name. Both are modelled:
  `Uploads.NormalizeUploadName` and `Symbols.NormalizeMaterialName`.

## Model

| member | source | states |
|---|---|---|
| Wrappers.Get | app/app.py:690-691 | `dict.get(k, default)`: the stored value when the key is present, the default otherwise |
| Text.TrimLeft | src/units.py:41 | leading strip removes exactly a prefix of whitespace and leaves a non-space first character |
| Text.TrimRight | src/units.py:41 | trailing strip removes exactly a suffix of whitespace and leaves a non-space last character |
| Text.Trim | src/units.py:41 | `str.strip()` returns an infix of the input that starts and ends with non-space characters |
| Text.TrimPadded | src/units.py:41 | for any whitespace padding around a core that begins and ends with non-space, strip returns exactly the core |
| Text.TrimIdempotent | src/units.py:41 | stripping twice is stripping once |
| Text.Upper | src/units.py:41 | `str.upper()` keeps the length and upper-cases each character in place |
| Text.Lower | scripts/process_uploaded_data.py:164 | `str.lower()` keeps the length and lower-cases each character in place |
| Text.UpperOfUpperCased | src/units.py:41 | upper-casing a string with no lower-case letter leaves it unchanged |
| Text.LowerOfLowerCased | scripts/process_uploaded_data.py:164 | lower-casing a string with no upper-case letter leaves it unchanged |
| Text.UpperKeepsSpace | src/units.py:41 | upper-casing neither creates nor removes whitespace, so strip and upper commute |
| Text.Underscore | scripts/build_forecasts.py:62 | `replace(" ", "_")` replaces every space and nothing else, position by position |
| Text.ContainsIff | src/symbol_resolver.py:110 | `sub in s` holds exactly when `sub` occurs at some position of `s` |
| Text.ContainsChar | src/symbol_resolver.py:110 | a one-letter substring test is a character membership test |
| Text.ContainsInfix | src/symbol_resolver.py:110 | any infix of an occurring string also occurs |
| Text.WordIsContained | src/symbol_resolver.py:83 | a `\b`-delimited match of a word is in particular a substring match |
| Text.StrLtIrreflexive | scripts/build_forecasts.py:57 | the string order used by `sort_values` is irreflexive |
| Text.StrLtTransitive | scripts/build_forecasts.py:57 | the string order used by `sort_values` is transitive |
| Text.StrLtTotal | scripts/build_forecasts.py:57 | any two distinct material names are ordered one way or the other |
| Text.StrLtAsymmetric | scripts/build_forecasts.py:57 | the string order is asymmetric |
| Months.MonthRoundTrip | scripts/build_forecasts.py:17-18 | year and month of a month index round-trip, and every month index is a calendar month 1..12 of its year |
| Months.FirstDay | scripts/build_forecasts.py:18 | the first day of a month is a valid calendar date with day 1 |
| Months.FirstDayMonotone | app/app.py:675-676 | first days of months compare exactly as the months do |
| Months.OnOrAfterBound | app/app.py:678 | a month's first day is on or after a date exactly when the month is at least the date's ceiling month |
| Months.OnOrBeforeBound | app/app.py:680 | a month's first day is on or before a date exactly when the month is at most the date's month |
| Tables.PercentChange | app/app.py:711 | `(v / prev - 1) * 100` is defined exactly when both prices exist and the baseline is non-zero, and it then satisfies `pct * prev == (v - prev) * 100` |
| Tables.Filter | app/app.py:662 | a boolean mask keeps exactly the rows satisfying the predicate, in order, without inventing rows |
| Tables.FilterAppend | app/app.py:662 | masking distributes over concatenation |
| Tables.FilterFilter | app/app_clean.py:325-327 | two successive masks are one mask with the conjunction |
| Tables.FilterAll | app/app.py:665 | a mask every row satisfies keeps the table unchanged |
| Tables.FilterNone | app/app.py:662 | a mask no row satisfies yields the empty table |
| Tables.Dropna | scripts/build_forecasts.py:45 | `dropna()` keeps exactly the present values, and the result is empty exactly when every value is missing |
| Tables.SumAppend | scripts/build_forecasts.py:76-78 | a group sum splits over concatenated groups |
| Tables.Mean | scripts/build_forecasts.py:83 | the mean times the count is the sum |
| Tables.MeanWithin | scripts/build_forecasts.py:83 | the mean of values within bounds lies within the same bounds |
| Units.Convert | src/units.py:43-68 | a conversion exists exactly for the six recognised unit families |
| Units.ToUsdPerTon | src/units.py:17-68 | `None` exactly when the value or the unit is missing or the cleaned unit is unrecognised; USD-per-ton spellings return the value unchanged |
| Units.ConvertsByFamily | src/units.py:41-68 | conversion depends only on the family of the stripped, upper-cased unit |
| Units.FamilySpellings | src/units.py:44-64 | each family is recognised by exactly the spellings the regexes and comparisons accept |
| Units.ConversionIsProportional | src/units.py:43-65 | every recognised conversion is linear in the value and maps 0 to 0 |
| Units.ConversionKeepsSign | src/units.py:43-65 | a positive price converts to a positive price when the CNY rate is positive |
| Units.CleanIdempotent | src/units.py:41 | cleaning a cleaned unit changes nothing |
| Units.MatchingIgnoresCaseAndPadding | src/units.py:41 | converting a raw unit or its cleaned form gives the same result |
| Units.InnerSpacesDoNotConvert | src/units.py:41-68 | strip only removes outer whitespace, so `"USD / KG"` is not recognised |
| Units.MissingOrUnknownIsNone | src/units.py:37-38 | a missing value or unit, or an unrecognised one, gives `None` |
| Units.ExamplePerLb | src/units.py:161 | 100 USD/lb is 220462.262185 USD/t |
| Units.ExamplePerKg | src/units.py:162 | 1000 USD/kg is 1000000 USD/t |
| Units.ExampleCnyPerTon | src/units.py:163 | 50000 CNY/T at 0.14 USD per CNY is 7000 USD/t |
| Units.ExamplePerTon | src/units.py:164 | 100 USD/TON stays 100 |
| Units.ExampleCentsPerLb | src/units.py:165 | 50 cents/lb is 1102.311310925 USD/t |
| Units.DetectUnit | src/units.py:71-99 | the empty string stays empty; a cleaned unit in the mapping becomes its standard form; any other cleaned unit is kept |
| Units.MappedSpellings | src/units.py:87-97 | every standard form is USD/TON, CNY/TON or CENTS/LB |
| Units.StandardSpellings | src/units.py:87-97 | the standard forms are not themselves remapped, except CENTS/LB, which maps to itself |
| Units.MappingValuesAreFixed | src/units.py:87-99 | a standard form is clean and is left alone by the mapping |
| Units.DetectUnitIdempotent | src/units.py:71-99 | detecting the unit of a detected unit changes nothing |
| Units.StandardFormKeepsFamily | src/units.py:87-99 | standardising a spelling never changes its conversion family |
| Units.DetectUnitKeepsFamily | src/units.py:71-99 | the detected unit has the family of the cleaned raw unit |
| Units.InfoOf | src/units.py:102-155 | conversion info reports "unknown" exactly when there is no factor, and the exchange rate exactly for CNY units |
| Units.InfoAgreesWithConvert | src/units.py:43-155 | the factor reported by `get_conversion_info` is the factor `to_usd_per_ton` applies, and "unknown" exactly when it returns `None` |
| Units.ConversionInfoAgrees | src/units.py:102-155 | for any raw unit, the conversion info agrees with the conversion itself |
| Units.ConvertOrKeep | scripts/fetch_prices_te.py:323-325 | the fetcher keeps the raw price when conversion fails and takes the converted one otherwise |
| Symbols.TonTierIsAnyT | src/symbol_resolver.py:109-117 | the ton tier (10) is given exactly when the upper-cased unit contains a `T`, and any other unit scores at most 5 |
| Symbols.TakeToken | src/symbol_resolver.py:133 | the first token is a prefix without whitespace that ends at whitespace or at the end |
| Symbols.FirstToken | src/symbol_resolver.py:133 | `lastupdate.split()[0]` is non-empty whenever the string is not all whitespace |
| Symbols.RecencyOf | src/symbol_resolver.py:126-143 | an all-whitespace non-empty date gets the neutral 2.5 (the `split()[0]` error path); a date whose first token parses gets exactly that age, and an age is only ever read from the first token; a missing, empty or non-text cell gets nothing |
| Symbols.RecencyScore | src/symbol_resolver.py:136 | the recency bonus is never negative and at most 5 for dates not in the future |
| Symbols.RecencyFades | src/symbol_resolver.py:136 | the bonus is `5 - days/30`: 5 at day 0, 0 from day 150 on |
| Symbols.SymbolScore | src/symbol_resolver.py:95-145 | a symbol score is never negative |
| Symbols.SymbolScoreBound | src/symbol_resolver.py:106-145 | a score is at most 10 + 5 + 5 = 20 |
| Symbols.UsdTonUnitsWin | src/symbol_resolver.py:109-124 | at equal recency, a USD unit with a `T` beats any unit without one |
| Symbols.Matching | src/symbol_resolver.py:77-90 | the candidates are exactly the rows whose lower-cased name matches one of the words as a whole word (`\bword\b`), each with its computed score |
| Symbols.MatchingInFrameOrder | src/symbol_resolver.py:77-90 | the candidates are the matching rows in frame order, one candidate per matching row: candidate `i` is built from the `i`-th matching row |
| Symbols.FindCandidates | src/symbol_resolver.py:54-92 | an empty table, or one missing any of the symbol, name and unit columns, gives no candidates; otherwise the matching rows |
| Symbols.SelectBestSymbol | src/symbol_resolver.py:148-169 | no symbol exactly when there are no candidates; otherwise the projection of the first candidate of maximal score |
| Symbols.FirstMaxUnique | src/symbol_resolver.py:162 | `max` picks a unique position: the first of the maximal scores |
| Symbols.BestIndex | src/symbol_resolver.py:162 | a first maximal position exists in every non-empty candidate list |
| Symbols.SelectAgreesWithBestSymbol | src/symbol_resolver.py:148-169 | the loop and the functional definition of the best symbol agree on every input |
| Symbols.ResolveSymbols | src/symbol_resolver.py:14-51 | a target is resolved exactly when it has candidates, and its symbol is the first candidate of highest score, as `select_best_symbol` picks |
| Symbols.MissingColumnResolvesNothing | src/symbol_resolver.py:71-74 | a table missing a required column resolves no material |
| Symbols.NormalizeMaterialName | src/symbol_resolver.py:192-203 | an exact key of the mapping gives its mapped value; any other name is lower-cased with spaces turned into underscores |
| Symbols.ManganeseIsSulfate | src/symbol_resolver.py:182 | "Manganese" normalises to `manganese_sulfate`, not to `manganese` |
| Symbols.KeyShapedIsNotMapped | src/symbol_resolver.py:179-189 | the mapping's keys are all capitalised, so no key-shaped name is mapped |
| Symbols.MappingValuesKeyShaped | src/symbol_resolver.py:179-189 | every mapped column name is already key-shaped |
| Symbols.NormalizeMaterialNameIdempotent | src/symbol_resolver.py:192-203 | normalising a normalised name changes nothing |
| Symbols.NormalizeAgreesWithMaterialKey | src/symbol_resolver.py:192-203 | outside both alias tables, the resolver and the dashboard normalise a material name identically |
| Uploads.NormalizeUploadName | scripts/process_uploaded_data.py:162-187 | after lower-casing and stripping, an alias maps to its own table value, which is a target material; any other name is returned lower-cased and stripped |
| Uploads.TargetsAreFixed | scripts/process_uploaded_data.py:167-187 | every target material normalises to itself |
| Uploads.NormalizeUploadNameIdempotent | scripts/process_uploaded_data.py:162-187 | normalising a normalised upload name changes nothing |
| Uploads.AliasNormalizes | scripts/process_uploaded_data.py:167-187 | every alias, the spaced ones such as "lithium carbonate" included, maps to its own table value |
| Uploads.AliasKeysAreClean | scripts/process_uploaded_data.py:167-185 | every alias is written lower-case with no surrounding whitespace, so lower-casing and stripping reach it |
| Uploads.PaddedFormulaNormalizes | scripts/process_uploaded_data.py:164-170 | the padded, mixed-case `" Li2CO3 "` normalises to `lithium_carbonate` |
| Uploads.AluminiumIsAluminum | scripts/process_uploaded_data.py:183 | the British spelling maps to `aluminum` |
| Uploads.FirstMatch | scripts/process_uploaded_data.py:193-208 | the first table entry whose keywords occur wins, and nothing is returned when none occurs |
| Uploads.GuessMaterial | scripts/process_uploaded_data.py:189-208 | a guessed material is always a target material |
| Uploads.LithiumComesFirst | scripts/process_uploaded_data.py:193-194 | a file name mentioning lithium is lithium carbonate, whatever else it mentions |
| Uploads.GuessIgnoresCase | scripts/process_uploaded_data.py:191 | file names equal up to case give the same guess |
| Uploads.DetectColumn | scripts/process_uploaded_data.py:61-76 | the first column whose lower-cased name contains a keyword is chosen, and none is chosen only when no column matches |
| Uploads.Overlay | scripts/process_uploaded_data.py:101-106 | the merged column takes the new value where there is one and keeps the old value elsewhere |
| Uploads.OverlayLaws | scripts/process_uploaded_data.py:101-106 | overlaying the same data twice is overlaying once, and overlays associate |
| Uploads.Restrict | scripts/process_uploaded_data.py:101 | a left merge onto the panel keeps exactly the months from January 2020 to the current month |
| Uploads.Merge | scripts/process_uploaded_data.py:97-106 | merging one material stays within the panel, adds that column and leaves every other column unchanged |
| Uploads.MergeNewWins | scripts/process_uploaded_data.py:101-106 | in a panel month, the new series wins where it has a value, otherwise the old value (if any) remains |
| Uploads.MergeGroups | scripts/process_uploaded_data.py:84-108 | per-material groups add only target columns and never touch non-target columns |
| Uploads.MergeLabelled | scripts/process_uploaded_data.py:84-108 | merging the groups, each under its normalised name, stays within the panel and touches only target columns |
| Uploads.MergeCell | scripts/process_uploaded_data.py:97-106 | one merge changes a cell only in the merged column and only where the new series has a value, which it then takes |
| Uploads.LastUploadIsLast | scripts/process_uploaded_data.py:84-106 | the groups leave a value for a material and month exactly when some group naming it has one, and it is the value of the last such group |
| Uploads.MergeLabelledCell | scripts/process_uploaded_data.py:84-108 | after the groups are merged in order, a target's panel month holds the last group's value there, or its earlier value when no group has one |
| Uploads.ProcessFile | scripts/process_uploaded_data.py:42-133 | processing a file stays within the panel and adds only target columns |
| Uploads.GroupedFileMerges | scripts/process_uploaded_data.py:80-86 | a parsed file with distinct date and price columns and a material column merges its groups in order |
| Uploads.GroupedFileCell | scripts/process_uploaded_data.py:84-108 | for such a file, a target's panel month holds the value of the last group naming it there, or its earlier value |
| Uploads.SingleGroupMerges | scripts/process_uploaded_data.py:84-108 | such a file with a single group whose name normalises to target `m` is exactly one merge of that group's series under `m` |
| Uploads.GuessedFileMerges | scripts/process_uploaded_data.py:109-127 | a parsed file with distinct date and price columns, no material column and a file name suggesting `m` is exactly one merge of the whole table under `m`; a panel month of `m` takes the file's value where it has one |
| Uploads.UnrecognisedFileAddsNothing | scripts/process_uploaded_data.py:80 | a file without a date column or without a price column leaves the panel unchanged |
| Uploads.ProcessFiles | scripts/process_uploaded_data.py:42-133 | the file loop stays within the panel and adds only target columns |
| Uploads.ProcessFilesAppend | scripts/process_uploaded_data.py:42 | files are processed one after another: processing `a + b` is processing `b` on the result of `a` |
| Uploads.IgnoredFilesLeavePanel | scripts/process_uploaded_data.py:42-133 | files that each add nothing leave the panel as it was |
| Uploads.Panel | scripts/process_uploaded_data.py:135-141 | one row per panel month, in order, with one cell per target material, read from the merged columns |
| Uploads.ProcessUploadedFiles | scripts/process_uploaded_data.py:23-27 | no uploaded files is the failure result; otherwise a panel is produced |
| Uploads.PanelIsMonthly | scripts/process_uploaded_data.py:38-39 | the panel's dates strictly increase and cover exactly January 2020 through the current month |
| Uploads.UnsuppliedTargetIsMissing | scripts/process_uploaded_data.py:135-138 | a target material no file supplied is `NaN` in every row |
| Forecast.PrevKnown | scripts/build_forecasts.py:21 | finds the nearest known value at or before a position, or proves there is none |
| Forecast.NextKnown | scripts/build_forecasts.py:21 | finds the nearest known value at or after a position, or proves there is none |
| Forecast.FillKeepsKnown | scripts/build_forecasts.py:21 | interpolation and filling never change a known value |
| Forecast.FillLeavesNoGaps | scripts/build_forecasts.py:21 | a series with at least one value has no gap after `interpolate().bfill().ffill()` |
| Forecast.FillOfEmpty | scripts/build_forecasts.py:21 | an all-missing series stays all-missing |
| Forecast.FillLeading | scripts/build_forecasts.py:21 | months before the first value take that value (back-fill) |
| Forecast.FillTrailing | scripts/build_forecasts.py:21 | months after the last value take that value (forward-fill) |
| Forecast.FillInterior | scripts/build_forecasts.py:21 | a month between two neighbouring values lies on the straight line through them |
| Forecast.FitEts | scripts/build_forecasts.py:20-35 | the fitted model is well formed; the drift model only exists for series of at least six points |
| Forecast.FitDispatch | scripts/build_forecasts.py:22-35 | fewer than six filled points give the flat model on the last filled value; otherwise a successful fit gives the smoothing model on its path, and a failed fit gives the drift model over the filled, non-missing series |
| Forecast.Predict | scripts/build_forecasts.py:24-34 | a forecast of `steps` months has exactly `steps` values |
| Forecast.FlatThreshold | scripts/build_forecasts.py:22-25 | the flat model is chosen exactly when fewer than six filled points exist |
| Forecast.FilledCount | scripts/build_forecasts.py:21-22 | after filling, either nothing or every month is present |
| Forecast.FlatRepeatsLastObservation | scripts/build_forecasts.py:24 | a short series forecasts its last observed value at every step |
| Forecast.DriftOnlyAfterFailedFit | scripts/build_forecasts.py:26-35 | the drift model is used only when smoothing raised, and it extends the filled series |
| Forecast.DriftContinuesLine | scripts/build_forecasts.py:33-34 | step `i` of the drift lies on the line through the first and last points, `i` months past the end |
| Forecast.DriftSteps | scripts/build_forecasts.py:34 | consecutive drift values differ by the slope |
| Forecast.DriftShortSeries | scripts/build_forecasts.py:32 | a one-point series drifts flat |
| Forecast.DriftExample | scripts/build_forecasts.py:33-34 | `[100, 110, 120]` drifts on to 130 and 140 |
| Forecast.TrimToCurrent | scripts/build_forecasts.py:44 | the trim keeps a prefix ending no later than the current month, and drops only months after it |
| Forecast.Window | scripts/build_forecasts.py:47-48 | with more than `rolling` known values the last `rolling` months are kept; otherwise the series is kept whole; the last month never moves |
| Forecast.WindowOfZero | scripts/build_forecasts.py:47-48 | `ROLLING_MONTHS=0` keeps the whole series (`iloc[-0:]`) |
| Forecast.RangeLength | scripts/build_forecasts.py:52 | `date_range(start, end)` is empty exactly when the end is before the start, and otherwise ends on `end` |
| Forecast.HistoryRows | scripts/build_forecasts.py:54 | history rows carry the window's raw prices on consecutive months |
| Forecast.ForecastRows | scripts/build_forecasts.py:53 | forecast rows carry the forecast values on consecutive months from the start |
| Forecast.MaterialRows | scripts/build_forecasts.py:43-55 | a material is skipped exactly when it has no price up to the current month; otherwise its rows form one consecutive block |
| Forecast.ForecastStartIsNextMonth | scripts/build_forecasts.py:50 | after the trim, `min(last + 1, current + 1)` is always `last + 1` |
| Forecast.MaterialRowsLayout | scripts/build_forecasts.py:43-55 | the rows are the window's history followed by `current + horizon - last` forecast months, valued by the fitted model |
| Forecast.ForecastCount | scripts/build_forecasts.py:50-52 | the forecast has `current + horizon - last` months, or none when that is not positive |
| Forecast.InsertColumn | scripts/build_forecasts.py:57 | inserting into a material-sorted list keeps it sorted and adds exactly the new column |
| Forecast.SortColumns | scripts/build_forecasts.py:57 | sorting by material gives a sorted permutation of the columns |
| Forecast.BuildMaterialForecasts | scripts/build_forecasts.py:42-57 | `pd.concat` fails exactly when no material has data; otherwise the table is sorted by (material, date) and each material's rows are exactly its block, and every row belongs to the block of one of the given materials |
| Forecast.SortedBlocks | scripts/build_forecasts.py:57 | concatenating the blocks in material order yields the sorted table with each material's block intact |
| Forecast.BlocksSorted | scripts/build_forecasts.py:55-57 | blocks of material-sorted columns concatenate to a (material, date)-sorted table |
| Forecast.BlocksFor | scripts/build_forecasts.py:55-57 | the rows of one material in the concatenation are exactly that material's block |
| Forecast.BlocksEmpty | scripts/build_forecasts.py:57 | the concatenation is empty exactly when every material was skipped |
| Forecast.BlocksFrom | scripts/build_forecasts.py:55 | every row of the concatenation belongs to the block of one of the materials |
| Composition.MaterialKeyIsKeyShaped | scripts/build_forecasts.py:62-69 | a normalised intensity name has no spaces and no upper-case letters |
| Composition.NormalizedOfKeyShaped | scripts/build_forecasts.py:62 | normalising a key-shaped name leaves it unchanged |
| Composition.MaterialKeyIdempotent | scripts/build_forecasts.py:62-69 | normalising and aliasing a key changes nothing |
| Composition.ManganeseKey | app/app.py:297-299 | "Manganese" is priced as `manganese_sulfate`; the same alias is applied in `scripts/build_forecasts.py` at lines 62-63 |
| Composition.ChemistryMonthly | scripts/build_forecasts.py:66-78 | a (chemistry, date, kind) row exists exactly when some basket material has a row at that date and kind |
| Composition.NoComponentsIsEmptyTable | scripts/build_forecasts.py:67-76 | the monthly table is empty exactly when no intensity row names a material of the table, the case in which `pd.concat(comp)` raises |
| Composition.ChemSumAppend | scripts/build_forecasts.py:67-78 | a chemistry's cost splits over any split of the intensity table |
| Composition.UnknownMaterialAddsNothing | scripts/build_forecasts.py:70 | a material with no price column adds nothing and creates no row |
| Composition.SingleRowContribution | scripts/build_forecasts.py:71-73 | a material with one matching row contributes its price times its tons |
| Composition.NoMatchSumsToZero | scripts/build_forecasts.py:71-77 | a material with no matching row contributes nothing |
| Composition.ChemSumNonNegative | scripts/build_forecasts.py:73-77 | non-negative prices and intensities give a non-negative cost |
| Composition.RowSumNonNegative | scripts/build_forecasts.py:73 | one material's contribution is non-negative for non-negative prices and intensity |
| Composition.ChemistryAnnual | scripts/build_forecasts.py:81-83 | a year has an annual row exactly when some month of it has a monthly row, and its value is the mean of the monthly chemistry costs of that year's grouped months, taken in month order |
| Composition.YearValuesAreGroupCosts | scripts/build_forecasts.py:81-83 | the non-missing monthly cells of a year are exactly the summed costs of the months that have a group, January first |
| Composition.MonthsFromAreGroupCosts | scripts/build_forecasts.py:81-83 | the same, for the months from a given month to December |
| Composition.AnnualWithinMonthly | scripts/build_forecasts.py:81-83 | the annual mean lies between any bounds of that year's monthly costs |
| Dashboard.FilterKind | app/app.py:660-665 | the kind filter only removes rows |
| Dashboard.FilterKindKeeps | app/app.py:660-665 | a row survives exactly when its kind matches the chosen kind, or every row survives for "Both" |
| Dashboard.FilterKindBoth | app/app.py:665 | any label other than the two filters keeps the table |
| Dashboard.FilterDateRange | app/app.py:668-682 | the date filter only removes rows |
| Dashboard.FilterDateRangeIsMask | app/app.py:675-682 | the four branches are one mask: rows whose first-of-month lies within the given bounds |
| Dashboard.FilterDateRangeMonths | app/app.py:676 | with both bounds, a row survives exactly when its month is between the start's ceiling month and the end's month |
| Dashboard.SelectedKeeps | app/app_clean.py:325-327 | the chart rows are exactly the rows of the chosen kind, selected keys and date range |
| Dashboard.CalculateYoy | app/app_clean.py:284-292 | under 12 points gives `None`; otherwise a percentage only when both ends exist and the baseline is non-zero |
| Dashboard.CalculateYoyIsPercentChange | app/app_clean.py:288-290 | the year-over-year compares the last point with the twelfth from last |
| Dashboard.CalculateYoyBaselineGap | app/app_clean.py:289 | on a gapless monthly series that baseline is 11 months back, not 12 |
| Dashboard.Latest | app/app.py:704 | after a stable date sort, `last()` reads the latest row, the last of its date |
| Dashboard.KeyRows | app/app.py:707 | selecting by material keeps exactly that material's rows |
| Dashboard.LatestPrice | app/app.py:704 | `groupby().last()` gives the latest present price, and `NaN` only when the material has none |
| Dashboard.YearAgo | app/app.py:709-710 | the baseline is the latest row at least a year before, and none exists exactly when every row is more recent |
| Dashboard.KpiPair | app/app.py:705-712 | no tile for an absent material; the value is missing only when the material has no price; the change is absent exactly when no row is a year older than another |
| Dashboard.KpiValueIsLatestPrice | app/app.py:704-708 | the tile's value is the price of the material's latest priced row |
| Dashboard.KpiBaselineIsLatestYearAgo | app/app.py:708-711 | the change compares with the latest row at least one year before the latest row |
| Scenario.ShockedPrice | app/app.py:690-691 | a missing price stays missing, and a material with no shock and no duty keeps its price |
| Scenario.ShockExample | app/app.py:690-691 | a 10% shock and a 5 USD duty take 100 to 115 |
| Scenario.DutyIsNotShocked | app/app.py:691 | the duty is added after the shock and is not scaled by it |
| Scenario.ShockedPriceMonotone | app/app.py:690-691 | under a shock no worse than -100%, higher prices stay higher |
| Scenario.ShockRows | app/app.py:690-691 | each row keeps its date, material and kind, and its price is replaced by the shocked price |
| Scenario.NoShockKeepsRows | app/app.py:690-691 | with no shocks and no duties the table is unchanged |
| Scenario.MaterialsUseKeeps | app/app.py:685-691 | every row of the chosen kind inside the date range reaches the scenario table with its shocked price |
| Scenario.MaterialsUseFrom | app/app.py:685-691 | every row of the scenario table is such a row |
| Scenario.CellValues | app/app.py:692 | a pivot cell collects the prices of the matching rows and is empty exactly when none is priced |
| Scenario.WidePrice | app/app.py:692 | a pivot cell has a value exactly when some row prices that material at that date |
| Scenario.PricedCellIsInTable | app/app.py:692 | a priced cell's column and date are both in the pivot table |
| Scenario.WidePriceOfUniqueRow | app/app.py:692 | with one row per cell, the pivot mean is that row's price |
| Scenario.ResolveOverrides | app/app.py:478-493 | the override map has a rate for exactly the intensity table's materials |
| Scenario.HiddenOverridesFollowGlobal | app/app.py:490-493 | with the overrides hidden, every material recycles at the global rate |
| Scenario.ShownOverridesFollowSliders | app/app.py:480-489 | with the overrides shown, each listed material uses its slider and any other the global rate |
| Scenario.EffectiveTonsBounds | app/app.py:697 | a recycling rate in [0, 100] reduces the intensity to between 0 and the baseline, reaching each end at 100% and 0% |
| Scenario.ScenarioChem | app/app.py:815-845 | a scenario row exists exactly for a selected chemistry, a date in the wide table and a basket with a priced material |
| Scenario.ComponentSumAppend | app/app.py:822-842 | the scenario cost splits over any split of the basket |
| Scenario.ComponentSumNonNegative | app/app.py:827-842 | non-negative shocked prices and effective intensities give a non-negative cost |
| Scenario.NeutralScenarioIsBaseComposition | app/app.py:815-842 | with no shock, no duty and no recycling, the scenario cost equals the base composition of the precomputed chemistry table |
| Scenario.RowSumIsCell | scripts/build_forecasts.py:71-77 | with one row per cell, the base contribution of a material is its pivot price times its tons |
| Scenario.CostOf | app/app.py:848-851 | the per-kWh material cost is a thousandth of the per-GWh cost; with non-negative inputs, battery cost is at least material cost and, at a rate of at least 1, the INR cost is at least the USD cost |
| Scenario.CostExample | app/app.py:849-851 | 600000 USD/GWh with 25% overhead at 83 INR is 600, 750 and 62250 per kWh |
| Scenario.CostIsLinear | app/app.py:849-851 | battery and INR costs scale linearly with the per-GWh cost |
| Sensitivity.ImpactOf | app/app.py:966-988 | a material has a bar exactly when its pivot cell is priced at that month; its impact is non-negative |
| Sensitivity.DeltasAreTenthOfContribution | app/app.py:976-988 | both deltas are a tenth of the base contribution, the base battery cost cancels out, and the impact is that tenth in absolute value |
| Sensitivity.DutyCountedTwice | app/app.py:974 | the sensitivity base price adds the import duty on top of an already-duty-inclusive pivot price |
| Sensitivity.ShockKeepsUniqueCells | app/app.py:690-692 | shocking keeps one row per (material, date) cell |
| Sensitivity.Impacts | app/app.py:963-983 | the bars are exactly the basket materials with a priced cell |
| Sensitivity.Insert | app/app.py:989 | insertion into an impact-sorted list keeps it sorted and adds exactly the new bar |
| Sensitivity.SortByImpact | app/app.py:989 | `sort_values("impact")` gives an ascending permutation of the bars |
| Sensitivity.Tornado | app/app.py:953-989 | no base row exactly when the chosen month has no scenario row for the chemistry; with a base row, bars are drawn exactly when some basket material has a priced cell at that month (its impact list is non-empty), and `NoMaterials` otherwise; bars are ascending and non-empty |
| Sensitivity.TornadoBars | app/app.py:957-989 | the chart's bars are a permutation of the basket's impacts at the base battery cost of that month |
| Sensitivity.NoPricedMaterialNoBars | app/app.py:969-985 | a basket with no priced cell at that month has no bars |

## Left out

- The Streamlit user interface is not modelled: layout, charts, CSS, downloads, file uploads and clearing, and the `st.*` calls. The same goes for the subprocess "refresh" buttons. They are presentation or I/O.
- The price fetchers (`fetch_prices_te.py`, `fetch_real_commodity_prices.py`, `fetch_prices_fallback.py`) and the initialisation scripts are network and file I/O. Only the fallback `converted if converted is not None else price` is modelled, as `Units.ConvertOrKeep`.
- CSV and Excel reading and writing, `Path.glob`, and `mkdir` are I/O. Inputs and outputs are sequences of rows.
- The statsmodels `ExponentialSmoothing` fit is a foreign library. It is the parameter `Ets`: a fit that raises or a forecast path.
- Clocks: `pd.Timestamp.today()` (the current month) and `datetime.now()` (the age of a symbol update) are parameters.
- `strptime` with its three formats is a foreign parser. The age of a date string is a parameter that may fail.
- Date parsing (`pd.to_datetime`) and monthly resampling (`resample("MS").mean()`) are not modelled. Uploaded series arrive already monthly, as maps from month to price.
- Dates are month indices. The dashboard's date bounds are calendar dates compared with first-of-month timestamps.
- `interpolate("time")`: with a monthly index, time-weighted interpolation is modelled as linear in the month index. Months of different lengths (28–31 days) are not weighted.
- Floating point: prices are mathematical reals. IEEE rounding, infinities and `NaN` propagation are not modelled, except that a missing price is `None` and a zero baseline gives an undefined percentage.
- Character handling: `str.upper`, `str.lower`, `re.IGNORECASE` and `\b` are modelled for ASCII letters only. Non-ASCII case mappings (for example `ß`) are not modelled.
- Units.InfoOf: the human-readable `description` strings are not modelled. Only the conversion name and the factor are.
- Dashboard.Latest: the tie order of a non-stable sort is not modelled; the model takes the last row among equal dates.
- Sensitivity.SortByImpact: bars of equal impact may come out in any order; pandas' quicksort tie order is not modelled.
- The contribution table's descending sort on `contribution_usd_per_kwh` is display only and is not modelled.
- Uploads.ProcessFile: exceptions inside a file's processing are abstracted by one `parsed` flag per file. A file that fails before its first merge contributes nothing, as the `except … continue` path does. A file with a material column that fails part-way (for example a later group's prices cannot be averaged by `resample('MS').mean()`) keeps the groups already merged into the panel, because the handler does not roll them back; that partial contribution is not modelled, and such a file is treated as contributing nothing.
- `pd.concat([])` raising when no material has data is modelled as `None` from `Forecast.BuildMaterialForecasts`. The composition step is modelled per (chemistry, date, kind) cell, not as one data frame.
- Composition.ChemistryMonthly: when no intensity row names a material of the forecast table, `pd.concat(comp)` raises after `material_forecasts.csv` is written, and neither chemistry file is written. The model does not stop there; it gives `None` at every cell, an empty table (`Composition.NoComponentsIsEmptyTable` states exactly when).
- Symbols.RecencyOf: the `try`/`except` around date parsing is modelled through the single error path reachable from a string (`split()[0]` of an all-whitespace string). A non-text `lastupdate` cell (a number, or a `NaN`) is modelled as `None` and adds nothing, as the `isinstance(lastupdate, str)` test at src/symbol_resolver.py:129 makes it.
- Scenario.MaterialsUse: the `isin(materials_all)` step is not modelled, because `materials_all` lists every material of the table, so it removes nothing.
