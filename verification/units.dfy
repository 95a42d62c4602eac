/** The unit normaliser of `src/units.py`: converts a quoted price into US
    dollars per metric ton, and describes the conversion it would apply. */
module Units {
  import opened Wrappers
  import opened Text

  const LbToTon: real := 2204.62262185
  const KgToTon: real := 1000.0
  /** The source's approximation for precious metals. */
  const OzToTon: real := 32000.0
  /** Default US dollars per yuan (about 1/7). */
  const DefaultUsdPerCny: real := 0.14

  /** `str(unit).strip().upper()`. */
  function Clean(unit: string): string {
    Upper(Trim(unit))
  }

  /** `USD/(MT|T|TON|TONNE|METRICTON)$` matched from the start of a cleaned unit. */
  predicate IsUsdPerTon(u: string) {
    u == "USD/MT" || u == "USD/T" || u == "USD/TON" || u == "USD/TONNE" || u == "USD/METRICTON"
  }

  predicate IsCentsPerLb(u: string) {
    u == "CENTS/LB" || u == "USC/LB"
  }

  /** `CNY/(MT|T|TON|TONNE)$` matched from the start of a cleaned unit. */
  predicate IsCnyPerTon(u: string) {
    u == "CNY/MT" || u == "CNY/T" || u == "CNY/TON" || u == "CNY/TONNE"
  }

  /** The unit families the converter tells apart, in the order it tests them. */
  datatype Family = PerTon | PerLb | PerKg | PerOz | CentsPerLb | CnyPerTon | Unrecognized

  /** The first family whose pattern a cleaned unit matches. */
  function FamilyOf(u: string): Family {
    if IsUsdPerTon(u) then PerTon
    else if u == "USD/LB" then PerLb
    else if u == "USD/KG" then PerKg
    else if u == "USD/OZ" then PerOz
    else if IsCentsPerLb(u) then CentsPerLb
    else if IsCnyPerTon(u) then CnyPerTon
    else Unrecognized
  }

  /** The price in US dollars per metric ton of `v` quoted in a unit of
      family `f`; `None` for an unrecognised unit. */
  function Convert(v: real, f: Family, usdPerCny: real): (r: Option<real>)
    ensures r.Some? <==> f != Unrecognized
  {
    match f
    case PerTon => Some(v)
    case PerLb => Some(v * LbToTon)
    case PerKg => Some(v * KgToTon)
    case PerOz => Some(v * OzToTon)
    case CentsPerLb => Some((v / 100.0) * LbToTon)
    case CnyPerTon => Some(v * usdPerCny)
    case Unrecognized => None
  }

  /** `to_usd_per_ton(value, unit, usd_per_cny)`: `None` for a missing value or
      unit and for any unit outside the recognised families. */
  function ToUsdPerTon(value: Option<real>, unit: Option<string>, usdPerCny: real): (r: Option<real>)
    ensures r.Some? <==> value.Some? && unit.Some? && FamilyOf(Clean(unit.value)) != Unrecognized
    ensures r.Some? && FamilyOf(Clean(unit.value)) == PerTon ==> r.value == value.value
  {
    if value.None? || unit.None? then None
    else Convert(value.value, FamilyOf(Clean(unit.value)), usdPerCny)
  }

  /** The spellings `detect_unit_from_string` rewrites to a standard form. */
  const UnitMappings: map<string, string> := map[
    "USD/MT" := "USD/TON",
    "USD/T" := "USD/TON",
    "USD/TONNE" := "USD/TON",
    "USD/METRICTON" := "USD/TON",
    "CNY/MT" := "CNY/TON",
    "CNY/T" := "CNY/TON",
    "CNY/TONNE" := "CNY/TON",
    "CENTS/LB" := "CENTS/LB",
    "USC/LB" := "CENTS/LB"
  ]

  /** `detect_unit_from_string`: `""` for an empty input, otherwise the cleaned
      unit, rewritten when it is one of the listed variants. */
  function DetectUnit(unitStr: string): (r: string)
    ensures unitStr == [] ==> r == []
    ensures unitStr != [] && Clean(unitStr) in UnitMappings ==> r == UnitMappings[Clean(unitStr)]
    ensures unitStr != [] && Clean(unitStr) !in UnitMappings ==> r == Clean(unitStr)
  {
    if unitStr == [] then []
    else Get(UnitMappings, Clean(unitStr), Clean(unitStr))
  }

  /** The `factor` entry of `get_conversion_info`: a number, the name of the
      exchange-rate argument, or `None`. */
  datatype Factor = Numeric(f: real) | UsdPerCnyRate | NoFactor

  /** `get_conversion_info` without its free-text `description`. */
  datatype ConversionInfo = ConversionInfo(conversion: string, factor: Factor)

  /** The conversion `get_conversion_info` reports for a unit family. */
  function InfoOf(f: Family): (info: ConversionInfo)
    ensures info.conversion == "unknown" <==> info.factor.NoFactor?
    ensures info.factor.UsdPerCnyRate? <==> f == CnyPerTon
  {
    match f
    case PerTon => ConversionInfo("none", Numeric(1.0))
    case PerLb => ConversionInfo("lb_to_ton", Numeric(LbToTon))
    case PerKg => ConversionInfo("kg_to_ton", Numeric(KgToTon))
    case PerOz => ConversionInfo("oz_to_ton", Numeric(OzToTon))
    case CentsPerLb => ConversionInfo("cents_lb_to_ton", Numeric(LbToTon / 100.0))
    case CnyPerTon => ConversionInfo("cny_to_usd", UsdPerCnyRate)
    case Unrecognized => ConversionInfo("unknown", NoFactor)
  }

  /** `get_conversion_info(unit)`: classifies the standardised unit. */
  function GetConversionInfo(unit: string): ConversionInfo {
    InfoOf(FamilyOf(DetectUnit(unit)))
  }

  /** The caller fallback of the price fetcher: keep the raw price when the
      unit is not recognised. */
  function ConvertOrKeep(price: real, unit: Option<string>): (r: real)
    ensures ToUsdPerTon(Some(price), unit, DefaultUsdPerCny).None? ==> r == price
    ensures ToUsdPerTon(Some(price), unit, DefaultUsdPerCny).Some? ==>
      r == ToUsdPerTon(Some(price), unit, DefaultUsdPerCny).value
  {
    ToUsdPerTon(Some(price), unit, DefaultUsdPerCny).GetOr(price)
  }

  // ---------------------------------------------------------------------
  // Cleaning

  lemma UpperCharIdempotent(c: char)
    ensures UpperChar(UpperChar(c)) == UpperChar(c)
  {
  }

  /** A cleaned unit cleans to itself. */
  lemma CleanIdempotent(u: string)
    ensures Clean(Clean(u)) == Clean(u)
  {
    var t := Trim(u);
    UpperOfTrimmed(t);
    UpperIsUpperCased(t);
    UpperOfUpperCased(Upper(t));
  }

  /** Upper-casing keeps a string stripped. */
  lemma UpperOfTrimmed(t: string)
    requires t == [] || (!IsSpace(t[0]) && !IsSpace(t[|t| - 1]))
    ensures Trim(Upper(t)) == Upper(t)
  {
    var c := Upper(t);
    UpperKeepsSpace(t);
    TrimLeftNoop(c);
    TrimRightNoop(c);
  }

  lemma UpperIsUpperCased(t: string)
    ensures IsUpperCased(Upper(t))
  {
    var c := Upper(t);
    forall i | 0 <= i < |c|
      ensures UpperChar(c[i]) == c[i]
    {
      UpperCharIdempotent(t[i]);
    }
  }

  /** Units already written in upper case with no surrounding space are their
      own cleaned form. */
  lemma CleanOfCanonical(u: string)
    requires IsUpperCased(u)
    requires u == [] || (!IsSpace(u[0]) && !IsSpace(u[|u| - 1]))
    ensures Clean(u) == u
  {
    TrimLeftNoop(u);
    TrimRightNoop(u);
    UpperOfUpperCased(u);
  }

  // ---------------------------------------------------------------------
  // Properties

  /** Only the family of the cleaned unit matters to the converter. */
  lemma ConvertsByFamily(v: real, u: string, usdPerCny: real)
    ensures ToUsdPerTon(Some(v), Some(u), usdPerCny) == Convert(v, FamilyOf(Clean(u)), usdPerCny)
  {
  }

  /** A conversion is a change of scale: a recognised family multiplies every
      price by the same rate, so the converted price is proportional to the
      quoted one. */
  lemma ConversionIsProportional(v: real, k: real, f: Family, usdPerCny: real)
    requires f != Unrecognized
    ensures Convert(k * v, f, usdPerCny).value == k * Convert(v, f, usdPerCny).value
    ensures Convert(0.0, f, usdPerCny) == Some(0.0)
  {
  }

  /** Positive prices stay positive when the exchange rate is positive. */
  lemma ConversionKeepsSign(v: real, f: Family, usdPerCny: real)
    requires f != Unrecognized && v > 0.0 && usdPerCny > 0.0
    ensures Convert(v, f, usdPerCny).value > 0.0
  {
  }

  /** The families contain exactly the spellings the source's patterns accept. */
  lemma FamilySpellings(u: string)
    ensures FamilyOf(u) == PerTon <==> u in {"USD/MT", "USD/T", "USD/TON", "USD/TONNE", "USD/METRICTON"}
    ensures FamilyOf(u) == PerLb <==> u == "USD/LB"
    ensures FamilyOf(u) == PerKg <==> u == "USD/KG"
    ensures FamilyOf(u) == PerOz <==> u == "USD/OZ"
    ensures FamilyOf(u) == CentsPerLb <==> u in {"CENTS/LB", "USC/LB"}
    ensures FamilyOf(u) == CnyPerTon <==> u in {"CNY/MT", "CNY/T", "CNY/TON", "CNY/TONNE"}
  {
  }

  /** A unit converts exactly as its cleaned spelling `c` does. */
  lemma ConvertsAs(v: real, u: string, c: string, usdPerCny: real)
    requires Clean(u) == c
    ensures ToUsdPerTon(Some(v), Some(u), usdPerCny) == Convert(v, FamilyOf(c), usdPerCny)
  {
    ConvertsByFamily(v, u, usdPerCny);
  }

  /** An upper-cased unit with no surrounding whitespace converts by its
      own family. */
  lemma ConvertsCanonical(v: real, c: string, usdPerCny: real)
    requires IsUpperCased(c)
    requires c == [] || (!IsSpace(c[0]) && !IsSpace(c[|c| - 1]))
    ensures ToUsdPerTon(Some(v), Some(c), usdPerCny) == Convert(v, FamilyOf(c), usdPerCny)
  {
    CleanOfCanonical(c);
    ConvertsAs(v, c, c, usdPerCny);
  }

  /** The yuan spellings start with "CN", which no other spelling does. */
  lemma CnyFamily(c: string)
    requires IsCnyPerTon(c)
    ensures FamilyOf(c) == CnyPerTon
  {
    assert c[0] == 'C' && c[1] == 'N';
  }

  /** The cents spellings end in "C/LB" or "S/LB", which no other spelling does. */
  lemma CentsFamily(c: string)
    requires IsCentsPerLb(c)
    ensures FamilyOf(c) == CentsPerLb
  {
    assert c[|c| - 4] in "CS" && c[|c| - 1] == 'B';
  }

  // The conversions the source's own test block asserts, exact over reals.

  /** A unit with no surrounding whitespace is only upper-cased. */
  lemma CleanOfTrimmed(u: string)
    requires u == [] || (!IsSpace(u[0]) && !IsSpace(u[|u| - 1]))
    ensures Clean(u) == Upper(u)
  {
    TrimLeftNoop(u);
    TrimRightNoop(u);
  }

  lemma CleanUsdLb()
    ensures Clean("USD/lb") == "USD/LB"
  {
    CleanOfTrimmed("USD/lb");
    UpperPointwise("USD/lb", "USD/LB");
  }

  lemma CleanUsdKg()
    ensures Clean("USD/kg") == "USD/KG"
  {
    CleanOfTrimmed("USD/kg");
    UpperPointwise("USD/kg", "USD/KG");
  }

  lemma ExamplePerLb()
    ensures ToUsdPerTon(Some(100.0), Some("USD/lb"), DefaultUsdPerCny) == Some(220462.262185)
  {
    CleanUsdLb();
    ConvertsAs(100.0, "USD/lb", "USD/LB", DefaultUsdPerCny);
  }

  lemma ExamplePerKg()
    ensures ToUsdPerTon(Some(1000.0), Some("USD/kg"), DefaultUsdPerCny) == Some(1000000.0)
  {
    CleanUsdKg();
    ConvertsAs(1000.0, "USD/kg", "USD/KG", DefaultUsdPerCny);
  }

  lemma ExampleCnyPerTon()
    ensures ToUsdPerTon(Some(50000.0), Some("CNY/T"), 0.14) == Some(7000.0)
  {
    ConvertsCanonical(50000.0, "CNY/T", 0.14);
    CnyFamily("CNY/T");
  }

  lemma ExamplePerTon()
    ensures ToUsdPerTon(Some(100.0), Some("USD/TON"), DefaultUsdPerCny) == Some(100.0)
  {
    CleanOfCanonical("USD/TON");
    ConvertsAs(100.0, "USD/TON", "USD/TON", DefaultUsdPerCny);
  }

  lemma ExampleCentsPerLb()
    ensures ToUsdPerTon(Some(50.0), Some("CENTS/LB"), DefaultUsdPerCny) == Some(1102.311310925)
  {
    ConvertsCanonical(50.0, "CENTS/LB", DefaultUsdPerCny);
    CentsFamily("CENTS/LB");
  }

  /** Matching ignores letter case and surrounding whitespace: a unit converts
      as its cleaned form does. */
  lemma MatchingIgnoresCaseAndPadding(v: real, u: string, usdPerCny: real)
    ensures ToUsdPerTon(Some(v), Some(u), usdPerCny) == ToUsdPerTon(Some(v), Some(Clean(u)), usdPerCny)
  {
    CleanIdempotent(u);
    ConvertsAs(v, u, Clean(u), usdPerCny);
    ConvertsAs(v, Clean(u), Clean(u), usdPerCny);
  }

  /** No recognised spelling contains a space. */
  lemma SpacedUnitIsUnrecognized(u: string)
    requires ' ' in u
    ensures FamilyOf(u) == Unrecognized
  {
  }

  /** Inner spaces are not ignored. */
  lemma InnerSpacesDoNotConvert(v: real, usdPerCny: real)
    ensures ToUsdPerTon(Some(v), Some("USD / KG"), usdPerCny) == None
  {
    SpacedUnitIsUnrecognized("USD / KG");
    ConvertsCanonical(v, "USD / KG", usdPerCny);
  }

  /** Missing inputs and unrecognised units yield `None`, whatever the rate. */
  lemma MissingOrUnknownIsNone(value: Option<real>, unit: Option<string>, usdPerCny: real)
    requires value.None? || unit.None? || FamilyOf(Clean(unit.value)) == Unrecognized
    ensures ToUsdPerTon(value, unit, usdPerCny) == None
  {
  }

  /** Every variant is rewritten to one of three standard spellings. */
  lemma MappedSpellings(c: string)
    requires c in UnitMappings
    ensures UnitMappings[c] == "USD/TON" || UnitMappings[c] == "CNY/TON" || UnitMappings[c] == "CENTS/LB"
  {
  }

  /** The standard spellings are left as they are. */
  lemma StandardSpellings()
    ensures "USD/TON" !in UnitMappings && "CNY/TON" !in UnitMappings
    ensures UnitMappings["CENTS/LB"] == "CENTS/LB"
  {
  }

  /** The canonical forms `detect_unit_from_string` produces are fixed points
      of the mapping. */
  lemma MappingValuesAreFixed(c: string)
    requires c in UnitMappings
    ensures Get(UnitMappings, UnitMappings[c], UnitMappings[c]) == UnitMappings[c]
    ensures Clean(UnitMappings[c]) == UnitMappings[c]
  {
    MappedSpellings(c);
    StandardSpellings();
    var d := UnitMappings[c];
    if d == "USD/TON" {
      CleanOfCanonical("USD/TON");
    } else if d == "CNY/TON" {
      CleanOfCanonical("CNY/TON");
    } else {
      CleanOfCanonical("CENTS/LB");
    }
  }

  /** `detect_unit_from_string` is idempotent. */
  lemma DetectUnitIdempotent(u: string)
    ensures DetectUnit(DetectUnit(u)) == DetectUnit(u)
  {
    if u != [] {
      var c := Clean(u);
      CleanIdempotent(u);
      if c in UnitMappings {
        MappingValuesAreFixed(c);
      } else if c != [] {
        assert DetectUnit(c) == Get(UnitMappings, c, c);
      }
    }
  }

  /** Standardising a cleaned unit never moves it to another family. */
  lemma StandardFormKeepsFamily(c: string)
    ensures FamilyOf(Get(UnitMappings, c, c)) == FamilyOf(c)
  {
    if c in UnitMappings {
      var d := UnitMappings[c];
      assert FamilyOf("USD/TON") == PerTon && FamilyOf("CNY/TON") == CnyPerTon && FamilyOf("CENTS/LB") == CentsPerLb;
    }
  }

  /** Standardising a unit string never moves it to another family. */
  lemma DetectUnitKeepsFamily(u: string)
    ensures FamilyOf(DetectUnit(u)) == FamilyOf(Clean(u))
  {
    if u == [] {
      assert Trim(u) == [];
    } else {
      StandardFormKeepsFamily(Clean(u));
    }
  }

  /** What a reported factor says the converter does to a price `v`. */
  function ApplyFactor(factor: Factor, v: real, usdPerCny: real): (r: Option<real>)
    ensures r.None? <==> factor.NoFactor?
  {
    match factor
    case Numeric(f) => Some(v * f)
    case UsdPerCnyRate => Some(v * usdPerCny)
    case NoFactor => None
  }

  /** The conversion table agrees with the converter family by family:
      `'unknown'` exactly when the converter yields `None`, and otherwise
      the converter multiplies by the reported factor (or the exchange rate). */
  lemma InfoAgreesWithConvert(v: real, f: Family, usdPerCny: real)
    ensures InfoOf(f).conversion == "unknown" <==> Convert(v, f, usdPerCny).None?
    ensures Convert(v, f, usdPerCny) == ApplyFactor(InfoOf(f).factor, v, usdPerCny)
  {
    if f == CentsPerLb {
      CentsAgree(v, usdPerCny);
    }
  }

  lemma CentsAgree(v: real, usdPerCny: real)
    ensures Convert(v, CentsPerLb, usdPerCny) == ApplyFactor(InfoOf(CentsPerLb).factor, v, usdPerCny)
  {
    HundredthFactor(v, LbToTon);
  }

  lemma HundredthFactor(v: real, c: real)
    ensures (v / 100.0) * c == v * (c / 100.0)
  {
    assert (v / 100.0) * c == (v * c) / 100.0;
  }

  /** The same agreement for a unit string: classifying the standardised unit
      describes what converting the raw unit does. */
  lemma ConversionInfoAgrees(v: real, u: string, usdPerCny: real)
    ensures GetConversionInfo(u).conversion == "unknown" <==> ToUsdPerTon(Some(v), Some(u), usdPerCny).None?
    ensures ToUsdPerTon(Some(v), Some(u), usdPerCny) == ApplyFactor(GetConversionInfo(u).factor, v, usdPerCny)
  {
    DetectUnitKeepsFamily(u);
    ConvertsByFamily(v, u, usdPerCny);
    InfoAgreesWithConvert(v, FamilyOf(Clean(u)), usdPerCny);
  }
}
