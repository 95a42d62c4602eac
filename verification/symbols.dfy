/** TradingEconomics symbol resolution (`src/symbol_resolver.py`): every
    commodity row whose name matches a material's word pattern is a
    candidate, candidates are scored by unit, currency and recency, and
    the first best-scoring one is chosen. Also the intensity-name mapping
    of that file. */
module Symbols {
  import opened Wrappers
  import opened Text
  import opened Tables
  import opened Composition

  // ---------------------------------------------------------------------
  // Scores

  /** The unit tier: ton units first, then pounds, kilograms, ounces. A
      unit matches the ton tier when its upper-cased form contains `TON`,
      `MT` or `T`. */
  function UnitTier(unit: string): real {
    var u := Upper(unit);
    if Contains(u, "TON") || Contains(u, "MT") || Contains(u, "T") then 10.0
    else if Contains(u, "LB") then 5.0
    else if Contains(u, "KG") then 3.0
    else if Contains(u, "OZ") then 1.0
    else 0.0
  }

  /** Since `T` is itself one of the ton markers, any unit with a `T` or `t`
      anywhere lands in the ton tier, `CENTS/LB` included; a unit without
      one gets at most the pound tier. */
  lemma TonTierIsAnyT(unit: string)
    ensures UnitTier(unit) == 10.0 <==> 'T' in Upper(unit)
    ensures 'T' !in Upper(unit) ==> UnitTier(unit) <= 5.0
  {
    var u := Upper(unit);
    ContainsChar(u, 'T');
    assert "T" == ['T'];
    if Contains(u, "TON") {
      MarkerHasT(u, "TON", 0);
    }
    if Contains(u, "MT") {
      MarkerHasT(u, "MT", 1);
    }
  }

  lemma MarkerHasT(u: string, marker: string, i: nat)
    requires Contains(u, marker) && i < |marker| && marker[i] == 'T'
    ensures Contains(u, "T")
  {
    ContainsInfix(u, marker, i, i + 1);
    assert marker[i..i + 1] == ['T'] == "T";
  }

  /** The currency preference: US dollars, then yuan. */
  function CurrencyScore(unit: string): real {
    var u := Upper(unit);
    if Contains(u, "USD") then 5.0 else if Contains(u, "CNY") then 2.0 else 0.0
  }

  /** What the recency step makes of the `lastupdate` cell: nothing (a
      missing, empty or non-text cell, or text no date format parses), the
      neutral 2.5 (non-empty text with no token, where `split()[0]` raises),
      or an age in days. */
  datatype Recency = NoRecency | Neutral | Aged(daysOld: int)

  predicate AllSpace(s: string) {
    forall i :: 0 <= i < |s| ==> IsSpace(s[i])
  }

  /** The longest prefix without whitespace. */
  function TakeToken(s: string): (r: string)
    ensures |r| <= |s| && r == s[..|r|]
    ensures forall i :: 0 <= i < |r| ==> !IsSpace(r[i])
    ensures |r| < |s| ==> IsSpace(s[|r|])
  {
    if s == [] || IsSpace(s[0]) then [] else [s[0]] + TakeToken(s[1..])
  }

  /** `s.split()[0]` for a string with a non-space character. */
  function FirstToken(s: string): (r: string)
    ensures !AllSpace(s) ==> |r| > 0
  {
    var t := TrimLeft(s);
    assert !AllSpace(s) ==> |t| > 0;
    TakeToken(t)
  }

  /** Classifies the `lastupdate` cell; `age` reads a date token in one of
      the accepted formats and returns its age in days, or `None` when no
      format parses (it stands for `strptime` and the clock). */
  function RecencyOf(lastupdate: Option<string>, age: string -> Option<int>): (r: Recency)
    ensures r.Neutral? <==> lastupdate.Some? && lastupdate.value != "" && AllSpace(lastupdate.value)
    ensures r.Aged? ==> lastupdate.Some? && !AllSpace(lastupdate.value) && age(FirstToken(lastupdate.value)) == Some(r.daysOld)
    ensures lastupdate.Some? && !AllSpace(lastupdate.value) && age(FirstToken(lastupdate.value)).Some? ==>
      r == Aged(age(FirstToken(lastupdate.value)).value)
  {
    match lastupdate
    case None => NoRecency
    case Some(s) =>
      if s == [] then NoRecency
      else if AllSpace(s) then Neutral
      else match age(FirstToken(s))
        case None => NoRecency
        case Some(d) => Aged(d)
  }

  /** `max(0, 5 - days_old / 30)`, or the neutral 2.5, or nothing. */
  function RecencyScore(r: Recency): (x: real)
    ensures x >= 0.0
    ensures r.Aged? && r.daysOld >= 0 ==> x <= 5.0
  {
    match r
    case NoRecency => 0.0
    case Neutral => 2.5
    case Aged(d) => if 5.0 - (d as real) / 30.0 > 0.0 then 5.0 - (d as real) / 30.0 else 0.0
  }

  /** Recency fades linearly over 150 days: fresh data earns 5, and data at
      least 150 days old earns nothing. */
  lemma RecencyFades(d: int)
    ensures d <= 0 ==> RecencyScore(Aged(d)) >= 5.0
    ensures d >= 150 ==> RecencyScore(Aged(d)) == 0.0
    ensures 0 <= d <= 150 ==> RecencyScore(Aged(d)) * 30.0 == 150.0 - d as real
  {
  }

  /** `calculate_symbol_score(unit, lastupdate)`. */
  function SymbolScore(unit: string, lastupdate: Option<string>, age: string -> Option<int>): (s: real)
    ensures 0.0 <= s
  {
    UnitTier(unit) + CurrencyScore(unit) + RecencyScore(RecencyOf(lastupdate, age))
  }

  /** The score is at most 20 unless the date lies in the future. */
  lemma SymbolScoreBound(unit: string, lastupdate: Option<string>, age: string -> Option<int>)
    requires forall t :: age(t).Some? ==> age(t).value >= 0
    ensures SymbolScore(unit, lastupdate, age) <= 20.0
  {
  }

  /** With equal recency, a USD ton unit outscores every unit outside the
      ton tier. */
  lemma UsdTonUnitsWin(ton: string, other: string, r: Recency)
    requires 'T' in Upper(ton) && Contains(Upper(ton), "USD")
    requires 'T' !in Upper(other)
    ensures UnitTier(ton) + CurrencyScore(ton) + RecencyScore(r) > UnitTier(other) + CurrencyScore(other) + RecencyScore(r)
  {
    TonTierIsAnyT(ton);
    TonTierIsAnyT(other);
  }

  // ---------------------------------------------------------------------
  // Candidates and selection

  /** A row of the TradingEconomics commodities frame, each cell as `str()`
      gives it; `lastupdate` is `None` when the cell is not text. */
  datatype Record = Record(symbol: string, name: string, unit: string, lastupdate: Option<string>)

  /** A frame: its column names and rows. */
  datatype Frame = Frame(columns: set<string>, rows: seq<Record>)

  datatype Candidate = Candidate(symbol: string, name: string, unit: string, score: real)

  /** The fields `select_best_symbol` returns. */
  datatype Symbol = Symbol(symbol: string, name: string, unit: string)

  /** An alternation of whole-word patterns `\bw1\b|\bw2\b|...`, the words
      lower-case, matched against the lower-cased name. */
  predicate NameMatches(name: string, words: seq<string>) {
    exists k :: 0 <= k < |words| && ContainsWord(Lower(name), words[k])
  }

  const Required: set<string> := {"symbol", "name", "unit"}

  function CandidateOf(r: Record, age: string -> Option<int>): Candidate {
    Candidate(r.symbol, r.name, r.unit, SymbolScore(r.unit, r.lastupdate, age))
  }

  /** The boolean mask `df["name"].str.contains(pattern, case=False)`. */
  function WordMask(words: seq<string>): Record -> bool {
    (r: Record) => NameMatches(r.name, words)
  }

  /** The matching rows, in frame order, as scored candidates. */
  function Matching(rows: seq<Record>, words: seq<string>, age: string -> Option<int>): (cs: seq<Candidate>)
    ensures |cs| <= |rows|
    ensures forall c :: c in cs ==> exists r :: r in rows && NameMatches(r.name, words) && c == CandidateOf(r, age)
    ensures forall r :: r in rows && NameMatches(r.name, words) ==> CandidateOf(r, age) in cs
  {
    if rows == [] then []
    else
      var rest := Matching(rows[1..], words, age);
      assert forall r :: r in rows[1..] ==> r in rows;
      assert forall r :: r in rows ==> r == rows[0] || r in rows[1..];
      if NameMatches(rows[0].name, words) then [CandidateOf(rows[0], age)] + rest else rest
  }

  /** The candidates are the masked rows, one each, in frame order; so of
      two equally scored candidates the earlier row comes first. */
  lemma {:induction false} MatchingInFrameOrder(rows: seq<Record>, words: seq<string>, age: string -> Option<int>)
    ensures |Matching(rows, words, age)| == |Filter(rows, WordMask(words))|
    ensures forall i :: 0 <= i < |Matching(rows, words, age)| ==>
      Matching(rows, words, age)[i] == CandidateOf(Filter(rows, WordMask(words))[i], age)
  {
    if rows != [] {
      var p := WordMask(words);
      MatchingInFrameOrder(rows[1..], words, age);
      var rest, kept := Matching(rows[1..], words, age), Filter(rows[1..], p);
      assert p(rows[0]) == NameMatches(rows[0].name, words);
      if p(rows[0]) {
        assert Matching(rows, words, age) == [CandidateOf(rows[0], age)] + rest;
        assert Filter(rows, p) == [rows[0]] + kept;
        CandidatesCons(rows[0], rest, kept, age);
      } else {
        assert Matching(rows, words, age) == rest;
        assert Filter(rows, p) == kept;
      }
    }
  }

  lemma CandidatesCons(r: Record, cs: seq<Candidate>, rs: seq<Record>, age: string -> Option<int>)
    requires |cs| == |rs| && forall i :: 0 <= i < |cs| ==> cs[i] == CandidateOf(rs[i], age)
    ensures |[CandidateOf(r, age)] + cs| == |[r] + rs|
    ensures forall i :: 0 <= i < |[CandidateOf(r, age)] + cs| ==> ([CandidateOf(r, age)] + cs)[i] == CandidateOf(([r] + rs)[i], age)
  {
  }

  /** `find_symbol_candidates(df, pattern)`: nothing for an empty frame or
      one missing a required column. */
  function FindCandidates(df: Frame, words: seq<string>, age: string -> Option<int>): (cs: seq<Candidate>)
    ensures (df.rows == [] || !(Required <= df.columns)) ==> cs == []
    ensures Required <= df.columns ==> cs == Matching(df.rows, words, age)
  {
    if df.rows == [] || df.columns == {} then []
    else if !(Required <= df.columns) then []
    else Matching(df.rows, words, age)
  }

  /** Candidate `i` is the first with the highest score, which is what
      Python's `max` returns. */
  predicate IsFirstMax(cs: seq<Candidate>, i: int) {
    && 0 <= i < |cs|
    && (forall j :: 0 <= j < |cs| ==> cs[j].score <= cs[i].score)
    && (forall j :: 0 <= j < i ==> cs[j].score < cs[i].score)
  }

  /** At most one position is the first maximum. */
  lemma FirstMaxUnique(cs: seq<Candidate>, i: int, j: int)
    requires IsFirstMax(cs, i) && IsFirstMax(cs, j)
    ensures i == j
  {
    assert cs[i].score == cs[j].score;
  }

  function Project(c: Candidate): Symbol {
    Symbol(c.symbol, c.name, c.unit)
  }

  /** `select_best_symbol(candidates)`: `None` (the empty dict) for no
      candidates, else the first best-scoring candidate's fields. */
  method SelectBestSymbol(cs: seq<Candidate>) returns (best: Option<Symbol>)
    ensures best.None? <==> cs == []
    ensures best.Some? ==> exists i :: IsFirstMax(cs, i) && best.value == Project(cs[i])
  {
    if cs == [] {
      return None;
    }
    var b := 0;
    var k := 1;
    while k < |cs|
      invariant 1 <= k <= |cs|
      invariant IsFirstMax(cs[..k], b)
    {
      if cs[k].score > cs[b].score {
        b := k;
      }
      k := k + 1;
    }
    assert cs[..k] == cs;
    return Some(Project(cs[b]));
  }

  /** The position of the first best-scoring candidate. */
  function BestIndex(cs: seq<Candidate>): (i: nat)
    requires |cs| > 0
    ensures IsFirstMax(cs, i)
  {
    if |cs| == 1 then 0
    else
      var k := BestIndex(cs[..|cs| - 1]);
      assert forall j :: 0 <= j < |cs| - 1 ==> cs[..|cs| - 1][j] == cs[j];
      if cs[|cs| - 1].score > cs[k].score then |cs| - 1 else k
  }

  /** The selection as a function, agreeing with the loop. */
  function BestSymbol(cs: seq<Candidate>): (b: Option<Symbol>)
    ensures b.None? <==> cs == []
  {
    if cs == [] then None else Some(Project(cs[BestIndex(cs)]))
  }

  lemma SelectAgreesWithBestSymbol(cs: seq<Candidate>, best: Option<Symbol>)
    requires best.None? <==> cs == []
    requires best.Some? ==> exists i :: IsFirstMax(cs, i) && best.value == Project(cs[i])
    ensures best == BestSymbol(cs)
  {
    if cs != [] {
      var i :| IsFirstMax(cs, i) && best.value == Project(cs[i]);
      FirstMaxUnique(cs, i, BestIndex(cs));
    }
  }

  // ---------------------------------------------------------------------
  // Resolution

  /** The materials `resolve_symbols_te` looks for and their name words. */
  const Targets: map<string, seq<string>> := map[
    "nickel" := ["nickel"],
    "cobalt" := ["cobalt"],
    "copper" := ["copper"],
    "aluminum" := ["aluminum", "aluminium"],
    "lithium_carbonate" := ["lithium"],
    "manganese_sulfate" := ["manganese"],
    "graphite_battery" := ["graphite"]]

  /** `resolve_symbols_te(df)`: the chosen symbol of every target material
      with at least one candidate. */
  function ResolveSymbols(df: Frame, age: string -> Option<int>): (r: map<string, Symbol>)
    ensures forall m :: m in r <==> m in Targets && FindCandidates(df, Targets[m], age) != []
    ensures forall m :: m in r ==>
      exists i :: IsFirstMax(FindCandidates(df, Targets[m], age), i) && r[m] == Project(FindCandidates(df, Targets[m], age)[i])
  {
    map m | m in Targets && FindCandidates(df, Targets[m], age) != [] ::
      BestSymbol(FindCandidates(df, Targets[m], age)).value
  }

  /** A frame lacking a required column resolves nothing. */
  lemma MissingColumnResolvesNothing(df: Frame, age: string -> Option<int>)
    requires !(Required <= df.columns)
    ensures ResolveSymbols(df, age) == map[]
  {
  }

  // ---------------------------------------------------------------------
  // Intensity names

  /** `get_material_mapping()`. */
  const MaterialMapping: map<string, string> := map[
    "Nickel" := "nickel",
    "Cobalt" := "cobalt",
    "Manganese" := "manganese_sulfate",
    "Lithium Carbonate" := "lithium_carbonate",
    "Graphite" := "graphite_battery",
    "Copper" := "copper",
    "Aluminum" := "aluminum",
    "Phosphate Rock" := "phosphate_rock",
    "Iron Ore" := "iron_ore"]

  /** `normalize_material_name(name)`: the mapping's value for an exact key,
      else lower case with spaces as underscores. */
  function NormalizeMaterialName(name: string): (r: string)
    ensures name in MaterialMapping ==> r == MaterialMapping[name]
    ensures name !in MaterialMapping ==> r == Normalized(name)
  {
    Get(MaterialMapping, name, Normalized(name))
  }

  /** The source's example: "Manganese" is the sulfate, not "manganese". */
  lemma ManganeseIsSulfate()
    ensures NormalizeMaterialName("Manganese") == "manganese_sulfate"
  {
    assert MaterialMapping["Manganese"] == "manganese_sulfate";
  }

  /** The mapping's keys are capitalised, so no key-shaped name is a key. */
  lemma KeyShapedIsNotMapped(s: string)
    requires IsKeyShaped(s)
    ensures s !in MaterialMapping
  {
    forall k | k in MaterialMapping
      ensures |k| > 0 && 'A' <= k[0] <= 'Z'
    {
    }
  }

  /** Every normalised name is a fixed point. */
  lemma NormalizeMaterialNameIdempotent(name: string)
    ensures NormalizeMaterialName(NormalizeMaterialName(name)) == NormalizeMaterialName(name)
  {
    var r := NormalizeMaterialName(name);
    if name in MaterialMapping {
      MappingValuesKeyShaped(name);
    } else {
      NormalizedIsKeyShaped(name);
    }
    KeyShapedIsNotMapped(r);
    NormalizedOfKeyShaped(r);
  }

  lemma MappingValuesKeyShaped(k: string)
    requires k in MaterialMapping
    ensures IsKeyShaped(MaterialMapping[k])
  {
    var v := MaterialMapping[k];
    assert v in MappedKeys;
    MappedKeysAreKeyShaped(v);
  }

  /** The distinct values of the mapping. */
  const MappedKeys: seq<string> := [
    "nickel", "cobalt", "manganese_sulfate", "lithium_carbonate", "graphite_battery",
    "copper", "aluminum", "phosphate_rock", "iron_ore"]

  lemma MappedKeysAreKeyShaped(v: string)
    requires v in MappedKeys
    ensures IsKeyShaped(v)
  {
    MappedKeysAreSnakeCase(v);
    SnakeCaseIsKeyShaped(v);
  }

  lemma MappedKeysAreSnakeCase(v: string)
    requires v in MappedKeys
    ensures IsSnakeCase(v)
  {
  }

  lemma SnakeCaseIsKeyShaped(v: string)
    requires IsSnakeCase(v)
    ensures IsKeyShaped(v)
  {
    forall i | 0 <= i < |v|
      ensures v[i] != ' ' && !('A' <= v[i] <= 'Z')
    {
      assert 'a' <= v[i] <= 'z' || '0' <= v[i] <= '9' || v[i] == '_';
    }
  }

  /** For a name outside the mapping, both normalisations of the project
      agree except for the intensity alias. */
  lemma NormalizeAgreesWithMaterialKey(name: string)
    requires name !in MaterialMapping && Normalized(name) !in Aliases
    ensures NormalizeMaterialName(name) == MaterialKey(name)
  {
  }
}
