/** The uploaded-file path of the pipeline (`scripts/process_uploaded_data.py`):
    each uploaded table's date, price and material columns are recognised
    by keyword, its series are matched to the seven target materials, and
    they are overlaid month by month onto a panel running from January 2020
    to the current month. */
module Uploads {
  import opened Wrappers
  import opened Text
  import opened Months

  /** The panel's material columns, in column order. */
  const TargetMaterials: seq<string> := [
    "lithium_carbonate", "nickel", "cobalt", "manganese_sulfate",
    "graphite_battery", "copper", "aluminum"]

  // ---------------------------------------------------------------------
  // Names

  /** Names of uploaded materials, after lower-casing and stripping. */
  const UploadAliases: map<string, string> := map[
    "lithium" := "lithium_carbonate",
    "lithium carbonate" := "lithium_carbonate",
    "li2co3" := "lithium_carbonate",
    "nickel" := "nickel",
    "ni" := "nickel",
    "cobalt" := "cobalt",
    "co" := "cobalt",
    "manganese" := "manganese_sulfate",
    "manganese sulfate" := "manganese_sulfate",
    "mnso4" := "manganese_sulfate",
    "graphite" := "graphite_battery",
    "graphite battery" := "graphite_battery",
    "copper" := "copper",
    "cu" := "copper",
    "aluminum" := "aluminum",
    "aluminium" := "aluminum",
    "al" := "aluminum"]

  /** `normalize_material_name(name)`: lower-case and strip, then the alias
      table; other names come back as they are after that cleaning, spaces
      kept. */
  function NormalizeUploadName(name: string): (r: string)
    ensures Trim(Lower(name)) !in UploadAliases ==> r == Trim(Lower(name))
    ensures Trim(Lower(name)) in UploadAliases ==> r == UploadAliases[Trim(Lower(name))] && r in TargetMaterials
  {
    var n := Trim(Lower(name));
    assert forall k :: k in UploadAliases ==> UploadAliases[k] in TargetMaterials;
    Get(UploadAliases, n, n)
  }

  lemma TargetsAreSnakeCase(v: string)
    requires v in TargetMaterials
    ensures IsSnakeCase(v)
  {
  }

  /** A snake-case name is lower-case and has no surrounding whitespace. */
  lemma SnakeCaseIsClean(v: string)
    requires IsSnakeCase(v)
    ensures IsLowerCased(v)
    ensures Trim(v) == v
  {
    forall i | 0 <= i < |v|
      ensures LowerChar(v[i]) == v[i] && !IsSpace(v[i])
    {
      assert 'a' <= v[i] <= 'z' || '0' <= v[i] <= '9' || v[i] == '_';
    }
    TrimLeftNoop(v);
    TrimRightNoop(v);
  }

  /** The target names are clean: lower-case, without surrounding
      whitespace. */
  lemma TargetsAreClean(v: string)
    requires v in TargetMaterials
    ensures IsLowerCased(v)
    ensures Trim(v) == v
  {
    TargetsAreSnakeCase(v);
    SnakeCaseIsClean(v);
  }

  /** The alias table leaves every target name as it is. */
  lemma TargetsAreFixed(v: string)
    requires v in TargetMaterials
    ensures Get(UploadAliases, v, v) == v
  {
  }

  /** Normalising a normalised name changes nothing. */
  lemma NormalizeUploadNameIdempotent(name: string)
    ensures NormalizeUploadName(NormalizeUploadName(name)) == NormalizeUploadName(name)
  {
    var n := Trim(Lower(name));
    var r := NormalizeUploadName(name);
    if n in UploadAliases {
      TargetsAreClean(r);
      LowerOfLowerCased(r);
      TargetsAreFixed(r);
    } else {
      CleanedIsClean(name);
    }
  }

  /** A slice of a lower-cased string is lower-cased. */
  lemma SliceIsLowerCased(l: string, i: nat, j: nat)
    requires IsLowerCased(l) && i <= j <= |l|
    ensures IsLowerCased(l[i..j])
  {
    forall k | 0 <= k < j - i
      ensures LowerChar(l[i..j][k]) == l[i..j][k]
    {
      assert l[i..j][k] == l[i + k];
    }
  }

  /** `strip(lower(s))` is lower-case and already stripped. */
  lemma CleanedIsClean(s: string)
    ensures Lower(Trim(Lower(s))) == Trim(Lower(s))
    ensures Trim(Trim(Lower(s))) == Trim(Lower(s))
  {
    var l := Lower(s);
    assert IsLowerCased(l) by {
      forall i | 0 <= i < |l|
        ensures LowerChar(l[i]) == l[i]
      {
      }
    }
    StrippedLowerCasedIsClean(l);
  }

  lemma StrippedLowerCasedIsClean(l: string)
    requires IsLowerCased(l)
    ensures Lower(Trim(l)) == Trim(l)
    ensures Trim(Trim(l)) == Trim(l)
  {
    TrimOfLowerCased(l);
    LowerOfLowerCased(Trim(l));
    TrimIdempotent(l);
  }

  lemma TrimOfLowerCased(l: string)
    requires IsLowerCased(l)
    ensures IsLowerCased(Trim(l))
  {
    var i, j :| 0 <= i <= j <= |l| && Trim(l) == l[i..j];
    SliceIsLowerCased(l, i, j);
  }

  /** Lower-case, with no whitespace at either end: what lower-casing and
      stripping leave unchanged. */
  predicate IsCleanName(s: string) {
    IsLowerCased(s) && (s == [] || (!IsSpace(s[0]) && !IsSpace(s[|s| - 1])))
  }

  lemma CleanNameIsFixed(v: string)
    requires IsCleanName(v)
    ensures Trim(Lower(v)) == v
  {
    LowerOfLowerCased(v);
    TrimLeftNoop(v);
    TrimRightNoop(v);
  }

  /** Every alias, the spaced ones included, is written in its cleaned form. */
  lemma AliasKeysAreClean(k: string)
    requires k in UploadAliases
    ensures IsCleanName(k)
  {
    if k in {"lithium", "lithium carbonate", "li2co3", "nickel", "ni", "cobalt"} {
      LithiumNickelAliasesAreClean(k);
    } else if k in {"co", "manganese", "manganese sulfate", "mnso4", "graphite", "graphite battery"} {
      ManganeseGraphiteAliasesAreClean(k);
    } else {
      CopperAluminumAliasesAreClean(k);
    }
  }

  lemma LithiumNickelAliasesAreClean(k: string)
    requires k in {"lithium", "lithium carbonate", "li2co3", "nickel", "ni", "cobalt"}
    ensures IsCleanName(k)
  {
  }

  lemma ManganeseGraphiteAliasesAreClean(k: string)
    requires k in {"co", "manganese", "manganese sulfate", "mnso4", "graphite", "graphite battery"}
    ensures IsCleanName(k)
  {
  }

  lemma CopperAluminumAliasesAreClean(k: string)
    requires k in {"copper", "cu", "aluminum", "aluminium", "al"}
    ensures IsCleanName(k)
  {
  }

  /** Every alias maps to its table value, so "ni" is nickel and never
      another target. */
  lemma AliasNormalizes(k: string)
    requires k in UploadAliases
    ensures NormalizeUploadName(k) == UploadAliases[k]
  {
    AliasKeysAreClean(k);
    CleanNameIsFixed(k);
  }

  /** The padded, mixed-case formula `" Li2CO3 "` is lithium carbonate. */
  lemma PaddedFormulaNormalizes()
    ensures NormalizeUploadName(" Li2CO3 ") == "lithium_carbonate"
  {
    assert " Li2CO3 " == [' '] + "Li2CO3" + [' '];
    LowerPointwise("Li2CO3", "li2co3");
    CleanSpacePadded("Li2CO3", "li2co3");
    FormulaAlias("li2co3");
  }

  /** One space either side of a word is stripped after lower-casing. */
  lemma CleanSpacePadded(w: string, l: string)
    requires Lower(w) == l && l != [] && !IsSpace(l[0]) && !IsSpace(l[|l| - 1])
    ensures Trim(Lower([' '] + w + [' '])) == l
  {
    LowerSpacePadded(w);
    TrimSpacePadded(l);
  }

  lemma LowerSpacePadded(w: string)
    ensures Lower([' '] + w + [' ']) == [' '] + Lower(w) + [' ']
  {
    var s, t := [' '] + w + [' '], [' '] + Lower(w) + [' '];
    forall i | 0 <= i < |s|
      ensures LowerChar(s[i]) == t[i]
    {
      if 0 < i < |s| - 1 {
        assert s[i] == w[i - 1] && t[i] == Lower(w)[i - 1];
      }
    }
    LowerPointwise(s, t);
  }

  lemma TrimSpacePadded(l: string)
    requires l != [] && !IsSpace(l[0]) && !IsSpace(l[|l| - 1])
    ensures Trim([' '] + l + [' ']) == l
  {
    var s := [' '] + l + [' '];
    assert s[1] == l[0] && s[|s| - 2] == l[|l| - 1];
    TrimPadded(s, 1, |s| - 1);
    assert s[1..|s| - 1] == l;
  }

  /** No alias after "li2co3" in the table starts with 'l', so the lookup
      lands on its own entry. */
  lemma FormulaAlias(k: string)
    requires k == "li2co3"
    ensures k in UploadAliases && UploadAliases[k] == "lithium_carbonate"
  {
    assert k[0] == 'l';
  }

  /** Spelled-out example: `aluminium` is aluminum. */
  lemma AluminiumIsAluminum()
    ensures NormalizeUploadName("aluminium") == "aluminum"
  {
    var k := "aluminium";
    assert k in UploadAliases && UploadAliases[k] == "aluminum";
    AliasNormalizes(k);
  }

  /** A snake-case name is its own cleaned form. */
  lemma CleanName(v: string)
    requires IsSnakeCase(v)
    ensures Trim(Lower(v)) == v
  {
    SnakeCaseIsClean(v);
    LowerOfLowerCased(v);
  }

  // ---------------------------------------------------------------------
  // Keyword matching

  /** Whether `s` contains any of the keywords. */
  predicate AnyKeyword(s: string, keywords: seq<string>) {
    exists k :: 0 <= k < |keywords| && Contains(s, keywords[k])
  }

  /** A table of keyword lists and the material each stands for, tried in
      order. */
  function FirstMatch(table: seq<(seq<string>, string)>, s: string): (r: Option<string>)
    ensures r.None? <==> forall i :: 0 <= i < |table| ==> !AnyKeyword(s, table[i].0)
    ensures r.Some? ==> exists i :: (0 <= i < |table| && AnyKeyword(s, table[i].0) && r.value == table[i].1
      && forall j :: 0 <= j < i ==> !AnyKeyword(s, table[j].0))
  {
    if table == [] then None
    else if AnyKeyword(s, table[0].0) then Some(table[0].1)
    else
      var r := FirstMatch(table[1..], s);
      assert forall i :: 1 <= i < |table| ==> table[i] == table[1..][i - 1];
      r
  }

  /** The filename keywords of `guess_material_from_filename`, in the order
      they are tried. */
  const FileKeywords: seq<(seq<string>, string)> := [
    (["lithium"], "lithium_carbonate"),
    (["nickel"], "nickel"),
    (["cobalt"], "cobalt"),
    (["manganese"], "manganese_sulfate"),
    (["graphite"], "graphite_battery"),
    (["copper"], "copper"),
    (["aluminum", "aluminium"], "aluminum")]

  /** `guess_material_from_filename(filename)`: the first keyword found in
      the lower-cased name decides. */
  function GuessMaterial(filename: string): (r: Option<string>)
    ensures r.Some? ==> r.value in TargetMaterials
  {
    FirstMatch(FileKeywords, Lower(filename))
  }

  /** A name mentioning lithium is lithium carbonate, whatever else it
      mentions. */
  lemma LithiumComesFirst(filename: string)
    requires Contains(Lower(filename), "lithium")
    ensures GuessMaterial(filename) == Some("lithium_carbonate")
  {
    assert FileKeywords[0].0[0] == "lithium";
    assert AnyKeyword(Lower(filename), FileKeywords[0].0);
  }

  /** Guessing ignores case. */
  lemma GuessIgnoresCase(a: string, b: string)
    requires |a| == |b| && forall i :: 0 <= i < |a| ==> LowerChar(a[i]) == LowerChar(b[i])
    ensures GuessMaterial(a) == GuessMaterial(b)
  {
    assert Lower(a) == Lower(b);
  }

  const DateKeywords: seq<string> := ["date", "time", "month", "year"]
  const PriceKeywords: seq<string> := ["price", "cost", "usd", "ton", "per_ton"]
  const MaterialKeywords: seq<string> := ["material", "commodity", "metal", "name"]

  /** The position of the first column whose lower-cased name contains a
      keyword. */
  function DetectColumn(columns: seq<string>, keywords: seq<string>): (r: Option<nat>)
    ensures r.None? <==> forall j :: 0 <= j < |columns| ==> !AnyKeyword(Lower(columns[j]), keywords)
    ensures r.Some? ==> (r.value < |columns| && AnyKeyword(Lower(columns[r.value]), keywords)
      && forall j :: 0 <= j < r.value ==> !AnyKeyword(Lower(columns[j]), keywords))
  {
    if columns == [] then None
    else if AnyKeyword(Lower(columns[0]), keywords) then Some(0)
    else
      match DetectColumn(columns[1..], keywords)
      case None => None
      case Some(k) => Some(k + 1)
  }

  // ---------------------------------------------------------------------
  // Overlay merge

  /** A monthly series: month to price, a missing month being `NaN`. */
  type Series = map<Month, real>

  /** `later.fillna(earlier)`: the later value where present, else the
      earlier one. */
  function Overlay(earlier: Series, later: Series): (r: Series)
    ensures r.Keys == earlier.Keys + later.Keys
    ensures forall t :: t in later ==> r[t] == later[t]
    ensures forall t :: t in earlier && t !in later ==> r[t] == earlier[t]
  {
    map t | t in earlier.Keys + later.Keys :: if t in later then later[t] else earlier[t]
  }

  /** Overlaying the same data again changes nothing, and two overlays in a
      row are one overlay of the later onto the earlier. */
  lemma OverlayLaws(a: Series, b: Series, c: Series)
    ensures Overlay(Overlay(a, b), b) == Overlay(a, b)
    ensures Overlay(Overlay(a, b), c) == Overlay(a, Overlay(b, c))
  {
  }

  /** The months of the panel: January 2020 through the current month. */
  predicate InPanel(t: Month, current: Month) {
    Jan2020 <= t <= current
  }

  /** The left merge onto the panel's `date` column keeps panel months only. */
  function Restrict(s: Series, current: Month): (r: Series)
    ensures forall t :: t in r <==> t in s && InPanel(t, current)
  {
    map t | t in s && InPanel(t, current) :: s[t]
  }

  /** The panel's columns so far; a material without a column is all
      missing. */
  type Columns = map<string, Series>

  predicate WithinPanel(cols: Columns, current: Month) {
    forall m, t :: m in cols && t in cols[m] ==> InPanel(t, current)
  }

  /** One merge of a material's monthly series onto the panel. */
  function Merge(cols: Columns, m: string, s: Series, current: Month): (r: Columns)
    requires WithinPanel(cols, current)
    ensures WithinPanel(r, current)
    ensures r.Keys == cols.Keys + {m}
    ensures forall n :: n in cols && n != m ==> r[n] == cols[n]
  {
    cols[m := Overlay(Get(cols, m, map[]), Restrict(s, current))]
  }

  /** After a merge, a panel month holds the new value when the upload has
      one, and otherwise what it held before. */
  lemma MergeNewWins(cols: Columns, m: string, s: Series, current: Month, t: Month)
    requires WithinPanel(cols, current) && InPanel(t, current)
    ensures t in s ==> Merge(cols, m, s, current)[m][t] == s[t]
    ensures t !in s ==> (t in Merge(cols, m, s, current)[m] <==> m in cols && t in cols[m])
    ensures t !in s && m in cols && t in cols[m] ==> Merge(cols, m, s, current)[m][t] == cols[m][t]
  {
  }

  /** One merge changes a panel cell only in the merged column, and only
      where the new series has a value. */
  lemma MergeCell(cols: Columns, n: string, s: Series, current: Month, m: string, t: Month)
    requires WithinPanel(cols, current) && InPanel(t, current)
    ensures Cell(Merge(cols, n, s, current), m, t) == if n == m && t in s then Some(s[t]) else Cell(cols, m, t)
  {
    if n == m {
      MergeNewWins(cols, m, s, current, t);
    }
  }

  // ---------------------------------------------------------------------
  // Files

  /** One monthly series of an uploaded table: the raw material value of a
      group (ignored when the table has no material column) and the group's
      prices resampled to monthly means. */
  datatype RawSeries = RawSeries(material: string, monthly: Series)

  /** An uploaded file: its name, its column names in order, its rows
      grouped by the material column's values in order of first appearance,
      and all its rows as one series. Date parsing and resampling happen
      before; `parsed` false skips the whole file, like the source's
      `except` when it fires before the first merge. */
  datatype UploadedFile = UploadedFile(name: string, columns: seq<string>, groups: seq<RawSeries>, whole: Series, parsed: bool)

  /** Each group as its normalised material name and its monthly series. */
  function Labelled(groups: seq<RawSeries>): (r: seq<(string, Series)>)
    ensures |r| == |groups|
    decreases groups
  {
    if groups == [] then [] else [(NormalizeUploadName(groups[0].material), groups[0].monthly)] + Labelled(groups[1..])
  }

  /** The groups whose names resolve to a target, merged in order. */
  function MergeGroups(cols: Columns, groups: seq<RawSeries>, current: Month): (r: Columns)
    requires WithinPanel(cols, current)
    ensures WithinPanel(r, current)
    ensures forall n :: n in r ==> n in cols || n in TargetMaterials
    ensures cols.Keys <= r.Keys
    ensures forall n :: n in cols && n !in TargetMaterials ==> r[n] == cols[n]
  {
    MergeLabelled(cols, Labelled(groups), current)
  }

  /** The labelled groups merged in order. */
  function MergeLabelled(cols: Columns, named: seq<(string, Series)>, current: Month): (r: Columns)
    requires WithinPanel(cols, current)
    ensures WithinPanel(r, current)
    ensures forall n :: n in r ==> n in cols || n in TargetMaterials
    ensures cols.Keys <= r.Keys
    ensures forall n :: n in cols && n !in TargetMaterials ==> r[n] == cols[n]
    decreases named
  {
    if named == [] then cols
    else MergeLabelled(MergeGroup(cols, named[0].0, named[0].1, current), named[1..], current)
  }

  /** One group, under its normalised `name`: merged when that is a target,
      skipped otherwise. */
  function MergeGroup(cols: Columns, name: string, s: Series, current: Month): (r: Columns)
    requires WithinPanel(cols, current)
    ensures WithinPanel(r, current)
    ensures forall n :: n in r ==> n in cols || n in TargetMaterials
    ensures cols.Keys <= r.Keys
    ensures forall n :: n in cols && n !in TargetMaterials ==> r[n] == cols[n]
  {
    if name in TargetMaterials then Merge(cols, name, s, current) else cols
  }

  /** What one file does to the panel: nothing without both a date and a
      price column, nor when they are the same column (selecting the price
      after indexing by it raises); otherwise a merge per target group, or
      of the whole table under the material guessed from the file name. */
  function ProcessFile(cols: Columns, f: UploadedFile, current: Month): (r: Columns)
    requires WithinPanel(cols, current)
    ensures WithinPanel(r, current)
    ensures forall n :: n in r ==> n in cols || n in TargetMaterials
  {
    if !Recognised(f) then cols
    else if DetectColumn(f.columns, MaterialKeywords).Some? then MergeGroups(cols, f.groups, current)
    else
      match GuessMaterial(f.name)
      case None => cols
      case Some(m) => Merge(cols, m, f.whole, current)
  }

  /** The file parsed and has a date column and a different price column. */
  predicate Recognised(f: UploadedFile) {
    var d := DetectColumn(f.columns, DateKeywords);
    var p := DetectColumn(f.columns, PriceKeywords);
    d.Some? && p.Some? && d.value != p.value && f.parsed
  }

  /** A recognised file without a material column is merged whole under the
      material its name suggests: a panel month takes the file's value when
      it has one and keeps its old value otherwise. */
  lemma GuessedFileMerges(cols: Columns, f: UploadedFile, current: Month, m: string)
    requires WithinPanel(cols, current)
    requires Recognised(f) && DetectColumn(f.columns, MaterialKeywords).None? && GuessMaterial(f.name) == Some(m)
    ensures ProcessFile(cols, f, current) == Merge(cols, m, f.whole, current)
    ensures forall t :: InPanel(t, current) ==>
      Cell(ProcessFile(cols, f, current), m, t) == if t in f.whole then Some(f.whole[t]) else Cell(cols, m, t)
  {
    forall t | InPanel(t, current)
      ensures Cell(Merge(cols, m, f.whole, current), m, t) == if t in f.whole then Some(f.whole[t]) else Cell(cols, m, t)
    {
      MergeCell(cols, m, f.whole, current, m, t);
    }
  }

  /** A recognised file with a material column and a single group naming
      target `m` is one merge of that group under `m`. */
  lemma SingleGroupMerges(cols: Columns, f: UploadedFile, current: Month, m: string)
    requires WithinPanel(cols, current)
    requires Recognised(f) && DetectColumn(f.columns, MaterialKeywords).Some?
    requires |f.groups| == 1 && NormalizeUploadName(f.groups[0].material) == m && m in TargetMaterials
    ensures ProcessFile(cols, f, current) == Merge(cols, m, f.groups[0].monthly, current)
  {
    GroupedFileMerges(cols, f, current);
    SingleLabel(f.groups, m);
    SingleLabelMerges(cols, Labelled(f.groups), current);
  }

  /** A recognised file with a material column merges its labelled groups. */
  lemma GroupedFileMerges(cols: Columns, f: UploadedFile, current: Month)
    requires WithinPanel(cols, current)
    requires Recognised(f) && DetectColumn(f.columns, MaterialKeywords).Some?
    ensures ProcessFile(cols, f, current) == MergeLabelled(cols, Labelled(f.groups), current)
  {
  }

  lemma SingleLabel(groups: seq<RawSeries>, m: string)
    requires |groups| == 1 && NormalizeUploadName(groups[0].material) == m
    ensures |Labelled(groups)| == 1 && Labelled(groups)[0].0 == m && Labelled(groups)[0].1 == groups[0].monthly
  {
  }

  lemma SingleLabelMerges(cols: Columns, named: seq<(string, Series)>, current: Month)
    requires WithinPanel(cols, current) && |named| == 1 && named[0].0 in TargetMaterials
    ensures MergeLabelled(cols, named, current) == Merge(cols, named[0].0, named[0].1, current)
  {
    var next := MergeGroup(cols, named[0].0, named[0].1, current);
    assert named[1..] == [];
    assert MergeLabelled(next, [], current) == next;
  }

  /** Labelled group `i` names `m` and has a value at `t`, and no later one does. */
  predicate IsLastUpload(named: seq<(string, Series)>, m: string, t: Month, i: int) {
    && 0 <= i < |named| && named[i].0 == m && t in named[i].1
    && forall j :: i < j < |named| ==> !(named[j].0 == m && t in named[j].1)
  }

  /** The value the labelled groups leave for target `m` at month `t`: that
      of the last group naming `m` with a value at `t`, if any. */
  function LastUpload(named: seq<(string, Series)>, m: string, t: Month): Option<real>
    decreases named
  {
    if named == [] then None
    else
      var later := LastUpload(named[1..], m, t);
      if later.Some? then later
      else if named[0].0 == m && t in named[0].1 then Some(named[0].1[t])
      else None
  }

  /** The groups leave a value exactly when some group names `m` and has a
      value at `t`, and it is that of the last such group. */
  lemma {:induction false} LastUploadIsLast(named: seq<(string, Series)>, m: string, t: Month)
    ensures LastUpload(named, m, t).None? <==> forall i :: 0 <= i < |named| ==> !(named[i].0 == m && t in named[i].1)
    ensures LastUpload(named, m, t).Some? ==>
      exists i :: IsLastUpload(named, m, t, i) && LastUpload(named, m, t).value == named[i].1[t]
    decreases named
  {
    if named != [] {
      var later := LastUpload(named[1..], m, t);
      LastUploadIsLast(named[1..], m, t);
      assert forall j :: 0 < j < |named| ==> named[j] == named[1..][j - 1];
      if later.Some? {
        var i :| IsLastUpload(named[1..], m, t, i) && later.value == named[1..][i].1[t];
        assert IsLastUpload(named, m, t, i + 1);
      } else if named[0].0 == m && t in named[0].1 {
        assert IsLastUpload(named, m, t, 0);
      }
    }
  }

  /** Merging the labelled groups in order leaves, at each panel month of a
      target, the last group's value there, and the old value where no group
      has one. */
  lemma {:induction false} MergeLabelledCell(cols: Columns, named: seq<(string, Series)>, current: Month, m: string, t: Month)
    requires WithinPanel(cols, current) && m in TargetMaterials && InPanel(t, current)
    ensures Cell(MergeLabelled(cols, named, current), m, t)
         == if LastUpload(named, m, t).Some? then LastUpload(named, m, t) else Cell(cols, m, t)
    decreases named
  {
    if named != [] {
      var next := MergeGroup(cols, named[0].0, named[0].1, current);
      MergeLabelledCell(next, named[1..], current, m, t);
      if named[0].0 in TargetMaterials {
        MergeCell(cols, named[0].0, named[0].1, current, m, t);
      }
    }
  }

  /** For a recognised file with a material column, each panel month of a
      target holds the last group's value there, or its old value. */
  lemma GroupedFileCell(cols: Columns, f: UploadedFile, current: Month, m: string, t: Month)
    requires WithinPanel(cols, current)
    requires Recognised(f) && DetectColumn(f.columns, MaterialKeywords).Some?
    requires m in TargetMaterials && InPanel(t, current)
    ensures Cell(ProcessFile(cols, f, current), m, t)
         == if LastUpload(Labelled(f.groups), m, t).Some? then LastUpload(Labelled(f.groups), m, t) else Cell(cols, m, t)
  {
    MergeLabelledCell(cols, Labelled(f.groups), current, m, t);
  }

  /** A file without a recognisable date or price column adds nothing. */
  lemma UnrecognisedFileAddsNothing(cols: Columns, f: UploadedFile, current: Month)
    requires WithinPanel(cols, current)
    requires (forall j :: 0 <= j < |f.columns| ==> !AnyKeyword(Lower(f.columns[j]), DateKeywords))
      || (forall j :: 0 <= j < |f.columns| ==> !AnyKeyword(Lower(f.columns[j]), PriceKeywords))
    ensures ProcessFile(cols, f, current) == cols
  {
  }

  function ProcessFiles(cols: Columns, files: seq<UploadedFile>, current: Month): (r: Columns)
    requires WithinPanel(cols, current)
    ensures WithinPanel(r, current)
    ensures forall n :: n in r ==> n in cols || n in TargetMaterials
    decreases files
  {
    if files == [] then cols
    else
      ProcessFiles(ProcessFile(cols, files[0], current), files[1..], current)
  }

  /** Files are processed one after another: processing `a + b` is
      processing `a`, then `b` on the result. */
  lemma {:induction false} ProcessFilesAppend(cols: Columns, a: seq<UploadedFile>, b: seq<UploadedFile>, current: Month)
    requires WithinPanel(cols, current)
    ensures ProcessFiles(cols, a + b, current) == ProcessFiles(ProcessFiles(cols, a, current), b, current)
    decreases a
  {
    if a == [] {
      assert a + b == b;
    } else {
      assert (a + b)[1..] == a[1..] + b;
      ProcessFilesAppend(ProcessFile(cols, a[0], current), a[1..], b, current);
    }
  }

  /** A row of `prices_monthly.csv`: the date and one price per target
      material, in `TargetMaterials` order. */
  datatype PanelRow = PanelRow(date: Month, prices: seq<Option<real>>)

  function Cell(cols: Columns, m: string, t: Month): Option<real> {
    if m in cols && t in cols[m] then Some(cols[m][t]) else None
  }

  /** Number of panel months. */
  function PanelLength(current: Month): nat {
    if current < Jan2020 then 0 else current - Jan2020 + 1
  }

  /** The panel in date order with exactly the target columns. */
  function Panel(cols: Columns, current: Month): (rows: seq<PanelRow>)
    ensures |rows| == PanelLength(current)
    ensures forall i :: 0 <= i < |rows| ==> rows[i].date == Jan2020 + i && |rows[i].prices| == |TargetMaterials|
    ensures forall i, k :: 0 <= i < |rows| && 0 <= k < |TargetMaterials| ==>
      rows[i].prices[k] == Cell(cols, TargetMaterials[k], Jan2020 + i)
  {
    seq(PanelLength(current), i requires 0 <= i < PanelLength(current) =>
      PanelRow(Jan2020 + i, seq(|TargetMaterials|, k requires 0 <= k < |TargetMaterials| => Cell(cols, TargetMaterials[k], Jan2020 + i))))
  }

  /** `process_uploaded_files()`: `None` (returns `False`, writes nothing)
      when there is no uploaded file, else the panel. */
  function ProcessUploadedFiles(files: seq<UploadedFile>, current: Month): (r: Option<seq<PanelRow>>)
    ensures r.None? <==> files == []
  {
    if files == [] then None else Some(Panel(ProcessFiles(map[], files, current), current))
  }

  /** The panel's rows are strictly increasing in date, one per month from
      January 2020 to the current month. */
  lemma PanelIsMonthly(files: seq<UploadedFile>, current: Month)
    requires files != []
    ensures var rows := ProcessUploadedFiles(files, current).value;
      && (forall i, j :: 0 <= i < j < |rows| ==> rows[i].date < rows[j].date)
      && (forall t :: InPanel(t, current) <==> exists i :: 0 <= i < |rows| && rows[i].date == t)
  {
    var rows := ProcessUploadedFiles(files, current).value;
    forall t | InPanel(t, current)
      ensures exists i :: 0 <= i < |rows| && rows[i].date == t
    {
      assert rows[t - Jan2020].date == t;
    }
  }

  /** Files that each leave the panel as it is leave it so together. */
  lemma {:induction false} IgnoredFilesLeavePanel(cols: Columns, files: seq<UploadedFile>, current: Month)
    requires WithinPanel(cols, current)
    requires forall f :: f in files ==> ProcessFile(cols, f, current) == cols
    ensures ProcessFiles(cols, files, current) == cols
  {
    if files != [] {
      assert files[0] in files;
      IgnoredFilesLeavePanel(cols, files[1..], current);
    }
  }

  /** A target material that no file supplies is missing in every row. */
  lemma UnsuppliedTargetIsMissing(files: seq<UploadedFile>, current: Month, k: nat)
    requires files != [] && k < |TargetMaterials|
    requires TargetMaterials[k] !in ProcessFiles(map[], files, current)
    ensures forall row :: row in ProcessUploadedFiles(files, current).value ==> row.prices[k].None?
  {
  }
}
