/** String handling the pipeline relies on: Python's `strip`, `upper`,
    `lower`, substring tests, `\b...\b` word matches, `replace(" ", "_")`
    and the code-point order used when pandas sorts string keys. */
module Text {

  /** Characters Python's `str.strip()` removes (the full `str.isspace` set). */
  predicate IsSpace(c: char) {
    || ('\t' <= c <= '\r')
    || ('\U{001C}' <= c <= ' ')
    || c == '\U{0085}' || c == '\U{00A0}' || c == '\U{1680}'
    || ('\U{2000}' <= c <= '\U{200A}')
    || c == '\U{2028}' || c == '\U{2029}' || c == '\U{202F}' || c == '\U{205F}' || c == '\U{3000}'
  }

  function TrimLeft(s: string): (r: string)
    ensures |r| <= |s| && r == s[|s| - |r|..]
    ensures forall i :: 0 <= i < |s| - |r| ==> IsSpace(s[i])
    ensures r == [] || !IsSpace(r[0])
  {
    if |s| > 0 && IsSpace(s[0]) then TrimLeft(s[1..]) else s
  }

  function TrimRight(s: string): (r: string)
    ensures |r| <= |s| && r == s[..|r|]
    ensures forall i :: |r| <= i < |s| ==> IsSpace(s[i])
    ensures r == [] || !IsSpace(r[|r| - 1])
  {
    if |s| > 0 && IsSpace(s[|s| - 1]) then TrimRight(s[..|s| - 1]) else s
  }

  /** `r` is `s[i..j]` with only whitespace outside the cut. */
  predicate StripsTo(s: string, r: string, i: int, j: int) {
    && 0 <= i <= j <= |s| && r == s[i..j]
    && (forall k :: 0 <= k < i ==> IsSpace(s[k]))
    && (forall k :: j <= k < |s| ==> IsSpace(s[k]))
  }

  /** `s.strip()`: the longest infix with no surrounding whitespace. */
  function Trim(s: string): (r: string)
    ensures exists i, j :: StripsTo(s, r, i, j)
    ensures r == [] || (!IsSpace(r[0]) && !IsSpace(r[|r| - 1]))
  {
    var l := TrimLeft(s);
    var r := TrimRight(l);
    CutBothEnds(s, l, r);
    r
  }

  /** A whitespace suffix cut from a whitespace-stripped suffix leaves an
      infix with whitespace on both sides. */
  lemma CutBothEnds(s: string, l: string, r: string)
    requires |l| <= |s| && l == s[|s| - |l|..]
    requires forall k :: 0 <= k < |s| - |l| ==> IsSpace(s[k])
    requires |r| <= |l| && r == l[..|r|]
    requires forall k :: |r| <= k < |l| ==> IsSpace(l[k])
    ensures StripsTo(s, r, |s| - |l|, |s| - |l| + |r|)
    ensures r != [] ==> r[0] == l[0]
  {
    var i := |s| - |l|;
    var j := i + |r|;
    assert r == s[i..j];
    forall k | j <= k < |s|
      ensures IsSpace(s[k])
    {
      assert s[k] == l[k - i];
    }
  }

  lemma {:induction false} TrimLeftNoop(s: string)
    requires s == [] || !IsSpace(s[0])
    ensures TrimLeft(s) == s
  {
  }

  lemma {:induction false} TrimRightNoop(s: string)
    requires s == [] || !IsSpace(s[|s| - 1])
    ensures TrimRight(s) == s
  {
  }

  lemma {:induction false} TrimLeftPadded(s: string, i: nat)
    requires i < |s| && !IsSpace(s[i])
    requires forall k :: 0 <= k < i ==> IsSpace(s[k])
    ensures TrimLeft(s) == s[i..]
  {
    if i > 0 {
      TrimLeftPadded(s[1..], i - 1);
      assert s[1..][i - 1..] == s[i..];
    }
  }

  lemma {:induction false} TrimRightPadded(s: string, j: nat)
    requires 0 < j <= |s| && !IsSpace(s[j - 1])
    requires forall k :: j <= k < |s| ==> IsSpace(s[k])
    ensures TrimRight(s) == s[..j]
    decreases |s|
  {
    if j < |s| {
      TrimRightPadded(s[..|s| - 1], j);
      assert s[..|s| - 1][..j] == s[..j];
    }
  }

  /** Stripping a string whose padding is whitespace around a kernel with
      non-space ends yields that kernel. */
  lemma TrimPadded(s: string, i: nat, j: nat)
    requires i < j <= |s| && !IsSpace(s[i]) && !IsSpace(s[j - 1])
    requires forall k :: 0 <= k < i ==> IsSpace(s[k])
    requires forall k :: j <= k < |s| ==> IsSpace(s[k])
    ensures Trim(s) == s[i..j]
  {
    TrimLeftPadded(s, i);
    TrimRightOfSuffix(s, i, j);
  }

  lemma TrimRightOfSuffix(s: string, i: nat, j: nat)
    requires i < j <= |s| && !IsSpace(s[j - 1])
    requires forall k :: j <= k < |s| ==> IsSpace(s[k])
    ensures TrimRight(s[i..]) == s[i..j]
  {
    var l := s[i..];
    forall k | j - i <= k < |l|
      ensures IsSpace(l[k])
    {
      assert l[k] == s[i + k];
    }
    TrimRightPadded(l, j - i);
    assert l[..j - i] == s[i..j];
  }

  /** Stripping twice strips nothing more. */
  lemma TrimIdempotent(s: string)
    ensures Trim(Trim(s)) == Trim(s)
  {
    var t := Trim(s);
    TrimLeftNoop(t);
    TrimRightNoop(t);
  }

  function UpperChar(c: char): char {
    if 'a' <= c <= 'z' then (c as int - 32) as char else c
  }

  function LowerChar(c: char): char {
    if 'A' <= c <= 'Z' then (c as int + 32) as char else c
  }

  /** `s.upper()` over ASCII letters. */
  function Upper(s: string): (r: string)
    ensures |r| == |s|
    ensures forall i :: 0 <= i < |s| ==> r[i] == UpperChar(s[i])
  {
    if s == [] then [] else [UpperChar(s[0])] + Upper(s[1..])
  }

  /** `s.lower()` over ASCII letters. */
  function Lower(s: string): (r: string)
    ensures |r| == |s|
    ensures forall i :: 0 <= i < |s| ==> r[i] == LowerChar(s[i])
  {
    if s == [] then [] else [LowerChar(s[0])] + Lower(s[1..])
  }

  /** `Upper` character by character. */
  lemma UpperPointwise(s: string, w: string)
    requires |s| == |w| && forall i :: 0 <= i < |s| ==> UpperChar(s[i]) == w[i]
    ensures Upper(s) == w
  {
  }

  /** `Lower` character by character. */
  lemma LowerPointwise(s: string, w: string)
    requires |s| == |w| && forall i :: 0 <= i < |s| ==> LowerChar(s[i]) == w[i]
    ensures Lower(s) == w
  {
  }

  predicate IsUpperCased(s: string) {
    forall i :: 0 <= i < |s| ==> UpperChar(s[i]) == s[i]
  }

  predicate IsLowerCased(s: string) {
    forall i :: 0 <= i < |s| ==> LowerChar(s[i]) == s[i]
  }

  lemma UpperOfUpperCased(s: string)
    requires IsUpperCased(s)
    ensures Upper(s) == s
  {
  }

  lemma LowerOfLowerCased(s: string)
    requires IsLowerCased(s)
    ensures Lower(s) == s
  {
  }

  /** Upper-casing keeps whitespace where it was, so it commutes with stripping. */
  lemma UpperKeepsSpace(s: string)
    ensures forall i :: 0 <= i < |s| ==> (IsSpace(Upper(s)[i]) <==> IsSpace(s[i]))
  {
  }

  /** Names made of lower-case ASCII letters, digits and underscores. */
  predicate IsSnakeCase(s: string) {
    |s| > 0 && forall i :: 0 <= i < |s| ==> 'a' <= s[i] <= 'z' || '0' <= s[i] <= '9' || s[i] == '_'
  }

  /** `s.replace(" ", "_")`. */
  function Underscore(s: string): (r: string)
    ensures |r| == |s|
    ensures forall i :: 0 <= i < |s| ==> r[i] == (if s[i] == ' ' then '_' else s[i])
  {
    if s == [] then [] else [if s[0] == ' ' then '_' else s[0]] + Underscore(s[1..])
  }

  predicate StartsWith(s: string, p: string) {
    |p| <= |s| && s[..|p|] == p
  }

  /** Python's `sub in s`. */
  predicate Contains(s: string, sub: string)
    decreases |s|
  {
    StartsWith(s, sub) || (|s| > 0 && Contains(s[1..], sub))
  }

  /** `sub` occurs in `s` starting at offset `i`. */
  predicate OccursAt(s: string, sub: string, i: nat) {
    i + |sub| <= |s| && s[i..i + |sub|] == sub
  }

  /** `Contains` holds exactly when `sub` occurs at some offset of `s`. */
  lemma {:induction false} ContainsIff(s: string, sub: string)
    ensures Contains(s, sub) <==> exists i: nat :: OccursAt(s, sub, i)
    decreases |s|
  {
    if StartsWith(s, sub) {
      assert OccursAt(s, sub, 0);
    }
    if |s| > 0 {
      ContainsIff(s[1..], sub);
      if Contains(s[1..], sub) {
        var i: nat :| OccursAt(s[1..], sub, i);
        assert s[i + 1..i + 1 + |sub|] == s[1..][i..i + |sub|];
        assert OccursAt(s, sub, i + 1);
      }
      if exists i: nat :: OccursAt(s, sub, i) {
        var i: nat :| OccursAt(s, sub, i);
        if i > 0 {
          assert s[1..][i - 1..i - 1 + |sub|] == s[i..i + |sub|];
          assert OccursAt(s[1..], sub, i - 1);
        }
      }
    } else {
      if exists i: nat :: OccursAt(s, sub, i) {
        var i: nat :| OccursAt(s, sub, i);
        assert i == 0 && |sub| == 0;
        assert StartsWith(s, sub);
      }
    }
  }

  /** Witness form: an occurrence at offset `i` makes `Contains` true. */
  lemma ContainsAt(s: string, sub: string, i: nat)
    requires OccursAt(s, sub, i)
    ensures Contains(s, sub)
  {
    ContainsIff(s, sub);
  }

  /** A single character is contained exactly when it occurs. */
  lemma ContainsChar(s: string, c: char)
    ensures Contains(s, [c]) <==> c in s
  {
    ContainsIff(s, [c]);
    if c in s {
      var i :| 0 <= i < |s| && s[i] == c;
      assert s[i..i + 1] == [c];
      assert OccursAt(s, [c], i);
    }
    if Contains(s, [c]) {
      var i: nat :| OccursAt(s, [c], i);
      assert s[i] == s[i..i + 1][0] == c;
    }
  }

  /** Every occurrence of a longer pattern is an occurrence of its infixes. */
  lemma ContainsInfix(s: string, sub: string, i: nat, j: nat)
    requires i <= j <= |sub|
    requires Contains(s, sub)
    ensures Contains(s, sub[i..j])
  {
    ContainsIff(s, sub);
    var k: nat :| OccursAt(s, sub, k);
    assert k + j <= |s|;
    forall t | 0 <= t < j - i
      ensures s[k + i..k + j][t] == sub[i..j][t]
    {
      assert s[k + i + t] == s[k..k + |sub|][i + t];
    }
    assert s[k + i..k + j] == sub[i..j];
    ContainsAt(s, sub[i..j], k + i);
  }

  /** Word characters of Python's `\b` (ASCII letters, digits and `_`). */
  predicate IsWordChar(c: char) {
    ('a' <= c <= 'z') || ('A' <= c <= 'Z') || ('0' <= c <= '9') || c == '_'
  }

  /** `re.search(r"\bw\b", s)` for a word `w` made of word characters. */
  predicate ContainsWord(s: string, w: string) {
    exists i: nat :: i <= |s| && WordAt(s, w, i)
  }

  /** `w` occurs at offset `i` with no word character on either side. */
  predicate WordAt(s: string, w: string, i: nat) {
    && OccursAt(s, w, i)
    && (i == 0 || !IsWordChar(s[i - 1]))
    && (i + |w| == |s| || !IsWordChar(s[i + |w|]))
  }

  /** A whole-word occurrence is in particular an occurrence. */
  lemma WordIsContained(s: string, w: string)
    requires ContainsWord(s, w)
    ensures Contains(s, w)
  {
    var i: nat :| i <= |s| && WordAt(s, w, i);
    ContainsAt(s, w, i);
  }

  /** Python's `a < b` on strings: code-point lexicographic order. */
  predicate StrLt(a: string, b: string) {
    if a == [] then b != []
    else if b == [] then false
    else if a[0] != b[0] then a[0] < b[0]
    else StrLt(a[1..], b[1..])
  }

  lemma {:induction false} StrLtIrreflexive(a: string)
    ensures !StrLt(a, a)
  {
    if a != [] {
      StrLtIrreflexive(a[1..]);
    }
  }

  lemma {:induction false} StrLtTransitive(a: string, b: string, c: string)
    requires StrLt(a, b) && StrLt(b, c)
    ensures StrLt(a, c)
  {
    if a != [] && b != [] && c != [] && a[0] == b[0] && b[0] == c[0] {
      StrLtTransitive(a[1..], b[1..], c[1..]);
    }
  }

  lemma {:induction false} StrLtTotal(a: string, b: string)
    requires a != b
    ensures StrLt(a, b) || StrLt(b, a)
  {
    if a != [] && b != [] && a[0] == b[0] {
      assert a == [a[0]] + a[1..] && b == [b[0]] + b[1..];
      StrLtTotal(a[1..], b[1..]);
    }
  }

  lemma {:induction false} StrLtAsymmetric(a: string, b: string)
    requires StrLt(a, b)
    ensures !StrLt(b, a)
  {
    if a != [] && b != [] && a[0] == b[0] {
      StrLtAsymmetric(a[1..], b[1..]);
    }
  }
}
