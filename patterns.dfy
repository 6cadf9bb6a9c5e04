/**
 * Hand-written recognisers for the few fixed regular expressions of the
 * engine. Each `...At(s, i)` says whether the pattern matches starting at
 * position `i` (with the regular expression's greedy choices), and each
 * search returns the match at the leftmost position, as `re.search` does.
 * Digits are ASCII digits; `\s` is Python's whitespace.
 */
module Patterns {
  import opened Wrappers
  import opened Text
  import opened Cells

  /** Length of the run of ASCII digits starting at `i` (`\d+` taken greedily). */
  function DigitRun(s: string, i: nat): (n: nat)
    requires i <= |s|
    ensures i + n <= |s|
    ensures forall j :: i <= j < i + n ==> IsDigit(s[j])
    ensures i + n < |s| ==> !IsDigit(s[i + n])
    decreases |s| - i
  {
    if i == |s| || !IsDigit(s[i]) then 0 else 1 + DigitRun(s, i + 1)
  }

  /** Length of the run of whitespace starting at `i` (`\s*`). */
  function SpaceRun(s: string, i: nat): (n: nat)
    requires i <= |s|
    ensures i + n <= |s|
    ensures i + n < |s| ==> !IsPySpace(s[i + n])
    decreases |s| - i
  {
    if i == |s| || !IsPySpace(s[i]) then 0 else 1 + SpaceRun(s, i + 1)
  }

  /** A digit run of `d` followed by text that does not start with a digit is exactly `d`. */
  lemma {:induction false} DigitRunOf(pre: string, d: string, rest: string)
    requires AllDigits(d) && (rest == [] || !IsDigit(rest[0]))
    ensures DigitRun(pre + d + rest, |pre|) == |d|
    decreases |d|
  {
    if d != [] {
      assert pre + d + rest == (pre + [d[0]]) + d[1..] + rest;
      DigitRunOf(pre + [d[0]], d[1..], rest);
    } else {
      assert pre + d + rest == pre + rest;
    }
  }

  /** `k` digits start at `i`. */
  predicate FixedDigits(s: string, i: nat, k: nat) {
    i + k <= |s| && AllDigits(s[i..i + k])
  }

  /** The value of the digits `s[i..i+n]`. */
  function Digits(s: string, i: nat, n: nat): nat
    requires FixedDigits(s, i, n)
  {
    DigitsValue(s[i..i + n])
  }

  /** `\s*` then a separator accepted by `sep` then `\s*`; the position after it. */
  function SepAt(s: string, i: nat, sep: char -> bool): (r: Option<nat>)
    requires i <= |s|
    ensures r.Some? ==> i < r.value <= |s|
  {
    var j := i + SpaceRun(s, i);
    if j < |s| && sep(s[j]) then Some(j + 1 + SpaceRun(s, j + 1)) else None
  }

  /** `[xх×*]` under `re.IGNORECASE`: Latin x, Cyrillic х, either case, the sign × and `*`. */
  predicate IsSizeSep(c: char) {
    c == 'x' || c == 'X' || c == '\U{0445}' || c == '\U{0425}' || c == '\U{00D7}' || c == '*'
  }

  /** `[*хx×]` without IGNORECASE. */
  predicate IsDimSep(c: char) {
    c == '*' || c == '\U{0445}' || c == 'x' || c == '\U{00D7}'
  }

  // ---------------------------------------------------------------------------
  // SIZE_RE = (\d+)\s*[xх×*]\s*(\d+), IGNORECASE

  function SizeAt(s: string, i: nat): (r: Option<(int, int)>)
    ensures r.Some? ==> r.value.0 >= 0 && r.value.1 >= 0
  {
    if i >= |s| then None
    else
      var a := DigitRun(s, i);
      if a == 0 then None
      else match SepAt(s, i + a, IsSizeSep)
        case None => None
        case Some(k) =>
          var b := DigitRun(s, k);
          if b == 0 then None else Some((Digits(s, i, a), Digits(s, k, b)))
  }

  /** `SIZE_RE.search(s)`: the leftmost `L x W` pair. */
  function SizeSearch(s: string): (r: Option<(int, int)>)
    ensures r.Some? ==> exists i :: 0 <= i < |s| && SizeAt(s, i) == r
                                 && (forall j :: 0 <= j < i ==> !Matches(SizePat, s, j))
    ensures r.None? <==> forall i :: 0 <= i < |s| ==> !Matches(SizePat, s, i)
  {
    match FirstMatch(SizePat, s, 0)
    case Some(i) => SizeAt(s, i)
    case None => None
  }

  predicate NotSpace(c: char) { c != ' ' }

  /** `_extract_size_from_text`: spaces are removed before the search, so a text without
      spaces is searched as it is, and a size found is never negative. */
  function ExtractSizeFromText(text: string): (r: Option<(int, int)>)
    ensures r.Some? ==> r.value.0 >= 0 && r.value.1 >= 0
    ensures (forall i :: 0 <= i < |text| ==> text[i] != ' ') ==> r == SizeSearch(text)
  {
    NoSpaceUnfiltered(text);
    SizeSearch(Filter(text, NotSpace))
  }

  /** Removing the spaces of a text that has none changes nothing. */
  lemma NoSpaceUnfiltered(text: string)
    ensures (forall i :: 0 <= i < |text| ==> text[i] != ' ') ==> Filter(text, NotSpace) == text
  {
    if forall i :: 0 <= i < |text| ==> NotSpace(text[i]) {
      FilterKeepsAll(text, NotSpace);
    }
  }

  /** A space anywhere in the text does not change the size read from it. */
  lemma SizeIgnoresSpace(a: string, b: string)
    ensures ExtractSizeFromText(a + " " + b) == ExtractSizeFromText(a + b)
  {
    SpaceFiltered(a, b);
  }

  lemma SpaceFiltered(a: string, b: string)
    ensures Filter(a + " " + b, NotSpace) == Filter(a + b, NotSpace)
  {
    var sp := " ";
    FilterAppend(a + sp, b, NotSpace);
    FilterAppend(a, sp, NotSpace);
    assert Filter(sp, NotSpace) == [] by {
      assert sp[1..] == [];
    }
    FilterAppend(a, b, NotSpace);
  }

  /** `L x W` written with spaces around the `x` reads as `(L, W)`. */
  lemma SpacedSizeRead(l: nat, w: nat)
    ensures ExtractSizeFromText(NatToString(l) + " x " + NatToString(w)) == Some((l, w))
  {
    var dl, dw := NatToString(l), NatToString(w);
    var tight := dl + "x" + dw;
    SpacedFilter(dl, dw);
    NoSpaceUnfiltered(tight);
    SizeOfWritten(l, w);
  }

  /** Removing the spaces of `L x W` leaves `LxW`. */
  lemma SpacedFilter(dl: string, dw: string)
    requires IsDigitString(dl) && IsDigitString(dw)
    ensures Filter(dl + " x " + dw, NotSpace) == dl + "x" + dw
    ensures forall i :: 0 <= i < |dl + "x" + dw| ==> (dl + "x" + dw)[i] != ' '
  {
    var x := "x " + dw;
    assert dl + " x " + dw == dl + " " + x;
    SpaceFiltered(dl, x);
    assert dl + x == (dl + "x") + " " + dw;
    SpaceFiltered(dl + "x", dw);
    var tight := dl + "x" + dw;
    forall i | 0 <= i < |tight| ensures NotSpace(tight[i]) {
      if i < |dl| {
        assert tight[i] == dl[i];
      } else if i > |dl| {
        assert tight[i] == dw[i - |dl| - 1];
      }
    }
    FilterKeepsAll(tight, NotSpace);
  }

  /** The pair `L x W` written out is recognised as `(L, W)`. */
  lemma SizeOfWritten(l: nat, w: nat)
    ensures SizeSearch(NatToString(l) + "x" + NatToString(w)) == Some((l, w))
  {
    var s := NatToString(l) + "x" + NatToString(w);
    SizeAtWritten(NatToString(l), NatToString(w));
    NatToStringRoundTrip(l);
    NatToStringRoundTrip(w);
    assert Matches(SizePat, s, 0);
  }

  lemma SizeAtWritten(dl: string, dw: string)
    requires IsDigitString(dl) && IsDigitString(dw)
    ensures SizeAt(dl + "x" + dw, 0) == Some((DigitsValue(dl), DigitsValue(dw)))
  {
    var s := dl + "x" + dw;
    DigitRunOf([], dl, "x" + dw);
    assert [] + dl + ("x" + dw) == s;
    assert DigitRun(s, 0) == |dl|;
    var k := |dl| + 1;
    assert s[|dl|] == 'x' && s[k] == dw[0];
    assert SpaceRun(s, |dl|) == 0 && SpaceRun(s, k) == 0 by { assert IsDigit(dw[0]); }
    assert SepAt(s, |dl|, IsSizeSep) == Some(k);
    DigitRunOf(dl + "x", dw, []);
    assert dl + "x" + dw + [] == s;
    assert DigitRun(s, k) == |dw|;
    assert s[0..|dl|] == dl && s[k..k + |dw|] == dw;
  }

  // ---------------------------------------------------------------------------
  // ГАБАРИТ_RE = (\d{3,4})\s*[xх×*]\s*(\d+)\s*[xх×*]\s*(\d+), IGNORECASE

  /** A separator then a digit run: its value and the position after it. */
  function SepDigits(s: string, j: nat): (r: Option<(int, nat)>)
    requires j <= |s|
    ensures r.Some? ==> j < r.value.1 <= |s|
  {
    match SepAt(s, j, IsSizeSep)
    case None => None
    case Some(k) =>
      var b := DigitRun(s, k);
      if b == 0 then None else Some((Digits(s, k, b), k + b))
  }

  /** The part after the first group: separator, digits, separator, digits. */
  function GabaritTail(s: string, j: nat): (r: Option<(int, int)>)
    requires j <= |s|
  {
    match SepDigits(s, j)
    case None => None
    case Some((b, k)) =>
      match SepDigits(s, k)
      case None => None
      case Some((c, _)) => Some((b, c))
  }

  /** A match at `i` whose first group has exactly `k` digits. */
  function GabaritFrom(s: string, i: nat, k: nat): (r: Option<(int, int, int)>)
  {
    if FixedDigits(s, i, k) then
      match GabaritTail(s, i + k)
      case None => None
      case Some((d, h)) => Some((Digits(s, i, k), d, h))
    else None
  }

  /** A match at `i`, the first group taking four digits before it tries three. */
  function GabaritAt(s: string, i: nat): (r: Option<(int, int, int)>)
  {
    if GabaritFrom(s, i, 4).Some? then GabaritFrom(s, i, 4) else GabaritFrom(s, i, 3)
  }

  /** `ГАБАРИТ_RE.search(s)`. */
  function GabaritSearch(s: string): (r: Option<(int, int, int)>)
    ensures r.Some? ==> exists i :: 0 <= i < |s| && GabaritAt(s, i) == r
                                 && (forall j :: 0 <= j < i ==> !Matches(GabaritPat, s, j))
    ensures r.None? <==> forall i :: 0 <= i < |s| ==> !Matches(GabaritPat, s, i)
  {
    match FirstMatch(GabaritPat, s, 0)
    case Some(i) => GabaritAt(s, i)
    case None => None
  }

  /** A size `W x D x H` written out, with a width of three or four digits, is recognised. */
  lemma GabaritOfWritten(w: nat, d: nat, h: nat)
    requires 100 <= w <= 9999
    ensures GabaritSearch(NatToString(w) + "x" + NatToString(d) + "x" + NatToString(h)) == Some((w, d, h))
  {
    var a, b, c := NatToString(w), NatToString(d), NatToString(h);
    var s := a + "x" + b + "x" + c;
    var j := |a|;
    var m := j + 1 + |b|;
    NatToStringLength(w);
    NatToStringRoundTrip(w);
    NatToStringRoundTrip(d);
    NatToStringRoundTrip(h);
    WrittenParts(a, b, c);
    GabaritAtSplit(s, j, m);
    assert DigitsValue(s[..j]) == w;
    assert DigitsValue(s[j + 1..m]) == d;
    assert DigitsValue(s[m + 1..]) == h;
  }

  /** The pieces of `a x b x c`. */
  lemma WrittenParts(a: string, b: string, c: string)
    ensures var s := a + "x" + b + "x" + c;
      var m := |a| + 1 + |b|;
      s[..|a|] == a && s[|a|] == 'x' && s[|a| + 1..m] == b && s[m] == 'x' && s[m + 1..] == c
  {
    var s := a + "x" + b + "x" + c;
    var m := |a| + 1 + |b|;
    assert s[..|a|] == a;
    assert s[|a| + 1..m] == b by {
      forall t | 0 <= t < |b| ensures s[|a| + 1..m][t] == b[t] { }
    }
    assert s[m + 1..] == c by {
      forall t | 0 <= t < |c| ensures s[m + 1..][t] == c[t] { }
    }
  }

  /** `NatToString(w)` has three digits below 1000 and four from 1000 to 9999. */
  lemma NatToStringLength(w: nat)
    requires 100 <= w <= 9999
    ensures |NatToString(w)| == if w < 1000 then 3 else 4
  {
    assert |NatToString(w)| == |NatToString(w / 10)| + 1;
    assert |NatToString(w / 10)| == |NatToString(w / 100)| + 1;
    if w >= 1000 {
      assert |NatToString(w / 100)| == |NatToString(w / 1000)| + 1;
    }
  }

  /** Three or four digits, `x`, digits, `x`, digits: the whole text is a gabarit match at 0. */
  lemma GabaritAtSplit(s: string, j: nat, m: nat)
    requires 3 <= j <= 4 && j + 1 < m && m + 1 < |s| && s[j] == 'x' && s[m] == 'x'
    requires AllDigits(s[..j]) && AllDigits(s[j + 1..m]) && AllDigits(s[m + 1..])
    ensures GabaritSearch(s) == Some((DigitsValue(s[..j]), DigitsValue(s[j + 1..m]), DigitsValue(s[m + 1..])))
  {
    var r := (DigitsValue(s[..j]), DigitsValue(s[j + 1..m]), DigitsValue(s[m + 1..]));
    GabaritFromSplit(s, j, m);
    if j == 4 {
      FirstGroupOfFour(s, j, r);
    } else {
      assert !FixedDigits(s, 0, 4) by { assert s[0..4][3] == 'x'; }
      FirstGroupOfThree(s, j, r);
    }
  }

  lemma GabaritFromSplit(s: string, j: nat, m: nat)
    requires 3 <= j <= 4 && j + 1 < m && m + 1 < |s| && s[j] == 'x' && s[m] == 'x'
    requires AllDigits(s[..j]) && AllDigits(s[j + 1..m]) && AllDigits(s[m + 1..])
    ensures GabaritFrom(s, 0, j) == Some((DigitsValue(s[..j]), DigitsValue(s[j + 1..m]), DigitsValue(s[m + 1..])))
  {
    SepDigitsWritten(s, j, m);
    SepDigitsWritten(s, m, |s|);
    assert s[m + 1..|s|] == s[m + 1..];
    assert GabaritTail(s, j) == Some((DigitsValue(s[j + 1..m]), DigitsValue(s[m + 1..])));
    assert s[0..j] == s[..j];
  }

  /** Four leading digits are taken when they start a match. */
  lemma FirstGroupOfFour(s: string, j: nat, r: (int, int, int))
    requires j == 4 && GabaritFrom(s, 0, j) == Some(r)
    ensures GabaritSearch(s) == Some(r)
  {
    SearchAtZero(s);
  }

  /** Without four leading digits the first group has three. */
  lemma FirstGroupOfThree(s: string, j: nat, r: (int, int, int))
    requires j == 3 && !FixedDigits(s, 0, 4) && GabaritFrom(s, 0, j) == Some(r)
    ensures GabaritSearch(s) == Some(r)
  {
    SearchAtZero(s);
  }

  /** A gabarit match at 0 is what the search finds. */
  lemma SearchAtZero(s: string)
    requires GabaritAt(s, 0).Some?
    ensures GabaritSearch(s) == GabaritAt(s, 0)
  {
    assert FixedDigits(s, 0, 4) || FixedDigits(s, 0, 3);
    assert Matches(GabaritPat, s, 0);
  }

  /** `x` at `j` followed by digits up to a non-digit at `e`. */
  lemma SepDigitsWritten(s: string, j: nat, e: nat)
    requires j + 1 < e <= |s| && s[j] == 'x' && AllDigits(s[j + 1..e]) && (e == |s| || !IsDigit(s[e]))
    ensures SepDigits(s, j) == Some((DigitsValue(s[j + 1..e]), e))
  {
    forall t | j + 1 <= t < e
      ensures IsDigit(s[t])
    {
      assert s[t] == s[j + 1..e][t - j - 1];
    }
    assert SpaceRun(s, j) == 0;
    assert IsDigit(s[j + 1]) && SpaceRun(s, j + 1) == 0;
    assert SepAt(s, j, IsSizeSep) == Some(j + 1);
    DigitRunTo(s, j + 1, e);
  }

  /** The digit run from `i` ends at the first non-digit `e`. */
  lemma {:induction false} DigitRunTo(s: string, i: nat, e: nat)
    requires i <= e <= |s| && (forall t :: i <= t < e ==> IsDigit(s[t])) && (e == |s| || !IsDigit(s[e]))
    ensures DigitRun(s, i) == e - i
    decreases e - i
  {
    if i < e {
      DigitRunTo(s, i + 1, e);
    }
  }

  // ---------------------------------------------------------------------------
  // Cell A43: (\d{3,4})\s*[*хx×]\s*(\d{3,4})\s*[*хx×]\s*(\d{3,4})

  /** The last group: four digits if there are four, else three. */
  function Dim3(s: string, j: nat): (r: Option<int>)
  {
    if FixedDigits(s, j, 4) then Some(Digits(s, j, 4))
    else if FixedDigits(s, j, 3) then Some(Digits(s, j, 3))
    else None
  }

  /** Second group and what follows it, four digits tried before three. */
  function DimTail(s: string, j: nat): (r: Option<(int, int)>)
    requires j <= |s|
  {
    match SepAt(s, j, IsDimSep)
    case None => None
    case Some(k) =>
      if FixedDigits(s, k, 4) && SepAt(s, k + 4, IsDimSep).Some? && Dim3(s, SepAt(s, k + 4, IsDimSep).value).Some? then
        Some((Digits(s, k, 4), Dim3(s, SepAt(s, k + 4, IsDimSep).value).value))
      else if FixedDigits(s, k, 3) && SepAt(s, k + 3, IsDimSep).Some? && Dim3(s, SepAt(s, k + 3, IsDimSep).value).Some? then
        Some((Digits(s, k, 3), Dim3(s, SepAt(s, k + 3, IsDimSep).value).value))
      else None
  }

  function DimsAt(s: string, i: nat): (r: Option<(int, int, int)>)
  {
    if FixedDigits(s, i, 4) && DimTail(s, i + 4).Some? then
      var t := DimTail(s, i + 4).value;
      Some((Digits(s, i, 4), t.0, t.1))
    else if FixedDigits(s, i, 3) && DimTail(s, i + 3).Some? then
      var t := DimTail(s, i + 3).value;
      Some((Digits(s, i, 3), t.0, t.1))
    else None
  }

  /** The search `_extract_dimensions_from_cell` runs on cell A43. */
  function DimsSearch(s: string): (r: Option<(int, int, int)>)
    ensures r.Some? ==> exists i :: 0 <= i < |s| && DimsAt(s, i) == r
                                 && (forall j :: 0 <= j < i ==> !Matches(DimsPat, s, j))
    ensures r.None? <==> forall i :: 0 <= i < |s| ==> !Matches(DimsPat, s, i)
  {
    match FirstMatch(DimsPat, s, 0)
    case Some(i) => DimsAt(s, i)
    case None => None
  }

  // ---------------------------------------------------------------------------
  // Thickness in a material name: (\d+)\s*(?:мм|mm)\b

  function ThicknessAt(s: string, i: nat): (r: Option<int>)
    ensures r.Some? ==> r.value >= 0
  {
    if i >= |s| then None
    else
      var a := DigitRun(s, i);
      var j := i + a + SpaceRun(s, i + a);
      if a > 0 && j + 2 <= |s| && (s[j..j + 2] == "мм" || s[j..j + 2] == "mm")
         && (j + 2 == |s| || !IsWordChar(s[j + 2]))
      then Some(Digits(s, i, a))
      else None
  }

  function ThicknessSearch(s: string): (r: Option<int>)
    ensures r.Some? ==> exists i :: 0 <= i < |s| && ThicknessAt(s, i) == r
                                 && (forall j :: 0 <= j < i ==> !Matches(ThicknessPat, s, j))
    ensures r.None? <==> forall i :: 0 <= i < |s| ==> !Matches(ThicknessPat, s, i)
  {
    match FirstMatch(ThicknessPat, s, 0)
    case Some(i) => ThicknessAt(s, i)
    case None => None
  }

  // ---------------------------------------------------------------------------
  // Zero-cost operations: \b0[,.]0{2,}\b

  /** Length of the run of '0' characters starting at `i`. */
  function ZeroRun(s: string, i: nat): (n: nat)
    requires i <= |s|
    ensures i + n <= |s|
    ensures i + n < |s| ==> s[i + n] != '0'
    decreases |s| - i
  {
    if i == |s| || s[i] != '0' then 0 else 1 + ZeroRun(s, i + 1)
  }

  predicate ZeroOpsAt(s: string, i: nat) {
    i + 1 < |s| && s[i] == '0' && (s[i + 1] == ',' || s[i + 1] == '.')
    && (i == 0 || !IsWordChar(s[i - 1]))
    && var z := ZeroRun(s, i + 2);
       z >= 2 && (i + 2 + z == |s| || !IsWordChar(s[i + 2 + z]))
  }

  /** `re.findall(r"\b0[,.]0{2,}\b", s)` is non-empty. */
  predicate HasZeroOps(s: string) {
    FirstMatch(ZeroOpsPat, s, 0).Some?
  }

  /** The search finds a zero-cost operation exactly when one occurs somewhere. */
  lemma HasZeroOpsIff(s: string)
    ensures HasZeroOps(s) <==> exists i :: 0 <= i < |s| && ZeroOpsAt(s, i)
  {
    if exists i :: 0 <= i < |s| && ZeroOpsAt(s, i) {
      var i :| 0 <= i < |s| && ZeroOpsAt(s, i);
      assert Matches(ZeroOpsPat, s, i);
    }
  }

  /** A free-standing "0,00" marks a zero-cost operation. */
  lemma ZeroOpsWritten(pre: string, post: string)
    requires pre == [] || !IsWordChar(pre[|pre| - 1])
    requires post == [] || (!IsWordChar(post[0]) && post[0] != '0')
    ensures HasZeroOps(pre + "0,00" + post)
  {
    var s := pre + "0,00" + post;
    var i := |pre|;
    assert s[i..i + 4] == "0,00";
    assert ZeroRun(s, i + 2) == 2 by {
      assert s[i + 2] == '0' && s[i + 3] == '0';
      assert ZeroRun(s, i + 4) == 0;
    }
    assert ZeroOpsAt(s, i);
    HasZeroOpsIff(s);
  }

  // ---------------------------------------------------------------------------
  // Weight annotation: Вес\s*\(кг\)\s*=\s*(\d+[.,]?\d*), IGNORECASE

  /** `t` occurs at `i` up to letter case. */
  predicate LiteralAt(s: string, i: nat, t: string) {
    i + |t| <= |s| && Lower(s[i..i + |t|]) == t
  }

  /** The number of the annotation: digits, an optional `.` or `,`, more digits. */
  function WeightNumberAt(s: string, j: nat): (r: Option<real>)
    requires j <= |s|
    ensures r.Some? ==> r.value >= 0.0
  {
    var a := DigitRun(s, j);
    if a == 0 then None
    else
      var k := j + a;
      var hasSep := k < |s| && (s[k] == '.' || s[k] == ',');
      var b := if hasSep then DigitRun(s, k + 1) else 0;
      var frac := if hasSep then s[k + 1..k + 1 + b] else [];
      Some(Digits(s, j, a) as real + FracValue(frac))
  }

  function WeightAt(s: string, i: nat): (r: Option<real>)
    ensures r.Some? ==> r.value >= 0.0
  {
    if !LiteralAt(s, i, "вес") then None
    else
      var j := i + 3 + SpaceRun(s, i + 3);
      if !LiteralAt(s, j, "(кг)") then None
      else
        var k := j + 4 + SpaceRun(s, j + 4);
        if k < |s| && s[k] == '=' then WeightNumberAt(s, k + 1 + SpaceRun(s, k + 1)) else None
  }

  /** The weight annotation searched for in one cell's text. */
  function WeightSearch(s: string): (r: Option<real>)
    ensures r.Some? ==> exists i :: 0 <= i < |s| && WeightAt(s, i) == r
                                 && (forall j :: 0 <= j < i ==> !Matches(WeightPat, s, j))
    ensures r.None? <==> forall i :: 0 <= i < |s| ==> !Matches(WeightPat, s, i)
    ensures r.Some? ==> r.value >= 0.0
  {
    match FirstMatch(WeightPat, s, 0)
    case Some(i) => WeightAt(s, i)
    case None => None
  }

  // ---------------------------------------------------------------------------
  // Leftmost search

  /** The patterns searched for. */
  datatype Pat = SizePat | GabaritPat | DimsPat | ThicknessPat | ZeroOpsPat | WeightPat

  /** The pattern matches at position `i`. */
  predicate Matches(pat: Pat, s: string, i: nat) {
    match pat
    case SizePat => SizeAt(s, i).Some?
    case GabaritPat => GabaritAt(s, i).Some?
    case DimsPat => DimsAt(s, i).Some?
    case ThicknessPat => ThicknessAt(s, i).Some?
    case ZeroOpsPat => ZeroOpsAt(s, i)
    case WeightPat => WeightAt(s, i).Some?
  }

  /** The first position at or after `i` where the pattern matches, as `re.search` scans. */
  function FirstMatch(pat: Pat, s: string, i: nat): (r: Option<nat>)
    requires i <= |s|
    ensures r.Some? ==> i <= r.value < |s| && Matches(pat, s, r.value)
    ensures forall j :: i <= j < |s| && (r.None? || j < r.value) ==> !Matches(pat, s, j)
    decreases |s| - i
  {
    if i == |s| then None
    else if Matches(pat, s, i) then Some(i)
    else FirstMatch(pat, s, i + 1)
  }
}
