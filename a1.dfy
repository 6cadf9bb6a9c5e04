/**
 * The browser side's cell-reference helpers (`app-utils.js`): column letters, A1
 * references with an optional sheet, label normalisation, formula text, the
 * references a formula mentions and the cells of a `SUM(...)`.
 *
 * JavaScript values that may be absent (`null`, `undefined`, a non-string) are
 * `Option`s or the empty string, as the code treats them alike through `!x`.
 * The regular expressions of the code are written out as recognisers on the
 * characters they match.
 */
module A1 {
  import opened Wrappers
  import opened Numeric
  import opened Text

  // ---------------------------------------------------------------------------
  // Column letters

  /** `COLUMN_LETTERS`: "A" to "Z". */
  const ColumnCount := 26

  /** `colIndexToLetter`: the letter of a column index from 0 to 25, else `''`. */
  function ColIndexToLetter(index: int): (s: string)
    ensures 0 <= index < ColumnCount ==> |s| == 1 && 'A' <= s[0] <= 'Z'
    ensures !(0 <= index < ColumnCount) ==> s == ""
  {
    if 0 <= index < ColumnCount then [(65 + index) as char] else ""
  }

  /** `letterToColIndex`: the index of the upper-cased text among the column letters,
      -1 when it is none of them. */
  function LetterToColIndex(letter: string): (i: int)
    ensures -1 <= i < ColumnCount
    ensures i >= 0 ==> ColIndexToLetter(i) == Upper(letter)
    ensures i == -1 ==> forall k :: 0 <= k < ColumnCount ==> ColIndexToLetter(k) != Upper(letter)
  {
    var u := Upper(letter);
    if |u| == 1 && 'A' <= u[0] <= 'Z' then u[0] as int - 65 else -1
  }

  /** A column index survives the trip through its letter. */
  lemma ColumnLetterRoundTrip(i: int)
    requires 0 <= i < ColumnCount
    ensures LetterToColIndex(ColIndexToLetter(i)) == i
  {
    var s := ColIndexToLetter(i);
    assert Upper(s)[0] == UpperChar(s[0]) == s[0];
  }

  /** A letter of either case finds its column, whose letter is its upper case. */
  lemma LetterColumnRoundTrip(c: char)
    requires 'a' <= c <= 'z' || 'A' <= c <= 'Z'
    ensures ColIndexToLetter(LetterToColIndex([c])) == [UpperChar(c)]
  {
    assert Upper([c]) == [UpperChar(c)];
  }

  // ---------------------------------------------------------------------------
  // Normalisation

  /** `normalizeCellRef`: trimmed and upper-cased. */
  function NormalizeCellRef(value: string): (r: string)
    ensures r == Upper(TrimJs(value))
    ensures |r| <= |value|
    ensures r != [] ==> !IsJsSpace(r[0]) && !IsJsSpace(r[|r| - 1])
    ensures forall i :: 0 <= i < |r| ==> UpperChar(r[i]) == r[i]
  {
    var t := TrimJs(value);
    if t != [] then
      UpperCharSpace(t[0]);
      UpperCharSpace(t[|t| - 1]);
      Upper(t)
    else Upper(t)
  }

  /** Upper-casing keeps whitespace and non-whitespace apart. */
  lemma UpperCharSpace(c: char)
    ensures IsJsSpace(UpperChar(c)) <==> IsJsSpace(c)
  {
  }

  /** JavaScript whitespace around a trimmed reference is dropped, and the reference is
      kept, upper-cased. */
  lemma NormalizeCellRefPadded(pre: string, v: string, post: string)
    requires forall j :: 0 <= j < |pre| ==> IsJsSpace(pre[j])
    requires forall j :: 0 <= j < |post| ==> IsJsSpace(post[j])
    requires TrimJs(v) == v
    ensures NormalizeCellRef(pre + v + post) == Upper(v)
  {
    TrimPadded(pre, v, post);
  }

  lemma TrimPadded(pre: string, v: string, post: string)
    requires forall j :: 0 <= j < |pre| ==> IsJsSpace(pre[j])
    requires forall j :: 0 <= j < |post| ==> IsJsSpace(post[j])
    requires TrimJs(v) == v
    ensures TrimJs(pre + v + post) == v
  {
    var s := pre + v + post;
    if v == [] {
      LeadCountExact(s, IsJsSpace, |s|);
      assert s[|s|..] == [];
    } else {
      assert s[|pre|] == v[0];
      LeadCountExact(s, IsJsSpace, |pre|);
      var rest := s[|pre|..];
      assert rest == v + post;
      TrailCountExact(rest, IsJsSpace, |post|);
      assert rest[..|rest| - |post|] == v;
    }
  }

  /** The last `n` characters are the trailing run that satisfies `p`. */
  lemma {:induction false} TrailCountExact(s: string, p: char -> bool, n: nat)
    requires n <= |s| && (forall j :: |s| - n <= j < |s| ==> p(s[j])) && (n < |s| ==> !p(s[|s| - 1 - n]))
    ensures TrailCount(s, p) == n
    decreases n
  {
    if n > 0 {
      var init := s[..|s| - 1];
      assert forall j :: |init| - (n - 1) <= j < |init| ==> init[j] == s[j];
      assert n - 1 < |init| ==> init[|init| - 1 - (n - 1)] == s[|s| - 1 - n];
      TrailCountExact(init, p, n - 1);
    }
  }

  /** Normalising a normalised reference changes nothing. */
  lemma NormalizeCellRefIdempotent(value: string)
    ensures NormalizeCellRef(NormalizeCellRef(value)) == NormalizeCellRef(value)
  {
    var t := TrimJs(value);
    var u := Upper(t);
    if u != [] {
      UpperCharSpace(t[0]);
      UpperCharSpace(t[|t| - 1]);
    }
    assert TrimJs(u) == u;
    forall i | 0 <= i < |u| ensures UpperChar(u[i]) == u[i] {
    }
  }

  /** The characters `normalizeLabelText` keeps: `[0-9a-zа-я]`. */
  predicate IsLabelChar(c: char) {
    '0' <= c <= '9' || 'a' <= c <= 'z' || '\U{0430}' <= c <= '\U{044F}'
  }

  /** `normalizeLabelText`: lower-cased, `ё` folded to `е`, and every character outside
      `[0-9a-zа-я]` removed (after `=` and whitespace, which that class excludes). */
  function NormalizeLabelText(value: string): (r: string)
    ensures forall i :: 0 <= i < |r| ==> IsLabelChar(r[i])
  {
    var folded := ReplaceChar(Lower(value), '\U{0451}', '\U{0435}');
    Filter(Filter(Filter(folded, c => c != '='), c => !IsJsSpace(c)), IsLabelChar)
  }

  /** Filtering by a stricter test after a weaker one is filtering by the stricter one. */
  lemma {:induction false} FilterFilter(s: string, weak: char -> bool, strict: char -> bool)
    requires forall c :: strict(c) ==> weak(c)
    ensures Filter(Filter(s, weak), strict) == Filter(s, strict)
  {
    if s != [] {
      FilterFilter(s[1..], weak, strict);
      var w := Filter(s, weak);
      if weak(s[0]) {
        assert w == [s[0]] + Filter(s[1..], weak);
        assert w[0] == s[0] && w[1..] == Filter(s[1..], weak);
      } else {
        assert w == Filter(s[1..], weak);
      }
    }
  }

  /** The removal of `=` and of whitespace is subsumed by the final character class. */
  lemma LabelTextIsClassFilter(value: string)
    ensures NormalizeLabelText(value) == Filter(ReplaceChar(Lower(value), '\U{0451}', '\U{0435}'), IsLabelChar)
  {
    var folded := ReplaceChar(Lower(value), '\U{0451}', '\U{0435}');
    var noEq := Filter(folded, c => c != '=');
    FilterFilter(noEq, c => !IsJsSpace(c), IsLabelChar);
    FilterFilter(folded, c => c != '=', IsLabelChar);
  }

  /** Normalising a normalised label changes nothing. */
  lemma NormalizeLabelTextIdempotent(value: string)
    ensures NormalizeLabelText(NormalizeLabelText(value)) == NormalizeLabelText(value)
  {
    var r := NormalizeLabelText(value);
    assert Lower(r) == r;
    assert ReplaceChar(r, '\U{0451}', '\U{0435}') == r;
    LabelTextIsClassFilter(r);
    FilterKeepsAll(r, IsLabelChar);
  }

  // ---------------------------------------------------------------------------
  // Cell references

  /** Not a `$`, the sign that anchors a row or a column. */
  predicate NotDollar(c: char) { c != '$' }

  predicate IsUpperLetter(c: char) { 'A' <= c <= 'Z' }

  /** The first `n` characters are the leading run that satisfies `p`. */
  lemma LeadCountExact(s: string, p: char -> bool, n: nat)
    requires n <= |s| && (forall j :: 0 <= j < n ==> p(s[j])) && (n < |s| ==> !p(s[n]))
    ensures LeadCount(s, p) == n
  {
  }

  /** Skips one leading `$`, as the optional `\$?` of a reference does. */
  function SkipDollar(s: string): (r: string)
    ensures |r| <= |s|
  {
    if |s| > 0 && s[0] == '$' then s[1..] else s
  }

  /** The whole of `s` matches `\$?[A-Za-z]{1,3}\$?\d+`. Letters, `$` and digits are
      apart, so the letters are the whole leading run and the rest must be digits. */
  predicate IsCellPattern(s: string) {
    var t := SkipDollar(s);
    var n := LeadCount(t, IsAsciiLetter);
    1 <= n <= 3 && IsDigitString(SkipDollar(t[n..]))
  }

  /** A reference as the helpers return it: one to three upper-case letters, then digits. */
  predicate IsCanonicalCell(s: string) {
    var n := LeadCount(s, IsUpperLetter);
    1 <= n <= 3 && IsDigitString(s[n..])
  }

  /** `ref.replace(/\$/g, '').toUpperCase()`. */
  function CleanCell(s: string): string {
    Upper(Filter(s, NotDollar))
  }

  /** The letters and the digits of a reference pattern, without its `$` signs. */
  lemma PatternParts(s: string) returns (letters: string, digits: string)
    requires IsCellPattern(s)
    ensures 1 <= |letters| <= 3 && (forall j :: 0 <= j < |letters| ==> IsAsciiLetter(letters[j]))
    ensures IsDigitString(digits)
    ensures Filter(s, NotDollar) == letters + digits
  {
    var t := SkipDollar(s);
    var n := LeadCount(t, IsAsciiLetter);
    letters, digits := t[..n], SkipDollar(t[n..]);
    forall j | 0 <= j < n ensures IsAsciiLetter(letters[j]) {
      assert letters[j] == t[j];
    }
    FilterKeepsAll(letters, NotDollar);
    FilterKeepsAll(digits, NotDollar);
    var rest := t[n..];
    assert t == letters + rest;
    FilterAppend(letters, rest, NotDollar);
    FilterSkipDollar(s);
    FilterSkipDollar(rest);
  }

  /** A skipped `$` is one the filter drops anyway. */
  lemma FilterSkipDollar(s: string)
    ensures Filter(SkipDollar(s), NotDollar) == Filter(s, NotDollar)
  {
  }

  /** Cleaning a reference pattern gives a canonical reference. */
  lemma CleanPatternIsCanonical(s: string)
    requires IsCellPattern(s)
    ensures IsCanonicalCell(CleanCell(s))
  {
    var letters, digits := PatternParts(s);
    var c := CleanCell(s);
    UpperKeepsDigits(letters, digits);
    assert c == Upper(letters) + digits;
    forall j | 0 <= j < |letters| ensures IsUpperLetter(c[j]) {
      assert c[j] == UpperChar(letters[j]);
    }
    assert c[|letters|] == digits[0];
    LeadCountExact(c, IsUpperLetter, |letters|);
    assert c[|letters|..] == digits;
  }

  /** A canonical reference matches the pattern and is its own clean form. */
  lemma CanonicalIsCleanPattern(s: string)
    requires IsCanonicalCell(s)
    ensures IsCellPattern(s) && CleanCell(s) == s
  {
    var n := LeadCount(s, IsUpperLetter);
    LeadCountExact(s, IsAsciiLetter, n);
    FilterKeepsAll(s, NotDollar);
    forall j | 0 <= j < |s| ensures UpperChar(s[j]) == s[j] {
      if j >= n {
        assert s[n..][j - n] == s[j];
      }
    }
  }

  /** A text with `!` in it is no plain reference. */
  lemma BangIsNoCell(s: string, k: nat)
    requires k < |s| && s[k] == '!'
    ensures !IsCellPattern(s)
  {
    var t := SkipDollar(s);
    var kt := if |s| > 0 && s[0] == '$' then k - 1 else k;
    assert t[kt] == '!';
    var n := LeadCount(t, IsAsciiLetter);
    assert n <= kt by {
      assert !IsAsciiLetter(t[kt]);
    }
    var rest := t[n..];
    assert rest[kt - n] == '!';
    var u := SkipDollar(rest);
    if rest[0] == '$' {
      assert u == rest[1..] && u[kt - n - 1] == '!';
    } else {
      assert u == rest && u[kt - n] == '!';
    }
  }

  /** `state.activeSheet` is read as a parameter: `defaultSheet || state.activeSheet || null`. */
  function FallbackSheet(defaultSheet: Option<string>, activeSheet: Option<string>): (r: Option<string>)
    ensures r.Some? ==> r.value != ""
    ensures r.Some? ==> r == defaultSheet || r == activeSheet
  {
    if defaultSheet.Some? && defaultSheet.value != "" then defaultSheet
    else if activeSheet.Some? && activeSheet.value != "" then activeSheet
    else None
  }

  predicate NotQuote(c: char) { c != '\'' }

  /** A character of an unquoted sheet name: neither a quote nor `!`. */
  predicate IsSheetNameChar(c: char) { c != '\'' && c != '!' }

  /** The sheet prefix `^(?:'([^']+)'|([^'!]+))!`: the sheet name and what follows `!`. */
  function SplitSheet(s: string): (r: Option<(string, string)>)
    ensures r.Some? ==> r.value.0 != "" && '\'' !in r.value.0
    ensures r.Some? && |s| > 0 && s[0] == '\'' ==> s == "'" + r.value.0 + "'!" + r.value.1
    ensures r.Some? && !(|s| > 0 && s[0] == '\'') ==> s == r.value.0 + "!" + r.value.1 && '!' !in r.value.0
  {
    if |s| > 0 && s[0] == '\'' then
      var q := 1 + LeadCount(s[1..], NotQuote);
      if 2 <= q && q + 1 < |s| && s[q + 1] == '!' then
        assert s == "'" + s[1..q] + "'!" + s[q + 2..];
        Some((s[1..q], s[q + 2..]))
      else None
    else
      var b := LeadCount(s, IsSheetNameChar);
      if 1 <= b < |s| && s[b] == '!' then
        assert s == s[..b] + "!" + s[b + 1..];
        Some((s[..b], s[b + 1..]))
      else None
  }

  /** A reference with the sheet it belongs to; `None` where no sheet is known. */
  datatype Ref = Ref(sheetName: Option<string>, cellRef: string)

  /** `parseRef`: a plain reference takes the fallback sheet, a reference after
      `Sheet!` or `'Quoted sheet'!` (and optional whitespace) takes that sheet; the
      reference comes back without `$` and upper-cased; anything else is `None`. */
  function ParseRef(rawRef: string, defaultSheet: Option<string>, activeSheet: Option<string>): (r: Option<Ref>)
    ensures rawRef == "" ==> r == None
    ensures r.Some? ==> IsCanonicalCell(r.value.cellRef)
    ensures r.Some? && r.value.sheetName.Some? ==> r.value.sheetName.value != ""
  {
    if rawRef == "" then None else ParseCleanRef(TrimJs(rawRef), FallbackSheet(defaultSheet, activeSheet))
  }

  /** `parseRef` on the trimmed text, with the fallback sheet already chosen. */
  function ParseCleanRef(cleaned: string, fallback: Option<string>): (r: Option<Ref>)
    ensures r.Some? ==> IsCanonicalCell(r.value.cellRef)
    ensures r.Some? && r.value.sheetName.Some? ==> r.value.sheetName.value != "" || r.value.sheetName == fallback
  {
    if IsCellPattern(cleaned) then
      CleanPatternIsCanonical(cleaned);
      Some(Ref(fallback, CleanCell(cleaned)))
    else ParseSheetRef(cleaned, fallback)
  }

  /** The text after its leading whitespace (the `\s*` after `!`). */
  function DropSpaces(s: string): string {
    s[LeadCount(s, IsJsSpace)..]
  }

  /** The `Sheet!CELL` branch of `parseRef`. */
  function ParseSheetRef(cleaned: string, fallback: Option<string>): (r: Option<Ref>)
    ensures r.Some? ==> IsCanonicalCell(r.value.cellRef) && r.value.sheetName.Some?
    ensures r.Some? ==> r.value.sheetName.value != ""
  {
    match SplitSheet(cleaned)
    case None => None
    case Some((name, rest)) =>
      var cell := DropSpaces(rest);
      if IsCellPattern(cell) then
        CleanPatternIsCanonical(cell);
        Some(Ref(if name != "" then Some(name) else fallback, CleanCell(cell)))
      else None
  }

  /** A canonical reference alone is read with the fallback sheet. */
  lemma PlainRefTakesFallback(cell: string, defaultSheet: Option<string>, activeSheet: Option<string>)
    requires IsCanonicalCell(cell)
    ensures ParseRef(cell, defaultSheet, activeSheet) == Some(Ref(FallbackSheet(defaultSheet, activeSheet), cell))
  {
    CellEndsInDigit(cell);
    assert TrimJs(cell) == cell;
    CanonicalIsCleanPattern(cell);
  }

  /** A trimmed text that is no plain reference, split after its sheet name and followed
      by a reference, is read with that sheet. */
  lemma SheetRefParse(raw: string, name: string, cell: string, defaultSheet: Option<string>, activeSheet: Option<string>)
    requires raw != "" && TrimJs(raw) == raw && !IsCellPattern(raw)
    requires SplitSheet(raw) == Some((name, cell)) && IsCanonicalCell(cell)
    ensures ParseRef(raw, defaultSheet, activeSheet) == Some(Ref(Some(name), cell))
  {
    var fallback := FallbackSheet(defaultSheet, activeSheet);
    SheetRefSplit(raw, name, cell, fallback);
    assert ParseCleanRef(raw, fallback) == ParseSheetRef(raw, fallback);
  }

  lemma SheetRefSplit(raw: string, name: string, cell: string, fallback: Option<string>)
    requires SplitSheet(raw) == Some((name, cell)) && IsCanonicalCell(cell)
    ensures ParseSheetRef(raw, fallback) == Some(Ref(Some(name), cell))
  {
    assert LeadCount(cell, IsJsSpace) == 0 by {
      LeadCountExact(cell, IsJsSpace, 0);
    }
    assert cell[0..] == cell;
    assert IsCellPattern(cell) && CleanCell(cell) == cell by {
      CanonicalIsCleanPattern(cell);
    }
  }

  /** A canonical reference ends in a digit, so nothing is trimmed after it. */
  lemma CellEndsInDigit(cell: string)
    requires IsCanonicalCell(cell)
    ensures !IsJsSpace(cell[|cell| - 1]) && !IsJsSpace(cell[0])
  {
    var n := LeadCount(cell, IsUpperLetter);
    assert cell[n..][|cell[n..]| - 1] == cell[|cell| - 1];
  }

  /** An unquoted sheet name is split off at its `!`. */
  lemma SplitUnquoted(name: string, cell: string)
    requires name != "" && '\'' !in name && '!' !in name
    ensures SplitSheet(name + "!" + cell) == Some((name, cell))
  {
    var raw := name + "!" + cell;
    assert raw[0] == name[0];
    LeadCountExact(raw, IsSheetNameChar, |name|);
    assert raw[..|name|] == name && raw[|name| + 1..] == cell;
  }

  /** A quoted sheet name is split off at its closing quote. */
  lemma SplitQuoted(name: string, cell: string)
    requires name != "" && '\'' !in name
    ensures SplitSheet("'" + name + "'!" + cell) == Some((name, cell))
  {
    var raw := "'" + name + "'!" + cell;
    assert raw[1..][..|name|] == name && raw[1..][|name|] == '\'';
    LeadCountExact(raw[1..], NotQuote, |name|);
    assert raw[1..|name| + 1] == name && raw[|name| + 3..] == cell;
  }

  /** A reference after an unquoted sheet name is read with that sheet, whatever the
      fallback: the fallback of `match[1] || match[2] || fallbackSheet` is never taken. */
  lemma SheetRefRoundTrip(name: string, cell: string, defaultSheet: Option<string>, activeSheet: Option<string>)
    requires name != "" && '\'' !in name && '!' !in name && !IsJsSpace(name[0])
    requires IsCanonicalCell(cell)
    ensures ParseRef(name + "!" + cell, defaultSheet, activeSheet) == Some(Ref(Some(name), cell))
  {
    var raw := name + "!" + cell;
    CellEndsInDigit(cell);
    assert raw[0] == name[0] && raw[|raw| - 1] == cell[|cell| - 1];
    assert TrimJs(raw) == raw;
    BangIsNoCell(raw, |name|);
    SplitUnquoted(name, cell);
    SheetRefParse(raw, name, cell, defaultSheet, activeSheet);
  }

  /** A reference after a quoted sheet name is read with that sheet. */
  lemma QuotedSheetRefRoundTrip(name: string, cell: string, defaultSheet: Option<string>, activeSheet: Option<string>)
    requires name != "" && '\'' !in name
    requires IsCanonicalCell(cell)
    ensures ParseRef("'" + name + "'!" + cell, defaultSheet, activeSheet) == Some(Ref(Some(name), cell))
  {
    var raw := "'" + name + "'!" + cell;
    CellEndsInDigit(cell);
    assert raw[0] == '\'' && raw[|raw| - 1] == cell[|cell| - 1];
    assert TrimJs(raw) == raw;
    assert raw[|name| + 2] == '!';
    BangIsNoCell(raw, |name| + 2);
    SplitQuoted(name, cell);
    SheetRefParse(raw, name, cell, defaultSheet, activeSheet);
  }

  /** A reference written with `$` before its letters and its digits, in letters of
      either case, matches the pattern; cleaning drops the `$` signs and upper-cases it. */
  lemma CleanDollarCell(letters: string, digits: string)
    requires 1 <= |letters| <= 3 && forall j :: 0 <= j < |letters| ==> IsAsciiLetter(letters[j])
    requires IsDigitString(digits)
    ensures IsCellPattern(DollarCell(letters, digits))
    ensures CleanCell(DollarCell(letters, digits)) == Upper(letters) + digits
    ensures TrimJs(DollarCell(letters, digits)) == DollarCell(letters, digits)
  {
    var raw := DollarCell(letters, digits);
    DollarCellShape(letters, digits, raw);
    DollarPattern(letters, digits, raw);
    DollarFiltered(letters, digits, raw);
    UpperKeepsDigits(letters, digits);
  }

  /** Upper-casing leaves digits as they are. */
  lemma UpperKeepsDigits(letters: string, digits: string)
    requires AllDigits(digits)
    ensures Upper(letters + digits) == Upper(letters) + digits
  {
    var u := Upper(letters + digits);
    forall j | 0 <= j < |u| ensures u[j] == (Upper(letters) + digits)[j] {
      if j >= |letters| {
        assert (letters + digits)[j] == digits[j - |letters|];
      }
    }
  }

  lemma DollarCellShape(letters: string, digits: string, raw: string)
    requires IsDigitString(digits) && raw == DollarCell(letters, digits)
    ensures |raw| == |letters| + |digits| + 2 && raw[0] == '$' && raw[|letters| + 1] == '$'
    ensures raw[1..|letters| + 1] == letters && raw[|letters| + 2..] == digits
    ensures TrimJs(raw) == raw
  {
    assert raw[|raw| - 1] == digits[|digits| - 1];
  }

  lemma DollarPattern(letters: string, digits: string, raw: string)
    requires 1 <= |letters| <= 3 && forall j :: 0 <= j < |letters| ==> IsAsciiLetter(letters[j])
    requires IsDigitString(digits)
    requires |raw| == |letters| + |digits| + 2 && raw[0] == '$' && raw[|letters| + 1] == '$'
    requires raw[1..|letters| + 1] == letters && raw[|letters| + 2..] == digits
    ensures IsCellPattern(raw)
  {
    var t := raw[1..];
    assert SkipDollar(raw) == t;
    assert forall j :: 0 <= j < |letters| ==> t[j] == letters[j];
    assert t[|letters|] == '$';
    LeadCountExact(t, IsAsciiLetter, |letters|);
    assert t[|letters|..][1..] == digits;
  }

  lemma DollarFiltered(letters: string, digits: string, raw: string)
    requires forall j :: 0 <= j < |letters| ==> IsAsciiLetter(letters[j])
    requires IsDigitString(digits)
    requires |raw| == |letters| + |digits| + 2 && raw[0] == '$' && raw[|letters| + 1] == '$'
    requires raw[1..|letters| + 1] == letters && raw[|letters| + 2..] == digits
    ensures Filter(raw, NotDollar) == letters + digits
  {
    var head, mid := raw[..|letters| + 1], raw[|letters| + 1..];
    assert raw == head + mid;
    FilterAppend(head, mid, NotDollar);
    DollarThenKept(head, letters);
    DollarThenKept(mid, digits);
  }

  /** A `$` followed by characters that are no `$` filters to those characters. */
  lemma DollarThenKept(s: string, rest: string)
    requires |s| > 0 && s[0] == '$' && s[1..] == rest
    requires forall j :: 0 <= j < |rest| ==> rest[j] != '$'
    ensures Filter(s, NotDollar) == rest
  {
    FilterKeepsAll(rest, NotDollar);
  }

  /** `$` + letters + `$` + digits. */
  function DollarCell(letters: string, digits: string): string {
    "$" + letters + "$" + digits
  }

  /** A plain reference with `$` signs and lower-case letters comes back without the signs,
      upper-cased, with the fallback sheet. */
  lemma DollarRefCleaned(letters: string, digits: string, defaultSheet: Option<string>, activeSheet: Option<string>)
    requires 1 <= |letters| <= 3 && forall j :: 0 <= j < |letters| ==> IsAsciiLetter(letters[j])
    requires IsDigitString(digits)
    ensures ParseRef(DollarCell(letters, digits), defaultSheet, activeSheet)
         == Some(Ref(FallbackSheet(defaultSheet, activeSheet), Upper(letters) + digits))
  {
    CleanDollarCell(letters, digits);
  }

  /** After a sheet name, such a reference is cleaned the same way and takes that sheet. */
  lemma SheetDollarRefCleaned(name: string, letters: string, digits: string, defaultSheet: Option<string>, activeSheet: Option<string>)
    requires name != "" && '\'' !in name && '!' !in name && !IsJsSpace(name[0])
    requires 1 <= |letters| <= 3 && forall j :: 0 <= j < |letters| ==> IsAsciiLetter(letters[j])
    requires IsDigitString(digits)
    ensures ParseRef(name + "!" + DollarCell(letters, digits), defaultSheet, activeSheet)
         == Some(Ref(Some(name), Upper(letters) + digits))
  {
    var cell := DollarCell(letters, digits);
    var raw := name + "!" + cell;
    CleanDollarCell(letters, digits);
    assert raw[0] == name[0] && raw[|raw| - 1] == cell[|cell| - 1] == digits[|digits| - 1];
    assert TrimJs(raw) == raw;
    BangIsNoCell(raw, |name|);
    SplitUnquoted(name, cell);
    SheetPatternSplit(raw, name, cell, FallbackSheet(defaultSheet, activeSheet));
  }

  /** After the split, a reference pattern with no leading whitespace is read cleaned,
      with the sheet. */
  lemma SheetPatternSplit(raw: string, name: string, cell: string, fallback: Option<string>)
    requires SplitSheet(raw) == Some((name, cell)) && IsCellPattern(cell) && cell[0] == '$'
    ensures ParseSheetRef(raw, fallback) == Some(Ref(Some(name), CleanCell(cell)))
  {
    assert LeadCount(cell, IsJsSpace) == 0 by {
      LeadCountExact(cell, IsJsSpace, 0);
    }
    assert DropSpaces(cell) == cell;
  }

  /** `parseRef` returns a reference exactly when the trimmed text is one, or is a sheet
      name and `!` followed (after whitespace) by one; anything else is null. */
  lemma ParseRefDefined(rawRef: string, defaultSheet: Option<string>, activeSheet: Option<string>)
    ensures ParseRef(rawRef, defaultSheet, activeSheet).Some? <==>
      rawRef != "" && (IsCellPattern(TrimJs(rawRef))
        || (SplitSheet(TrimJs(rawRef)).Some? && IsCellPattern(DropSpaces(SplitSheet(TrimJs(rawRef)).value.1))))
  {
  }

  const NullSheet := "null"

  /** How a template literal renders the sheet: `null` when there is none. */
  function SheetText(sheetName: Option<string>): string {
    match sheetName
    case Some(name) => name
    case None => NullSheet
  }

  /** `toFullRef`: `Sheet!CELL` from `parseRef`, `None` where that fails. */
  function ToFullRef(refLike: string, defaultSheet: Option<string>, activeSheet: Option<string>): (r: Option<string>)
    ensures r.Some? <==> ParseRef(refLike, defaultSheet, activeSheet).Some?
  {
    match ParseRef(refLike, defaultSheet, activeSheet)
    case None => None
    case Some(ref) => Some(SheetText(ref.sheetName) + "!" + ref.cellRef)
  }

  /** A full reference whose sheet name is plain reads back as itself. */
  lemma FullRefIdempotent(refLike: string, defaultSheet: Option<string>, activeSheet: Option<string>,
                          otherDefault: Option<string>, otherActive: Option<string>)
    requires ParseRef(refLike, defaultSheet, activeSheet).Some?
    requires var name := SheetText(ParseRef(refLike, defaultSheet, activeSheet).value.sheetName);
      '\'' !in name && '!' !in name && !IsJsSpace(name[0])
    ensures ToFullRef(ToFullRef(refLike, defaultSheet, activeSheet).value, otherDefault, otherActive)
      == ToFullRef(refLike, defaultSheet, activeSheet)
  {
    var ref := ParseRef(refLike, defaultSheet, activeSheet).value;
    SheetRefRoundTrip(SheetText(ref.sheetName), ref.cellRef, otherDefault, otherActive);
  }

  /** A plain reference with no sheet known renders with the sheet name `null`, which
      then reads back as a sheet of that name. */
  lemma MissingSheetRendersNull(cell: string)
    requires IsCanonicalCell(cell)
    ensures ToFullRef(cell, None, None) == Some(NullSheet + "!" + cell)
    ensures ParseRef(NullSheet + "!" + cell, None, None) == Some(Ref(Some(NullSheet), cell))
  {
    assert ParseRef(cell, None, None) == Some(Ref(None, cell)) by {
      PlainRefTakesFallback(cell, None, None);
    }
    NullSheetIsPlain();
    SheetRefRoundTrip(NullSheet, cell, None, None);
  }

  lemma NullSheetIsPlain()
    ensures NullSheet != "" && '\'' !in NullSheet && '!' !in NullSheet && !IsJsSpace(NullSheet[0])
  {
    assert NullSheet == ['n', 'u', 'l', 'l'];
  }

  // ---------------------------------------------------------------------------
  // Formula text

  /** The parts of a sheet cell `getCellFormulaString` reads: the formula `f` and the
      value `v`, each present only when it is a string. */
  datatype SheetCell = SheetCell(f: Option<string>, v: Option<string>)

  /** `getCellFormulaString`: the trimmed formula when it is not blank, else a string
      value starting with `=` (trimmed) without its `=`, else `''`. */
  function GetCellFormulaString(cell: Option<SheetCell>): (r: string)
    ensures r != "" ==>
      (cell.Some? &&
       ((cell.value.f.Some? && r == TrimJs(cell.value.f.value))
        || (cell.value.v.Some? && TrimJs(cell.value.v.value) == "=" + r)))
    ensures cell.Some? && cell.value.f.Some? && TrimJs(cell.value.f.value) != "" ==> r == TrimJs(cell.value.f.value)
  {
    match cell
    case None => ""
    case Some(c) =>
      if c.f.Some? && TrimJs(c.f.value) != "" then TrimJs(c.f.value)
      else if c.v.Some? && StartsWith(TrimJs(c.v.value), "=") then
        var t := TrimJs(c.v.value);
        assert t == "=" + t[1..];
        t[1..]
      else ""
  }

  /** A value typed as `=formula`, with no stored formula, gives back the formula. */
  lemma TypedFormulaRoundTrip(formula: string)
    requires formula != [] ==> !IsJsSpace(formula[|formula| - 1])
    ensures GetCellFormulaString(Some(SheetCell(None, Some("=" + formula)))) == formula
  {
    var v := "=" + formula;
    assert v[|v| - 1] == if formula == [] then '=' else formula[|formula| - 1];
    assert TrimJs(v) == v;
    assert v[1..] == formula;
  }

  // ---------------------------------------------------------------------------
  // References in a formula

  /** The number of characters from `p` on that satisfy `ok`, up to the first that does not. */
  function RunFrom(s: string, p: nat, ok: char -> bool): (n: nat)
    requires p <= |s|
    ensures p + n <= |s|
    decreases |s| - p
  {
    if p == |s| || !ok(s[p]) then 0 else 1 + RunFrom(s, p + 1, ok)
  }

  /** A run counted in place is the leading run of the rest of the text. */
  lemma {:induction false} RunFromIsLeadCount(s: string, p: nat, ok: char -> bool)
    requires p <= |s|
    ensures RunFrom(s, p, ok) == LeadCount(s[p..], ok)
    decreases |s| - p
  {
    if p < |s| && ok(s[p]) {
      RunFromIsLeadCount(s, p + 1, ok);
      assert s[p..][1..] == s[p + 1..];
    }
  }

  /** The length of the match of `[A-Z]{1,3}\d+` at position `p`, 0 when none starts there:
      a run of more than three letters leaves no digit after the third. */
  function MatchA1At(s: string, p: nat): (len: nat)
    requires p <= |s|
    ensures p + len <= |s|
  {
    var n := RunFrom(s, p, IsUpperLetter);
    if 1 <= n <= 3 && p + n < |s| && IsDigit(s[p + n]) then n + RunFrom(s, p + n, IsDigit) else 0
  }

  /** A match is a canonical reference. */
  lemma MatchIsCanonical(s: string, p: nat)
    requires p <= |s| && MatchA1At(s, p) > 0
    ensures IsCanonicalCell(s[p..p + MatchA1At(s, p)])
  {
    var n := RunFrom(s, p, IsUpperLetter);
    var m := RunFrom(s, p + n, IsDigit);
    assert 1 <= n <= 3 && 0 < m && MatchA1At(s, p) == n + m;
    MatchLetters(s, p, n, n + m);
    MatchDigits(s, p + n, m);
    CellOfParts(s, p, n, m);
  }

  /** One to three letters followed by digits make a canonical reference. */
  lemma CellOfParts(s: string, p: nat, n: nat, m: nat)
    requires p + n + m <= |s| && 1 <= n <= 3
    requires LeadCount(s[p..p + n + m], IsUpperLetter) == n && IsDigitString(s[p + n..p + n + m])
    ensures IsCanonicalCell(s[p..p + n + m])
  {
    assert s[p..p + n + m][n..] == s[p + n..p + n + m];
  }

  /** The letters of a match are the leading run of upper-case letters of the matched text. */
  lemma MatchLetters(s: string, p: nat, n: nat, len: nat)
    requires p + len <= |s| && n < len && n == RunFrom(s, p, IsUpperLetter)
    ensures LeadCount(s[p..p + len], IsUpperLetter) == n
  {
    var cell := s[p..p + len];
    RunFromFacts(s, p, IsUpperLetter);
    assert forall j :: 0 <= j < n ==> cell[j] == s[p + j];
    assert cell[n] == s[p + n];
    LeadCountExact(cell, IsUpperLetter, n);
  }

  /** A non-empty run of digits, cut out, is a string of digits. */
  lemma MatchDigits(s: string, q: nat, m: nat)
    requires q <= |s| && 0 < m == RunFrom(s, q, IsDigit)
    ensures IsDigitString(s[q..q + m])
  {
    RunFromFacts(s, q, IsDigit);
    RunSlice(s, q, m, IsDigit, s[q..q + m]);
  }

  /** The characters a run covers, cut out, all pass the test. */
  lemma RunSlice(s: string, p: nat, n: nat, ok: char -> bool, run: string)
    requires p + n <= |s| && forall j :: p <= j < p + n ==> ok(s[j])
    requires run == s[p..p + n]
    ensures forall j :: 0 <= j < |run| ==> ok(run[j])
  {
  }

  /** The length of the match at every position of `s`, and 0 at its end. */
  function MatchLengths(s: string): (lens: seq<nat>)
    ensures ValidLengths(s, lens)
  {
    LengthsFrom(s, 0)
  }

  /** The match lengths from position `p` to the end of `s`. */
  function LengthsFrom(s: string, p: nat): (lens: seq<nat>)
    requires p <= |s|
    ensures |lens| == |s| + 1 - p && forall k :: 0 <= k < |lens| ==> p + k + lens[k] <= |s|
    decreases |s| - p
  {
    if p == |s| then [0] else [MatchA1At(s, p)] + LengthsFrom(s, p + 1)
  }

  /** Each entry of `LengthsFrom` is the match at its position. */
  lemma {:induction false} LengthsFromAt(s: string, p: nat, k: nat)
    requires p + k <= |s|
    ensures LengthsFrom(s, p)[k] == MatchA1At(s, p + k)
    decreases k
  {
    if k > 0 {
      LengthsFromAt(s, p + 1, k - 1);
    } else if p == |s| {
      assert MatchA1At(s, p) == 0;
    }
  }

  /** The entry of `MatchLengths` at `p` is the match at `p`. */
  lemma MatchLengthAt(s: string, p: nat)
    requires p <= |s|
    ensures MatchLengths(s)[p] == MatchA1At(s, p)
  {
    LengthsFromAt(s, 0, p);
  }

  /** One match length per position, none reaching past the end. */
  predicate ValidLengths(s: string, lens: seq<nat>) {
    |lens| == |s| + 1 && forall p :: 0 <= p <= |s| ==> p + lens[p] <= |s|
  }

  /** The global scan of `/[A-Z]{1,3}\d+/g` from position `p`, given the length of the
      match at each position: each match is taken whole, and the scan goes on after it. */
  function ScanA1(s: string, lens: seq<nat>, p: nat): (refs: seq<string>)
    requires ValidLengths(s, lens) && p <= |s|
    decreases |s| - p
  {
    if p == |s| then []
    else if lens[p] > 0 then [s[p..p + lens[p]]] + ScanA1(s, lens, p + lens[p])
    else ScanA1(s, lens, p + 1)
  }

  /** `extractA1Refs`: the references in the formula without `$` and upper-cased, in
      order of appearance. */
  function ExtractA1Refs(formula: string): (refs: seq<string>)
    ensures forall i :: 0 <= i < |refs| ==> IsCanonicalCell(refs[i])
  {
    if formula == "" then []
    else
      var f := CleanCell(formula);
      ScanFindsCanonical(f, MatchLengths(f), 0);
      ScanA1(f, MatchLengths(f), 0)
  }

  /** Every match of the scan is a canonical reference. */
  lemma {:induction false} ScanFindsCanonical(s: string, lens: seq<nat>, p: nat)
    requires lens == MatchLengths(s) && p <= |s|
    ensures forall i :: 0 <= i < |ScanA1(s, lens, p)| ==> IsCanonicalCell(ScanA1(s, lens, p)[i])
    decreases |s| - p
  {
    if p < |s| {
      var len := lens[p];
      if len > 0 {
        var refs := ScanA1(s, lens, p);
        var later := ScanA1(s, lens, p + len);
        assert refs == [s[p..p + len]] + later;
        assert IsCanonicalCell(refs[0]) by {
          MatchLengthAt(s, p);
          MatchIsCanonical(s, p);
        }
        ScanFindsCanonical(s, lens, p + len);
        forall i | 1 <= i < |refs| ensures IsCanonicalCell(refs[i]) {
          assert refs[i] == later[i - 1];
        }
      } else {
        ScanFindsCanonical(s, lens, p + 1);
      }
    }
  }

  /** A canonical reference at `p`, not followed by a digit, is matched whole. */
  lemma MatchCanonical(s: string, p: nat, cell: string)
    requires p + |cell| <= |s| && s[p..p + |cell|] == cell && IsCanonicalCell(cell)
    requires p + |cell| < |s| ==> !IsDigit(s[p + |cell|])
    ensures MatchA1At(s, p) == |cell|
  {
    var n := LeadCount(cell, IsUpperLetter);
    CellLetterRun(s, p, cell, n);
    CellDigitRun(s, p, cell, n);
  }

  /** The letters of a canonical reference found in the text are a whole run of letters. */
  lemma CellLetterRun(s: string, p: nat, cell: string, n: nat)
    requires p + |cell| <= |s| && s[p..p + |cell|] == cell && IsCanonicalCell(cell)
    requires n == LeadCount(cell, IsUpperLetter)
    ensures RunFrom(s, p, IsUpperLetter) == n && p + n < |s| && IsDigit(s[p + n])
  {
    assert forall j :: p <= j < p + n ==> s[j] == cell[j - p];
    assert cell[n..][0] == cell[n] == s[p + n];
    RunFromExact(s, p, n, IsUpperLetter);
  }

  /** The digits of a canonical reference, not followed by a digit, are a whole run of digits. */
  lemma CellDigitRun(s: string, p: nat, cell: string, n: nat)
    requires p + |cell| <= |s| && s[p..p + |cell|] == cell && IsCanonicalCell(cell)
    requires n == LeadCount(cell, IsUpperLetter)
    requires p + |cell| < |s| ==> !IsDigit(s[p + |cell|])
    ensures RunFrom(s, p + n, IsDigit) == |cell| - n
  {
    var digits := cell[n..];
    assert forall j :: p + n <= j < p + |cell| ==> s[j] == digits[j - p - n];
    RunFromExact(s, p + n, |cell| - n, IsDigit);
  }

  /** Every character of `sep` and of the parts satisfies `p`, so every character of
      the joined text does. */
  lemma {:induction false} JoinAll(parts: seq<string>, sep: string, p: char -> bool)
    requires forall i, j :: 0 <= i < |parts| && 0 <= j < |parts[i]| ==> p(parts[i][j])
    requires forall j :: 0 <= j < |sep| ==> p(sep[j])
    ensures forall j :: 0 <= j < |Join(parts, sep)| ==> p(Join(parts, sep)[j])
  {
    if |parts| > 1 {
      JoinAll(parts[1..], sep, p);
      var tail := Join(parts[1..], sep);
      var whole := parts[0] + sep + tail;
      forall j | 0 <= j < |whole| ensures p(whole[j]) {
        if j < |parts[0]| {
          assert whole[j] == parts[0][j];
        } else if j < |parts[0]| + |sep| {
          assert whole[j] == sep[j - |parts[0]|];
        } else {
          assert whole[j] == tail[j - |parts[0]| - |sep|];
        }
      }
    }
  }

  /** A character of a canonical reference. */
  predicate IsCellChar(c: char) { IsUpperLetter(c) || IsDigit(c) }

  lemma CanonicalChars(cell: string)
    requires IsCanonicalCell(cell)
    ensures forall j :: 0 <= j < |cell| ==> IsCellChar(cell[j])
  {
    var n := LeadCount(cell, IsUpperLetter);
    forall j | n <= j < |cell| ensures IsDigit(cell[j]) {
      assert cell[n..][j - n] == cell[j];
    }
  }

  /** Every reference of the list is canonical, stated one reference at a time. */
  predicate AllCanonical(cells: seq<string>) {
    cells == [] || (IsCanonicalCell(cells[0]) && AllCanonical(cells[1..]))
  }

  lemma {:induction false} AllCanonicalIff(cells: seq<string>)
    ensures AllCanonical(cells) <==> forall i :: 0 <= i < |cells| ==> IsCanonicalCell(cells[i])
  {
    if cells != [] {
      AllCanonicalIff(cells[1..]);
      assert forall i :: 1 <= i < |cells| ==> cells[i] == cells[1..][i - 1];
    }
  }

  /** Scanning canonical references joined by `+` from their start finds them all. */
  lemma {:induction false} ScanJoined(s: string, lens: seq<nat>, p: nat, cells: seq<string>)
    requires lens == MatchLengths(s) && p <= |s| && s[p..] == Join(cells, "+")
    requires AllCanonical(cells)
    ensures ScanA1(s, lens, p) == cells
    decreases |cells|
  {
    if |cells| <= 1 {
      ScanJoinedShort(s, lens, p, cells);
    } else {
      JoinedHead(s, p, cells);
      ScanJoined(s, lens, p + |cells[0]| + 1, cells[1..]);
      ScanJoinedStep(s, lens, p, cells);
    }
  }

  /** No reference, or a single one, is found as it is. */
  lemma ScanJoinedShort(s: string, lens: seq<nat>, p: nat, cells: seq<string>)
    requires lens == MatchLengths(s) && p <= |s| && s[p..] == Join(cells, "+")
    requires |cells| <= 1 && AllCanonical(cells)
    ensures ScanA1(s, lens, p) == cells
  {
    if cells == [] {
      assert p == |s|;
    } else {
      ScanLastCell(s, lens, p, cells[0]);
    }
  }

  /** The first reference and the references found after its `+` are all of them. */
  lemma ScanJoinedStep(s: string, lens: seq<nat>, p: nat, cells: seq<string>)
    requires lens == MatchLengths(s) && |cells| > 1 && IsCanonicalCell(cells[0])
    requires var q := p + |cells[0]|; q < |s| && s[p..q] == cells[0] && s[q] == '+'
    requires ScanA1(s, lens, p + |cells[0]| + 1) == cells[1..]
    ensures ScanA1(s, lens, p) == cells
  {
    ScanPastCell(s, lens, p, cells[0]);
    assert cells == [cells[0]] + cells[1..];
  }

  /** A canonical reference followed by `+` is taken, and the scan resumes after the `+`. */
  lemma ScanPastCell(s: string, lens: seq<nat>, p: nat, c: string)
    requires lens == MatchLengths(s) && p + |c| < |s|
    requires s[p..p + |c|] == c && IsCanonicalCell(c) && s[p + |c|] == '+'
    ensures ScanA1(s, lens, p) == [c] + ScanA1(s, lens, p + |c| + 1)
  {
    ScanTakesCell(s, lens, p, c);
    ScanSkipsPlus(s, lens, p + |c|);
  }

  /** The last reference of the text is the last one found. */
  lemma ScanLastCell(s: string, lens: seq<nat>, p: nat, c: string)
    requires lens == MatchLengths(s) && p <= |s| && s[p..] == c && IsCanonicalCell(c)
    ensures ScanA1(s, lens, p) == [c]
  {
    assert s[p..p + |c|] == c;
    ScanTakesCell(s, lens, p, c);
    assert p + |c| == |s|;
  }

  /** The text from `p` on is the first reference, a `+`, and the join of the others. */
  lemma JoinedHead(s: string, p: nat, cells: seq<string>)
    requires p <= |s| && |cells| > 1 && s[p..] == Join(cells, "+")
    ensures var q := p + |cells[0]|;
      q < |s| && s[p..q] == cells[0] && s[q] == '+' && s[q + 1..] == Join(cells[1..], "+")
  {
    var c, tail := cells[0], Join(cells[1..], "+");
    assert s[p..] == c + "+" + tail;
    assert s[p..][..|c|] == c;
    assert s[p..][|c|] == '+';
    assert s[p..][|c| + 1..] == tail;
  }

  /** A canonical reference at the scan position is taken whole. */
  lemma ScanTakesCell(s: string, lens: seq<nat>, p: nat, cell: string)
    requires lens == MatchLengths(s)
    requires p + |cell| <= |s| && s[p..p + |cell|] == cell && IsCanonicalCell(cell)
    requires p + |cell| < |s| ==> !IsDigit(s[p + |cell|])
    ensures ScanA1(s, lens, p) == [cell] + ScanA1(s, lens, p + |cell|)
  {
    assert lens[p] == |cell| by {
      MatchLengthAt(s, p);
      MatchCanonical(s, p, cell);
    }
    assert p != |s| by {
      assert |cell| > 0;
    }
  }

  /** A `+` at the scan position is passed over. */
  lemma ScanSkipsPlus(s: string, lens: seq<nat>, q: nat)
    requires lens == MatchLengths(s) && q < |s| && s[q] == '+'
    ensures ScanA1(s, lens, q) == ScanA1(s, lens, q + 1)
  {
    assert lens[q] == 0 by {
      MatchLengthAt(s, q);
      assert s[q..][0] == '+';
    }
  }

  /** A character of references joined by `+`. */
  predicate IsJoinedCellChar(c: char) { IsCellChar(c) || c == '+' }

  /** References joined by `+` are their own clean form. */
  lemma JoinedCellsClean(cells: seq<string>)
    requires forall i :: 0 <= i < |cells| ==> IsCanonicalCell(cells[i])
    ensures CleanCell(Join(cells, "+")) == Join(cells, "+")
  {
    JoinedCellChars(cells);
    JoinedCharsClean(Join(cells, "+"));
  }

  lemma JoinedCellChars(cells: seq<string>)
    requires forall i :: 0 <= i < |cells| ==> IsCanonicalCell(cells[i])
    ensures forall j :: 0 <= j < |Join(cells, "+")| ==> IsJoinedCellChar(Join(cells, "+")[j])
  {
    forall i | 0 <= i < |cells| ensures forall j :: 0 <= j < |cells[i]| ==> IsJoinedCellChar(cells[i][j]) {
      CanonicalChars(cells[i]);
    }
    JoinAll(cells, "+", IsJoinedCellChar);
  }

  lemma JoinedCharsClean(f: string)
    requires forall j :: 0 <= j < |f| ==> IsJoinedCellChar(f[j])
    ensures CleanCell(f) == f
  {
    FilterKeepsAll(f, NotDollar);
    assert Upper(f) == f;
  }

  /** The references of a sum written out with `+` are found in order. */
  lemma ExtractJoinedRefs(cells: seq<string>)
    requires cells != [] && forall i :: 0 <= i < |cells| ==> IsCanonicalCell(cells[i])
    ensures ExtractA1Refs(Join(cells, "+")) == cells
  {
    var f := Join(cells, "+");
    assert f != "" by {
      assert |cells[0]| > 0;
      if |cells| > 1 {
        assert f == cells[0] + "+" + Join(cells[1..], "+");
      }
    }
    JoinedCellsClean(cells);
    assert f[0..] == f;
    AllCanonicalIff(cells);
    ScanJoined(f, MatchLengths(f), 0, cells);
  }

  /** Each reference cleaned, in order. */
  function CleanAll(raws: seq<string>): seq<string> {
    seq(|raws|, i requires 0 <= i < |raws| => CleanCell(raws[i]))
  }

  /** Cleaning works character by character, so it distributes over concatenation. */
  lemma CleanAppend(a: string, b: string)
    ensures CleanCell(a + b) == CleanCell(a) + CleanCell(b)
  {
    FilterAppend(a, b, NotDollar);
    var fa, fb := Filter(a, NotDollar), Filter(b, NotDollar);
    assert Upper(fa + fb) == Upper(fa) + Upper(fb);
  }

  /** References joined by `+` clean to their clean forms joined by `+`. */
  lemma {:induction false} CleanJoin(raws: seq<string>)
    ensures CleanCell(Join(raws, "+")) == Join(CleanAll(raws), "+")
  {
    if |raws| == 0 {
    } else if |raws| == 1 {
    } else {
      var plus := "+";
      var tail := Join(raws[1..], plus);
      assert Join(raws, plus) == raws[0] + plus + tail;
      CleanAppend(raws[0] + plus, tail);
      CleanAppend(raws[0], plus);
      assert CleanCell(plus) == plus by {
        FilterKeepsAll(plus, NotDollar);
      }
      CleanJoin(raws[1..]);
      assert CleanAll(raws[1..]) == CleanAll(raws)[1..];
    }
  }

  /** `extractA1Refs` on references joined by `+`, each with or without its `$` signs and in
      letters of either case: every reference is found, in order, without `$` and
      upper-cased. */
  lemma ExtractPatternRefs(raws: seq<string>)
    requires raws != [] && forall i :: 0 <= i < |raws| ==> IsCellPattern(raws[i])
    ensures ExtractA1Refs(Join(raws, "+")) == CleanAll(raws)
  {
    var cleaned := CleanAll(raws);
    forall i | 0 <= i < |cleaned| ensures IsCanonicalCell(cleaned[i]) {
      CleanPatternIsCanonical(raws[i]);
    }
    ExtractJoinedRefs(cleaned);
    JoinedCellsClean(cleaned);
    CleanJoin(raws);
    JoinNonEmpty(raws);
    JoinNonEmpty(cleaned);
  }

  /** A join whose first part is not empty is not empty. */
  lemma JoinNonEmpty(parts: seq<string>)
    requires parts != [] && forall i :: 0 <= i < |parts| ==> IsCellPattern(parts[i]) || IsCanonicalCell(parts[i])
    ensures Join(parts, "+") != ""
  {
    assert |parts[0]| > 0 by {
      assert LeadCount(parts[0], IsUpperLetter) <= |parts[0]|;
      assert LeadCount(SkipDollar(parts[0]), IsAsciiLetter) <= |parts[0]|;
    }
    if |parts| > 1 {
      assert Join(parts, "+") == parts[0] + "+" + Join(parts[1..], "+");
    }
  }

  // ---------------------------------------------------------------------------
  // A1 codec

  /** The letters of a zero-based column: bijective base 26, "A" to "Z", then "AA". */
  function EncodeCol(c: nat): (s: string)
    ensures |s| > 0
    decreases c
  {
    if c < 26 then [(65 + c) as char] else EncodeCol(c / 26 - 1) + [(65 + c % 26) as char]
  }

  /** The A1 text of a zero-based row and column: the column letters, then the row
      number counted from one. */
  function EncodeCell(r: int, c: nat): string {
    EncodeCol(c) + IntToString(r + 1)
  }

  /** The numbers an A1 text spells: its digits build the row number, its upper-case
      letters the column number in bijective base 26; anything else is passed over. */
  function DecodeTotals(s: string): (rc: (nat, nat)) {
    if s == [] then (0, 0)
    else
      var (r, c) := DecodeTotals(s[..|s| - 1]);
      var ch := s[|s| - 1];
      if IsDigit(ch) then (10 * r + (ch as int - '0' as int), c)
      else if IsUpperLetter(ch) then (r, 26 * c + (ch as int - 64))
      else (r, c)
  }

  /** The zero-based row and column of an A1 text. */
  function DecodeCell(s: string): (rc: (int, int))
    ensures rc.0 >= -1 && rc.1 >= -1
  {
    var (r, c) := DecodeTotals(s);
    (r - 1, c - 1)
  }

  /** The letters of a column spell its number plus one, and no row. */
  lemma {:induction false} DecodeColumn(c: nat)
    ensures DecodeTotals(EncodeCol(c)) == (0, c + 1)
    decreases c
  {
    if c >= 26 {
      var s := EncodeCol(c);
      DecodeColumn(c / 26 - 1);
      assert s[..|s| - 1] == EncodeCol(c / 26 - 1);
    }
  }

  /** Digits after a text that spells no row spell the row. */
  lemma {:induction false} DecodeDigits(prefix: string, digits: string)
    requires DecodeTotals(prefix).0 == 0 && AllDigits(digits)
    ensures DecodeTotals(prefix + digits) == (DigitsValue(digits), DecodeTotals(prefix).1)
    decreases |digits|
  {
    if digits != [] {
      var init := digits[..|digits| - 1];
      var s := prefix + digits;
      DecodeDigits(prefix, init);
      assert s[..|s| - 1] == prefix + init;
      assert s[|s| - 1] == digits[|digits| - 1];
      assert IsDigit(digits[|digits| - 1]);
    } else {
      assert prefix + digits == prefix;
    }
  }

  /** A cell survives the trip through its A1 text. */
  lemma CellRoundTrip(r: int, c: nat)
    requires r >= -1
    ensures DecodeCell(EncodeCell(r, c)) == (r, c)
  {
    var digits := NatToString(r + 1);
    assert IntToString(r + 1) == digits;
    NatToStringRoundTrip(r + 1);
    DecodeColumn(c);
    DecodeDigits(EncodeCol(c), digits);
  }

  // ---------------------------------------------------------------------------
  // SUM ranges

  predicate NotColon(c: char) { c != ':' }

  /** `decode_range`: the corners before and after the first `:`, or the one cell twice. */
  function DecodeRange(s: string): ((int, int), (int, int)) {
    var k := RunFrom(s, 0, NotColon);
    if k == |s| then (DecodeCell(s), DecodeCell(s)) else (DecodeCell(s[..k]), DecodeCell(s[k + 1..]))
  }

  /** The cells of row `r` from column `c0` up to, not including, column `c`. */
  function RowCells(r: int, c0: nat, c: nat): (cells: seq<string>)
    requires c0 <= c
    ensures |cells| == c - c0
    ensures forall j :: 0 <= j < |cells| ==> cells[j] == EncodeCell(r, c0 + j)
    decreases c - c0
  {
    if c == c0 then [] else RowCells(r, c0, c - 1) + [EncodeCell(r, c - 1)]
  }

  /** The rows from `r0` up to, not including, `r`, each from column `c0` to `c1`. */
  function BlockCells(r0: int, r: int, c0: nat, c1: int): (cells: seq<string>)
    requires r0 <= r && c0 <= c1 + 1
    decreases r - r0
  {
    if r == r0 then [] else BlockCells(r0, r - 1, c0, c1) + RowCells(r - 1, c0, c1 + 1)
  }

  /** The cells from the first corner to the last, row by row; `None` where the
      library's `encode_col` throws on the negative column of a text without letters. */
  function RangeCells(first: (int, int), last: (int, int)): (cells: Option<seq<string>>)
    ensures cells.None? <==> first.0 <= last.0 && first.1 <= last.1 && first.1 < 0
  {
    if first.0 > last.0 || first.1 > last.1 then Some([])
    else if first.1 < 0 then None
    else Some(BlockCells(first.0, last.0 + 1, first.1, last.1))
  }

  /** The first `n` cells of the block `w` columns wide whose top-left cell is at row
      `r0`, column `c0`, counted row by row: the k-th is at row `r0 + k / w`, column
      `c0 + k % w`. */
  function GridCells(r0: int, c0: nat, w: nat, n: nat): (cells: seq<string>)
    requires w > 0
    ensures |cells| == n
  {
    seq(n, k requires 0 <= k < n => EncodeCell(r0 + k / w, c0 + k % w))
  }

  /** The k-th of the grid cells is at row `r0 + k / w`, column `c0 + k % w`. */
  lemma GridCellAt(r0: int, c0: nat, w: nat, n: nat, k: nat)
    requires w > 0 && k < n
    ensures GridCells(r0, c0, w, n)[k] == EncodeCell(r0 + k / w, c0 + k % w)
  {
    var row, col := k / w, k % w;
    assert GridCells(r0, c0, w, n)[k] == EncodeCell(r0 + row, c0 + col);
  }

  /** Listing a block of `h` rows and `w` columns row by row puts its k-th cell at row
      `k / w`, column `k % w`. */
  lemma {:induction false} BlockIsGrid(r0: int, h: nat, c0: nat, w: nat)
    requires w > 0
    ensures BlockCells(r0, r0 + h, c0, c0 + w - 1) == GridCells(r0, c0, w, Area(h, w))
    decreases h
  {
    if h > 0 {
      BlockIsGrid(r0, h - 1, c0, w);
      GridNextRow(r0, c0, w, h - 1);
      MulSucc(h - 1, w);
    }
  }

  /** The next `w` cells of a block `w` wide are the next row. */
  lemma GridNextRow(r0: int, c0: nat, w: nat, i: nat)
    requires w > 0
    ensures GridCells(r0, c0, w, i * w + w) == GridCells(r0, c0, w, i * w) + RowCells(r0 + i, c0, c0 + w)
  {
    GridAppendRow(r0, c0, w, i, i * w);
  }

  /** `GridNextRow` with the cell count `n == i * w` of the first `i` rows as a parameter. */
  lemma GridAppendRow(r0: int, c0: nat, w: nat, i: nat, n: nat)
    requires w > 0 && n == i * w
    ensures GridCells(r0, c0, w, n + w) == GridCells(r0, c0, w, n) + RowCells(r0 + i, c0, c0 + w)
  {
    var row := RowCells(r0 + i, c0, c0 + w);
    var front := GridCells(r0, c0, w, n);
    var grid := GridCells(r0, c0, w, n + w);
    forall j | 0 <= j < n + w
      ensures grid[j] == (front + row)[j]
    {
      if j < n {
        GridCellAt(r0, c0, w, n + w, j);
        GridCellAt(r0, c0, w, n, j);
      } else {
        RowDivMod(j, w, i, n);
        GridCellInRow(r0, c0, w, i, n, j);
      }
    }
    assert grid == front + row;
  }

  /** Past the first `i` rows, the cells of a block `w` wide are those of row `i`. */
  lemma GridCellInRow(r0: int, c0: nat, w: nat, i: nat, n: nat, j: nat)
    requires w > 0 && n <= j < n + w && j / w == i && j % w == j - n
    ensures GridCells(r0, c0, w, n + w)[j] == RowCells(r0 + i, c0, c0 + w)[j - n]
  {
    GridCellAt(r0, c0, w, n + w, j);
  }

  /** A position among the `w` after the first `i * w` is in row `i`. */
  lemma RowDivMod(j: int, w: int, i: int, n: int)
    requires w > 0 && n == i * w && n <= j < n + w
    ensures j / w == i && j % w == j - n
  {
    DivModUnique(j, w, i, j - n);
  }

  /** The k-th cell of a block `w` wide and `h` high is at its row `k / w`, column
      `k % w`. */
  lemma GridCellDecode(r0: int, c0: nat, w: nat, h: nat, k: nat)
    requires r0 >= -1 && w > 0 && k < h * w
    ensures 0 <= k / w < h && 0 <= k % w < w
    ensures DecodeCell(GridCells(r0, c0, w, h * w)[k]) == (r0 + k / w, c0 + k % w)
  {
    var q, m := k / w, k % w;
    assert 0 <= q < h by {
      DivLe(k, w);
      MulCancelLt(q, h, w);
    }
    GridCellAt(r0, c0, w, h * w, k);
    CellRoundTrip(r0 + q, c0 + m);
  }

  /** A range of `h` rows and `w` columns lists `h * w` cells, and its k-th cell sits
      at row `k / w` and column `k % w` of the block, so inside both corners. */
  lemma RangeCellsDecode(first: (int, int), last: (int, int), cells: seq<string>, k: nat)
    requires first.0 >= -1 && first.0 <= last.0 && first.1 <= last.1
    requires RangeCells(first, last) == Some(cells) && k < |cells|
    ensures |cells| == (last.0 - first.0 + 1) * (last.1 - first.1 + 1)
    ensures DecodeCell(cells[k]) == (first.0 + k / (last.1 - first.1 + 1), first.1 + k % (last.1 - first.1 + 1))
    ensures first.0 <= DecodeCell(cells[k]).0 <= last.0 && first.1 <= DecodeCell(cells[k]).1 <= last.1
  {
    RangeIsGrid(first, last, cells);
    GridCellDecode(first.0, first.1, last.1 - first.1 + 1, last.0 - first.0 + 1, k);
  }

  /** The number of cells of a block `h` rows high and `w` columns wide. */
  function Area(h: nat, w: nat): nat {
    h * w
  }

  /** A non-empty range lists the cells of its block row by row. */
  lemma RangeIsGrid(first: (int, int), last: (int, int), cells: seq<string>)
    requires first.0 <= last.0 && 0 <= first.1 <= last.1
    requires RangeCells(first, last) == Some(cells)
    ensures cells == GridCells(first.0, first.1, last.1 - first.1 + 1, Area(last.0 - first.0 + 1, last.1 - first.1 + 1))
  {
    var h: nat, w: nat := last.0 - first.0 + 1, last.1 - first.1 + 1;
    assert first.0 + h == last.0 + 1 && first.1 + w - 1 == last.1;
    BlockIsGrid(first.0, h, first.1, w);
  }

  /** `expandSumRange` as a value: one cleaned reference, or the cells of a range. */
  function SumRangeRefs(rangeRef: string): Option<seq<string>> {
    if rangeRef == "" then Some([])
    else
      var cleaned := CleanCell(rangeRef);
      if ':' !in cleaned then Some([cleaned])
      else
        var (first, last) := DecodeRange(cleaned);
        RangeCells(first, last)
  }

  /** `expandSumRange`: a single reference, or the cells of the range it spans. */
  method ExpandSumRange(rangeRef: string) returns (refs: Option<seq<string>>)
    ensures refs == SumRangeRefs(rangeRef)
  {
    if rangeRef == "" {
      return Some([]);
    }
    var cleaned := CleanCell(rangeRef);
    if ':' !in cleaned {
      return Some([cleaned]);
    }
    var (first, last) := DecodeRange(cleaned);
    refs := ListRange(first, last);
  }

  /** The loops of `expandSumRange`: the rows from the first corner to the last, and
      within each row its columns, in order. The library throws on a negative column
      at the first cell it encodes, before anything is listed, so that case is decided
      before the loops. */
  method ListRange(first: (int, int), last: (int, int)) returns (refs: Option<seq<string>>)
    ensures refs == RangeCells(first, last)
  {
    var (r0, c0) := first;
    var (r1, c1) := last;
    if r0 > r1 || c0 > c1 {
      return Some([]);
    }
    if c0 < 0 {
      return None;
    }
    var out: seq<string> := [];
    var r := r0;
    while r <= r1
      invariant r0 <= r <= r1 + 1
      invariant out == BlockCells(r0, r, c0, c1)
    {
      var c := c0;
      while c <= c1
        invariant c0 <= c <= c1 + 1
        invariant out == BlockCells(r0, r, c0, c1) + RowCells(r, c0, c)
      {
        out := out + [EncodeCell(r, c)];
        assert RowCells(r, c0, c + 1) == RowCells(r, c0, c) + [EncodeCell(r, c)];
        c := c + 1;
      }
      assert BlockCells(r0, r + 1, c0, c1) == BlockCells(r0, r, c0, c1) + RowCells(r, c0, c1 + 1);
      r := r + 1;
    }
    return Some(out);
  }

  // ---------------------------------------------------------------------------
  // References of a SUM formula

  predicate NotJsSpace(c: char) { !IsJsSpace(c) }

  predicate NotCloseParen(c: char) { c != ')' }

  predicate NotArgSep(c: char) { c != ',' && c != ';' }

  /** The characters a run counted in place covers pass the test, and the one after
      it, if any, fails it. */
  lemma {:induction false} RunFromFacts(s: string, p: nat, ok: char -> bool)
    requires p <= |s|
    ensures forall j :: p <= j < p + RunFrom(s, p, ok) ==> ok(s[j])
    ensures p + RunFrom(s, p, ok) < |s| ==> !ok(s[p + RunFrom(s, p, ok)])
    decreases |s| - p
  {
    if p < |s| && ok(s[p]) {
      RunFromFacts(s, p + 1, ok);
    }
  }

  /** A run is as long as the characters that pass the test before one that fails. */
  lemma {:induction false} RunFromExact(s: string, p: nat, n: nat, ok: char -> bool)
    requires p + n <= |s| && forall j :: p <= j < p + n ==> ok(s[j])
    requires p + n < |s| ==> !ok(s[p + n])
    ensures RunFrom(s, p, ok) == n
    decreases n
  {
    if n > 0 {
      RunFromExact(s, p + 1, n - 1, ok);
    }
  }

  /** `sum(` with each letter in either case, as `/sum\(/i` reads it. */
  predicate SumOpensAt(s: string, p: nat) {
    p + 4 <= |s| && (s[p] == 's' || s[p] == 'S') && (s[p + 1] == 'u' || s[p + 1] == 'U')
    && (s[p + 2] == 'm' || s[p + 2] == 'M') && s[p + 3] == '('
  }

  /** The first match of `/sum\(([^)]+)\)/i` at or after `p`: the text between the
      first `sum(` that is followed by at least one character other than `)` and then a
      `)`. */
  function FindSumArgs(s: string, p: nat): (args: Option<string>)
    requires p <= |s|
    ensures args.Some? ==> args.value != "" && forall j :: 0 <= j < |args.value| ==> args.value[j] != ')'
    decreases |s| - p
  {
    if p == |s| then None
    else if SumOpensAt(s, p) && 1 <= RunFrom(s, p + 4, NotCloseParen) && p + 4 + RunFrom(s, p + 4, NotCloseParen) < |s| then
      RunFromFacts(s, p + 4, NotCloseParen);
      Some(s[p + 4..p + 4 + RunFrom(s, p + 4, NotCloseParen)])
    else FindSumArgs(s, p + 1)
  }

  /** `split(/[;,]/)`: the pieces between the separators, in order. */
  function SplitArgs(s: string): (parts: seq<string>)
    ensures |parts| > 0
    decreases |s|
  {
    var n := RunFrom(s, 0, NotArgSep);
    if n == |s| then [s] else [s[..n]] + SplitArgs(s[n + 1..])
  }

  /** `.map((part) => part.trim()).filter(Boolean)`. */
  function TrimmedNonEmpty(parts: seq<string>): (r: seq<string>)
    ensures |r| <= |parts|
    ensures forall i :: 0 <= i < |r| ==> r[i] != ""
  {
    if parts == [] then []
    else (if TrimJs(parts[0]) == "" then [] else [TrimJs(parts[0])]) + TrimmedNonEmpty(parts[1..])
  }

  /** `.flatMap(expandSumRange)`, where a range the library rejects rejects the lot. */
  function ExpandAll(parts: seq<string>): (refs: Option<seq<string>>)
    ensures refs.Some? <==> forall i :: 0 <= i < |parts| ==> SumRangeRefs(parts[i]).Some?
  {
    if parts == [] then Some([])
    else
      match SumRangeRefs(parts[0])
      case None => None
      case Some(first) =>
        match ExpandAll(parts[1..])
        case None => None
        case Some(rest) => Some(first + rest)
  }

  /** `parseSumFormulaRefs`: the cells of the arguments of the first SUM of a formula,
      whitespace removed; none when there is no SUM. */
  function ParseSumFormulaRefs(formula: string): (refs: Option<seq<string>>)
    ensures SumCallPieces(formula).None? ==> refs == Some([])
    ensures SumCallPieces(formula).Some? ==>
      (refs.Some? <==> forall i :: 0 <= i < |SumCallPieces(formula).value| ==>
                         SumRangeRefs(SumCallPieces(formula).value[i]).Some?)
  {
    match SumCallPieces(formula)
    case None => Some([])
    case Some(pieces) => ExpandAll(pieces)
  }

  /** The trimmed, non-empty argument pieces of the first SUM call, whitespace removed;
      none for an empty formula or one without a SUM call. */
  function SumCallPieces(formula: string): Option<seq<string>> {
    var call := FindSumArgs(Filter(formula, NotJsSpace), 0);
    if formula == "" || call.None? then None
    else Some(TrimmedNonEmpty(SplitArgs(call.value)))
  }

  /** Filtering adds no character. */
  lemma {:induction false} FilterKeepsOut(s: string, keep: char -> bool, c: char)
    requires c !in s
    ensures c !in Filter(s, keep)
  {
    if s != [] {
      FilterKeepsOut(s[1..], keep, c);
    }
  }

  /** No `sum(` starts where there is no `(`. */
  lemma {:induction false} NoParenNoSum(s: string, p: nat)
    requires p <= |s| && '(' !in s
    ensures FindSumArgs(s, p) == None
    decreases |s| - p
  {
    if p < |s| {
      assert !SumOpensAt(s, p) by {
        if p + 4 <= |s| {
          assert s[p + 3] in s;
        }
      }
      NoParenNoSum(s, p + 1);
    }
  }

  /** A formula without a SUM call lists no references. */
  lemma NoSumNoRefs(formula: string)
    requires '(' !in formula
    ensures ParseSumFormulaRefs(formula) == Some([])
  {
    FilterKeepsOut(formula, NotJsSpace, '(');
    NoParenNoSum(Filter(formula, NotJsSpace), 0);
  }

  /** `sum` with each letter in either case. */
  predicate IsSumWord(w: string) {
    |w| == 3 && (w[0] == 's' || w[0] == 'S') && (w[1] == 'u' || w[1] == 'U') && (w[2] == 'm' || w[2] == 'M')
  }

  /** The text of a call `=sum(args)`. */
  function SumCallText(word: string, args: string): string {
    "=" + word + "(" + args + ")"
  }

  /** Removing whitespace leaves a call whose arguments hold none untouched. */
  lemma SumCallNoSpace(word: string, args: string, rest: string)
    requires IsSumWord(word)
    requires forall j :: 0 <= j < |args| ==> !IsJsSpace(args[j])
    ensures Filter(SumCallText(word, args) + rest, NotJsSpace) == SumCallText(word, args) + Filter(rest, NotJsSpace)
  {
    var call := SumCallText(word, args);
    forall j | 0 <= j < |call| ensures NotJsSpace(call[j]) {
      if 5 <= j < 5 + |args| {
        assert call[j] == args[j - 5];
      }
    }
    FilterKeepsAll(call, NotJsSpace);
    FilterAppend(call, rest, NotJsSpace);
  }

  /** The first `sum(` of a call is found, with arguments up to its `)`. */
  lemma SumCallFound(word: string, args: string, rest: string)
    requires IsSumWord(word) && args != ""
    requires forall j :: 0 <= j < |args| ==> args[j] != ')'
    ensures FindSumArgs(SumCallText(word, args) + rest, 0) == Some(args)
  {
    var f := SumCallText(word, args) + rest;
    assert !SumOpensAt(f, 0);
    assert SumOpensAt(f, 1);
    assert forall j :: 5 <= j < 5 + |args| ==> f[j] == args[j - 5];
    RunFromExact(f, 5, |args|, NotCloseParen);
    assert f[5..5 + |args|] == args;
  }

  /** The first SUM call of a formula decides: arguments without `)` and without
      whitespace are handed on whole, and whatever follows the call is ignored. */
  lemma SumCallArgs(word: string, args: string, rest: string)
    requires IsSumWord(word) && args != ""
    requires forall j :: 0 <= j < |args| ==> args[j] != ')' && !IsJsSpace(args[j])
    ensures ParseSumFormulaRefs(SumCallText(word, args) + rest)
      == ExpandAll(TrimmedNonEmpty(SplitArgs(args)))
  {
    SumCallNoSpace(word, args, rest);
    SumCallFound(word, args, Filter(rest, NotJsSpace));
  }

  predicate NoArgSep(s: string) {
    forall j :: 0 <= j < |s| ==> NotArgSep(s[j])
  }

  /** Splitting text joined by commas gives back the parts that hold no separator. */
  lemma {:induction false} SplitJoined(parts: seq<string>)
    requires parts != [] && forall i :: 0 <= i < |parts| ==> NoArgSep(parts[i])
    ensures SplitArgs(Join(parts, ",")) == parts
    decreases |parts|
  {
    var s := Join(parts, ",");
    if |parts| == 1 {
      RunFromExact(s, 0, |s|, NotArgSep);
    } else {
      var p0 := parts[0];
      var tail := Join(parts[1..], ",");
      assert s == p0 + "," + tail;
      assert forall j :: 0 <= j < |p0| ==> s[j] == p0[j];
      RunFromExact(s, 0, |p0|, NotArgSep);
      assert s[..|p0|] == p0;
      assert s[|p0| + 1..] == tail;
      SplitJoined(parts[1..]);
    }
  }

  /** Canonical references are their own trimmed form. */
  lemma {:induction false} TrimKeepsCells(cells: seq<string>)
    requires AllCanonical(cells)
    ensures TrimmedNonEmpty(cells) == cells
  {
    if cells != [] {
      var c := cells[0];
      CanonicalChars(c);
      assert IsCellChar(c[0]) && IsCellChar(c[|c| - 1]);
      assert TrimJs(c) == c;
      TrimKeepsCells(cells[1..]);
    }
  }

  /** Each canonical reference expands to itself. */
  lemma {:induction false} ExpandCells(cells: seq<string>)
    requires AllCanonical(cells)
    ensures ExpandAll(cells) == Some(cells)
  {
    if cells != [] {
      var c := cells[0];
      CanonicalIsCleanPattern(c);
      CanonicalChars(c);
      assert ':' !in c;
      assert SumRangeRefs(c) == Some([c]);
      ExpandCells(cells[1..]);
      assert [c] + cells[1..] == cells;
    }
  }

  predicate IsArgChar(c: char) { IsCellChar(c) || c == ',' }

  /** References joined by commas hold only reference characters and commas. */
  lemma JoinedArgChars(cells: seq<string>)
    requires AllCanonical(cells)
    ensures forall j :: 0 <= j < |Join(cells, ",")| ==> IsArgChar(Join(cells, ",")[j])
  {
    AllCanonicalIff(cells);
    forall i | 0 <= i < |cells| ensures forall j :: 0 <= j < |cells[i]| ==> IsArgChar(cells[i][j]) {
      CanonicalChars(cells[i]);
    }
    JoinAll(cells, ",", IsArgChar);
  }

  /** Canonical references joined by commas form a non-empty argument text without
      `)`, whitespace or `;`, which splits back into the references. */
  lemma JoinedArgs(cells: seq<string>)
    requires cells != [] && AllCanonical(cells)
    ensures var args := Join(cells, ",");
      args != "" && (forall j :: 0 <= j < |args| ==> args[j] != ')' && !IsJsSpace(args[j]))
      && SplitArgs(args) == cells
  {
    var args := Join(cells, ",");
    assert |args| >= |cells[0]| > 0 by {
      if |cells| > 1 {
        assert args == cells[0] + "," + Join(cells[1..], ",");
      }
    }
    assert forall j :: 0 <= j < |args| ==> args[j] != ')' && !IsJsSpace(args[j]) by {
      JoinedArgChars(cells);
    }
    AllCanonicalIff(cells);
    forall i | 0 <= i < |cells| ensures NoArgSep(cells[i]) {
      CanonicalChars(cells[i]);
    }
    SplitJoined(cells);
  }

  /** The references a SUM call lists are read back in order. */
  lemma SumOfCellsRoundTrip(word: string, cells: seq<string>, rest: string)
    requires IsSumWord(word) && cells != [] && AllCanonical(cells)
    ensures ParseSumFormulaRefs(SumCallText(word, Join(cells, ",")) + rest) == Some(cells)
  {
    JoinedArgs(cells);
    SumCallArgs(word, Join(cells, ","), rest);
    TrimKeepsCells(cells);
    ExpandCells(cells);
  }

  predicate IsRangeChar(c: char) { IsCellChar(c) || c == ':' }

  /** A range written with two canonical corners holds only reference characters and
      one colon. */
  lemma RangeArgChars(a: string, b: string)
    requires IsCanonicalCell(a) && IsCanonicalCell(b)
    ensures forall j :: 0 <= j < |a + ":" + b| ==> IsRangeChar((a + ":" + b)[j])
  {
    var arg := a + ":" + b;
    CanonicalChars(a);
    CanonicalChars(b);
    forall j | 0 <= j < |arg| ensures IsRangeChar(arg[j]) {
      if j < |a| {
        assert arg[j] == a[j];
      } else if j > |a| {
        assert arg[j] == b[j - |a| - 1];
      }
    }
  }

  /** Text of reference characters and colons is its own clean form. */
  lemma RangeCharsClean(arg: string)
    requires forall j :: 0 <= j < |arg| ==> IsRangeChar(arg[j])
    ensures CleanCell(arg) == arg
  {
    FilterKeepsAll(arg, NotDollar);
    assert Upper(arg) == arg;
  }

  /** The corners of a range are read back. */
  lemma RangeArgDecode(a: string, b: string)
    requires IsCanonicalCell(a)
    ensures DecodeRange(a + ":" + b) == (DecodeCell(a), DecodeCell(b))
  {
    var arg := a + ":" + b;
    assert forall j :: 0 <= j < |a| ==> arg[j] == a[j];
    CanonicalChars(a);
    RunFromExact(arg, 0, |a|, NotColon);
    assert arg[..|a|] == a && arg[|a| + 1..] == b;
  }

  /** One argument expands on its own. */
  lemma ExpandOne(part: string)
    ensures ExpandAll([part]) == SumRangeRefs(part)
  {
    var none: seq<string> := [];
    assert [part][1..] == none;
    match SumRangeRefs(part)
    case None =>
    case Some(first) =>
      assert first + [] == first;
  }

  /** A range argument is one piece of the argument list, left whole by trimming. */
  lemma RangeArgPieces(a: string, b: string)
    requires IsCanonicalCell(a) && IsCanonicalCell(b)
    ensures var arg := a + ":" + b;
      arg != "" && (forall j :: 0 <= j < |arg| ==> arg[j] != ')' && !IsJsSpace(arg[j]))
      && TrimmedNonEmpty(SplitArgs(arg)) == [arg]
  {
    var arg := a + ":" + b;
    RangeArgChars(a, b);
    assert SplitArgs(arg) == [arg] by {
      RunFromExact(arg, 0, |arg|, NotArgSep);
    }
    assert TrimJs(arg) == arg by {
      assert IsRangeChar(arg[0]) && IsRangeChar(arg[|arg| - 1]);
    }
  }

  /** A SUM over a range lists the cells from its first corner to its last, row by
      row (`RangeCellsDecode` says where each one sits). */
  lemma SumOfRangeRoundTrip(word: string, a: string, b: string, rest: string)
    requires IsSumWord(word) && IsCanonicalCell(a) && IsCanonicalCell(b)
    ensures ParseSumFormulaRefs(SumCallText(word, a + ":" + b) + rest)
      == RangeCells(DecodeCell(a), DecodeCell(b))
  {
    var arg := a + ":" + b;
    RangeArgPieces(a, b);
    SumCallArgs(word, arg, rest);
    ExpandOne(arg);
    assert SumRangeRefs(arg) == RangeCells(DecodeCell(a), DecodeCell(b)) by {
      RangeArgChars(a, b);
      RangeCharsClean(arg);
      RangeArgDecode(a, b);
      assert arg[|a|] == ':';
    }
  }
}
