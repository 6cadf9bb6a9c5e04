/**
 * A spreadsheet as the engine sees it after pandas has read it with
 * `header=None`: a matrix of cells, and the conversions the engine applies
 * to them (`str(v)`, `pd.isna(v)`, `float(v)`, `int(float(v))`).
 */
module Cells {
  import opened Wrappers
  import opened Numeric
  import opened Text

  /** One cell: empty (pandas NaN), text, an integer or a float. */
  datatype Cell = Empty | Str(s: string) | Int(i: int) | Float(x: real)

  /** A sheet with `width` columns; rows shorter than that are padded with empty cells. */
  datatype Frame = Frame(rows: seq<seq<Cell>>, width: nat)

  /** `df.iat[r, c]` for a column inside the sheet. */
  function At(df: Frame, r: nat, c: nat): Cell
    requires r < |df.rows|
  {
    if c < df.width && c < |df.rows[r]| then df.rows[r][c] else Empty
  }

  /** `df.iloc[r]`: row `r` padded to the sheet width. */
  function Row(df: Frame, r: nat): (row: seq<Cell>)
    requires r < |df.rows|
    ensures |row| == df.width
  {
    seq(df.width, c requires 0 <= c < df.width => At(df, r, c))
  }

  /** `pd.isna(v)`. */
  predicate IsNa(c: Cell) { c.Empty? }

  /** Python's text for a float: the integer part followed by ".0" (see README). */
  function FloatText(x: real): string {
    var t := Trunc(x);
    (if x < 0.0 then "-" else "") + NatToString(if t < 0 then -t else t) + ".0"
  }

  /** `str(v)` / `astype(str)`: an empty cell reads "nan". */
  function CellStr(c: Cell): string {
    match c
    case Empty => "nan"
    case Str(s) => s
    case Int(i) => IntToString(i)
    case Float(x) => FloatText(x)
  }

  /** `fillna("").astype(str)`: an empty cell reads "". */
  function FilledStr(c: Cell): string {
    if c.Empty? then "" else CellStr(c)
  }

  /** `row.astype(str).tolist()`. */
  function RowStrings(row: seq<Cell>): (r: seq<string>)
    ensures |r| == |row|
  {
    seq(|row|, i requires 0 <= i < |row| => CellStr(row[i]))
  }

  /** `" ".join(str(x) for x in row)`: the whole row as one line of text. */
  function RowText(row: seq<Cell>): string {
    Join(RowStrings(row), " ")
  }

  /** The text of any cell of a row occurs in the row's text. */
  lemma RowTextHasCell(row: seq<Cell>, i: nat, k: string)
    requires i < |row| && Contains(CellStr(row[i]), k)
    ensures Contains(RowText(row), k)
  {
    JoinContainsPart(RowStrings(row), " ", i, k);
  }

  /** A Python float: a real value or NaN (infinities are not modelled). */
  datatype PyNum = Finite(v: real) | NaN

  function Pow10(k: nat): (p: nat)
    ensures p >= 1
  {
    if k == 0 then 1 else 10 * Pow10(k - 1)
  }

  /** The value of the digits after a decimal point. */
  function FracValue(frac: string): (r: real)
    requires AllDigits(frac)
    ensures r >= 0.0
    ensures frac == [] ==> r == 0.0
  {
    DigitsValue(frac) as real / Pow10(|frac|) as real
  }

  /** Position of the first `c` in `s`, or `|s|` when there is none. */
  function IndexOf(s: string, c: char): (i: nat)
    ensures i <= |s|
    ensures i < |s| ==> s[i] == c
    ensures forall j :: 0 <= j < i ==> s[j] != c
  {
    if s == [] then 0 else if s[0] == c then 0 else 1 + IndexOf(s[1..], c)
  }

  /** An unsigned decimal literal `ddd`, `ddd.ddd`, `ddd.` or `.ddd` with at least one digit. */
  function ParseUnsigned(s: string): (r: Option<real>)
    ensures r.Some? ==> r.value >= 0.0
  {
    var i := IndexOf(s, '.');
    var intPart := s[..i];
    var frac := if i < |s| then s[i + 1..] else [];
    if AllDigits(intPart) && AllDigits(frac) && |intPart| + |frac| > 0 then
      Some(DigitsValue(intPart) as real + FracValue(frac))
    else None
  }

  /** "nan" in any letter case. */
  predicate IsNanText(b: string) {
    |b| == 3 && LowerChar(b[0]) == 'n' && LowerChar(b[1]) == 'a' && LowerChar(b[2]) == 'n'
  }

  /** Python's `float(text)`: surrounding whitespace, a sign, a decimal literal or "nan". */
  function ToFloat(s: string): Option<PyNum> {
    ReadSigned(Strip(s))
  }

  /** A stripped literal with an optional sign. */
  function ReadSigned(t: string): Option<PyNum> {
    var neg := |t| > 0 && t[0] == '-';
    var body := if |t| > 0 && (t[0] == '-' || t[0] == '+') then t[1..] else t;
    if IsNanText(body) then Some(NaN)
    else match ParseUnsigned(body)
      case Some(v) => Some(Finite(if neg then -v else v))
      case None => None
  }

  /** A plain string of digits is read as the number it spells. */
  lemma ParseUnsignedDigits(s: string)
    requires IsDigitString(s)
    ensures ParseUnsigned(s) == Some(DigitsValue(s) as real)
  {
    NoPointInDigits(s);
    assert s[..|s|] == s;
  }

  lemma NoPointInDigits(s: string)
    requires AllDigits(s)
    ensures IndexOf(s, '.') == |s|
  {
    var i := IndexOf(s, '.');
    if i < |s| {
      assert false;
    }
  }

  /** Text that starts and ends with a non-space character is left alone by `strip()`. */
  lemma StripDigits(d: string, sign: string)
    requires IsDigitString(d) && (sign == "" || sign == "-")
    ensures Strip(sign + d) == sign + d
    ensures ToFloat(sign + d) == ReadSigned(sign + d)
  {
    var t := sign + d;
    var first, last := d[0], d[|d| - 1];
    assert IsDigit(first) && IsDigit(last);
    assert t[|t| - 1] == last;
    assert t[0] == (if sign == "" then first else '-');
    assert !IsPySpace(t[0]) && !IsPySpace(t[|t| - 1]);
    assert StripWith(t, IsPySpace) == t;
  }

  /** An optionally negated string of digits is read as the number it spells. */
  lemma ToFloatOfDigits(sign: string, d: string)
    requires IsDigitString(d) && (sign == "" || sign == "-")
    ensures ToFloat(sign + d) == Some(Finite(if sign == "-" then -(DigitsValue(d) as real) else DigitsValue(d) as real))
  {
    if sign == "-" {
      var t := sign + d;
      assert t[0] == '-' && t[1..] == d;
      ToFloatOfNegated(d, t);
    } else {
      assert sign + d == d;
      ToFloatOfPlain(d);
    }
  }

  lemma ToFloatOfNegated(d: string, t: string)
    requires IsDigitString(d) && |t| == |d| + 1 && t[0] == '-' && t[1..] == d
    ensures ToFloat(t) == Some(Finite(-(DigitsValue(d) as real)))
  {
    assert t[|t| - 1] == d[|d| - 1] && IsDigit(d[|d| - 1]);
    assert Strip(t) == t;
    ParseUnsignedDigits(d);
    DigitsHead(d);
  }

  lemma ToFloatOfPlain(d: string)
    requires IsDigitString(d)
    ensures ToFloat(d) == Some(Finite(DigitsValue(d) as real))
  {
    ParseUnsignedDigits(d);
    DigitsHead(d);
    StripDigits(d, "");
    assert "" + d == d;
    ReadPlain(d, DigitsValue(d) as real);
  }

  lemma DigitsHead(d: string)
    requires IsDigitString(d)
    ensures !IsNanText(d) && d[0] != '+' && d[0] != '-'
  {
    assert IsDigit(d[0]);
  }

  /** An unsigned literal without a sign keeps its value. */
  lemma ReadPlain(d: string, v: real)
    requires ParseUnsigned(d) == Some(v) && !IsNanText(d) && |d| > 0 && d[0] != '+' && d[0] != '-'
    ensures ReadSigned(d) == Some(Finite(v))
  {
  }

  /** Python's decimal text of an integer is read back as that integer. */
  lemma ToFloatOfIntText(n: int)
    ensures ToFloat(IntToString(n)) == Some(Finite(n as real))
  {
    var sign, d := IntTextParts(n);
    ToFloatOfParts(n, sign, d, IntToString(n));
  }

  lemma ToFloatOfParts(n: int, sign: string, d: string, s: string)
    requires IsDigitString(d) && (sign == "" || sign == "-") && s == sign + d
    requires sign == (if n < 0 then "-" else "")
    requires DigitsValue(d) == (if n < 0 then -n else n)
    ensures ToFloat(s) == Some(Finite(n as real))
  {
    ToFloatOfDigits(sign, d);
  }

  /** The decimal text of an integer is an optional minus sign and the digits of its magnitude. */
  lemma IntTextParts(n: int) returns (sign: string, d: string)
    ensures IntToString(n) == sign + d && IsDigitString(d)
    ensures sign == (if n < 0 then "-" else "")
    ensures DigitsValue(d) == (if n < 0 then -n else n)
  {
    var m: nat := if n < 0 then -n else n;
    d := NatToString(m);
    sign := if n < 0 then "-" else "";
    NatToStringRoundTrip(m);
  }

  /** `float(v)` for a cell; None when Python would raise. */
  function CellFloat(c: Cell): (r: Option<PyNum>)
    ensures c.Int? ==> r == Some(Finite(c.i as real))
    ensures c.Empty? ==> r == Some(NaN)
  {
    match c
    case Empty => Some(NaN)
    case Str(s) => ToFloat(s)
    case Int(i) => Some(Finite(i as real))
    case Float(x) => Some(Finite(x))
  }

  /** `float(v)` when it gives a real number; None when it raises or gives NaN. */
  function CellReal(c: Cell): (r: Option<real>)
    ensures r.Some? <==> CellFloat(c).Some? && CellFloat(c).value.Finite?
  {
    match CellFloat(c)
    case Some(Finite(v)) => Some(v)
    case _ => None
  }

  /** `int(float(v))`: truncation toward zero; None when Python would raise. */
  function CellIntViaFloat(c: Cell): (r: Option<int>)
    ensures r.Some? <==> CellReal(c).Some?
    ensures r.Some? ==> var v := CellReal(c).value;
      (0.0 <= v ==> 0 <= r.value && r.value as real <= v < r.value as real + 1.0)
      && (v < 0.0 ==> r.value <= 0 && v <= r.value as real < v + 1.0)
  {
    match CellReal(c)
    case Some(v) => Some(Trunc(v))
    case None => None
  }

  /** The text and the number spell the same integer cell value alike. */
  lemma IntTextAsInt(n: int)
    ensures CellIntViaFloat(Str(IntToString(n))) == CellIntViaFloat(Int(n)) == Some(n)
  {
    var s := IntToString(n);
    ToFloatOfIntText(n);
    assert CellReal(Str(s)) == Some(n as real);
    assert Trunc(n as real) == n;
  }

  /** Material code normalisation: numbers become `str(int(float(v)))`, text is stripped. */
  function NormalizeCode(c: Cell): (code: string)
    requires !IsNa(c)
    ensures c.Int? ==> code == IntToString(c.i)
  {
    match c
    case Int(i) => IntToString(i)
    case Float(x) => IntToString(Trunc(x))
    case Str(s) => Strip(s)
  }

  /** A code typed as a number and the same code typed as text get the same key. */
  lemma NormalizeCodeAgrees(n: int)
    ensures NormalizeCode(Int(n)) == NormalizeCode(Str(IntToString(n))) == NormalizeCode(Float(n as real))
  {
    var m: nat := if n < 0 then -n else n;
    StripDigits(NatToString(m), if n < 0 then "-" else "");
    assert Trunc(n as real) == n;
    assert NormalizeCode(Float(n as real)) == IntToString(n);
  }

  /** The first text whose stripped, lower-cased form contains a keyword: the sheet search
      `_find_sheet_by_keywords` and the column search `_find_column_index`. */
  function FirstWithKeyword(sheetNames: seq<string>, keywords: seq<string>): (r: Option<nat>)
    ensures r.Some? ==> r.value < |sheetNames| && ContainsAny(Lower(Strip(sheetNames[r.value])), keywords)
    ensures forall j :: 0 <= j < |sheetNames| && (r.None? || j < r.value) ==>
              !ContainsAny(Lower(Strip(sheetNames[j])), keywords)
  {
    if sheetNames == [] then None
    else if ContainsAny(Lower(Strip(sheetNames[0])), keywords) then Some(0)
    else match FirstWithKeyword(sheetNames[1..], keywords)
      case Some(j) => Some(j + 1)
      case None => None
  }

  /** The first index below `n` that satisfies `p`. */
  function FirstIndex(n: nat, p: nat -> bool): (r: Option<nat>)
    ensures r.Some? ==> (r.value < n && p(r.value) && forall j :: 0 <= j < r.value ==> !p(j))
    ensures r.None? ==> forall j :: 0 <= j < n ==> !p(j)
  {
    FirstIndexFrom(n, p, 0)
  }

  function FirstIndexFrom(n: nat, p: nat -> bool, i: nat): (r: Option<nat>)
    requires forall j :: 0 <= j < i ==> !p(j)
    ensures r.Some? ==> (i <= r.value < n && p(r.value) && forall j :: 0 <= j < r.value ==> !p(j))
    ensures r.None? ==> forall j :: 0 <= j < n ==> !p(j)
    decreases n - i
  {
    if i >= n then None
    else if p(i) then Some(i)
    else FirstIndexFrom(n, p, i + 1)
  }

  /** The search loop `for r in range(n): if p(r): ... break`. */
  method FindFirst(n: nat, p: nat -> bool) returns (r: Option<nat>)
    ensures r == FirstIndex(n, p)
  {
    var i := 0;
    while i < n
      invariant 0 <= i <= n
      invariant forall j :: 0 <= j < i ==> !p(j)
      invariant FirstIndexFrom(n, p, i) == FirstIndex(n, p)
    {
      if p(i) {
        return Some(i);
      }
      i := i + 1;
    }
    return None;
  }

  /** The values a row loop keeps: `f(j)` for every row `j` from `r` up to `n` that gives one. */
  function KeptFrom<T>(n: nat, f: nat -> Option<T>, r: nat): seq<T>
    decreases n - r
  {
    if r >= n then [] else (if f(r).Some? then [f(r).value] else []) + KeptFrom(n, f, r + 1)
  }

  /** The loop `for j in range(start, n): v = f(j); if v: out.append(v)`. */
  method CollectKept<T>(n: nat, f: nat -> Option<T>, start: nat) returns (kept: seq<T>)
    ensures kept == KeptFrom(n, f, start)
  {
    kept := [];
    var j := start;
    while j < n
      invariant start <= j
      invariant kept + KeptFrom(n, f, j) == KeptFrom(n, f, start)
      decreases n - j
    {
      var v := f(j);
      if v.Some? {
        assert KeptFrom(n, f, j) == [v.value] + KeptFrom(n, f, j + 1);
        kept := kept + [v.value];
      }
      j := j + 1;
    }
  }

  /** A value is kept exactly when some row of the range gives it. */
  lemma {:induction false} KeptFromMembers<T>(n: nat, f: nat -> Option<T>, r: nat, x: T)
    ensures x in KeptFrom(n, f, r) <==> exists j :: r <= j < n && f(j) == Some(x)
    decreases n - r
  {
    if r < n {
      KeptFromMembers(n, f, r + 1, x);
      if f(r) == Some(x) {
        assert x in KeptFrom(n, f, r);
      }
    }
  }

  /** The values `f` gives for the elements of `s` that give one, in order. */
  function KeptOf<T, U>(s: seq<T>, f: T -> Option<U>): seq<U> {
    if s == [] then []
    else KeptOf(s[..|s| - 1], f) + (if f(s[|s| - 1]).Some? then [f(s[|s| - 1]).value] else [])
  }

  /** A value is kept exactly when some element gives it. */
  lemma {:induction false} KeptOfMembers<T, U>(s: seq<T>, f: T -> Option<U>, x: U)
    ensures x in KeptOf(s, f) <==> exists i :: 0 <= i < |s| && f(s[i]) == Some(x)
  {
    if s != [] {
      var init := s[..|s| - 1];
      KeptOfMembers(init, f, x);
      if x in KeptOf(init, f) {
        var i :| 0 <= i < |init| && f(init[i]) == Some(x);
        assert s[i] == init[i];
      } else if f(s[|s| - 1]) == Some(x) {
        assert x in KeptOf(s, f);
      } else {
        forall i | 0 <= i < |s|
          ensures f(s[i]) != Some(x)
        {
          if i < |init| {
            assert s[i] == init[i];
          }
        }
      }
    }
  }

  /** The lower-cased text of the header row as a list, one entry per column. */
  function LowerHeader(row: seq<Cell>): (h: seq<string>)
    ensures |h| == |row|
  {
    seq(|row|, i requires 0 <= i < |row| => Lower(CellStr(row[i])))
  }

  /** The first entry of a header that contains one of the keys. */
  function HeaderIndex(header: seq<string>, keys: seq<string>): (r: Option<nat>)
    ensures r.Some? ==> r.value < |header| && ContainsAny(header[r.value], keys)
    ensures forall i :: 0 <= i < |header| && (r.None? || i < r.value) ==> !ContainsAny(header[i], keys)
  {
    if header == [] then None
    else if ContainsAny(header[0], keys) then Some(0)
    else match HeaderIndex(header[1..], keys)
      case Some(j) => Some(j + 1)
      case None => None
  }

  /** The lower-cased text of row `r`. */
  function LowerRowText(df: Frame, r: nat): string
    requires r < |df.rows|
  {
    Lower(RowText(Row(df, r)))
  }
}
