/**
 * The total weight of a cabinet: `_calculate_total_weight` reads the weight the sheet
 * records, and `_calculate_total_weight_by_rows` estimates it from the panels when the
 * sheet records none.
 */
module Weight {
  import opened Wrappers
  import opened Numeric
  import opened Text
  import opened Cells
  import opened Patterns
  import opened Records

  // ---------------------------------------------------------------------------
  // The recorded weight

  /** The label that starts the weight row in the first column. */
  const WeightLabel := "вес (кг)"

  /** Variant 1: the first cell, stripped and lower-cased, begins with the weight label. */
  predicate LabelRow(df: Frame, r: nat)
    requires r < |df.rows|
  {
    StartsWith(Lower(Strip(CellStr(At(df, r, 0)))), WeightLabel)
  }

  /** The value beside the label, `float(str(v).strip().replace(',', '.'))`; `None` where
      that raises (a sheet of one column included). A number cell reads back as its value,
      since `str` prints a float with as many digits as it takes to read it back and an
      integer in decimal (`ToFloatOfIntText`); an empty cell prints "nan". */
  function LabelValue(df: Frame, r: nat): (v: Option<PyNum>)
    requires r < |df.rows|
    ensures df.width < 2 ==> v.None?
    ensures df.width >= 2 && At(df, r, 1).Empty? ==> v == Some(NaN)
    ensures df.width >= 2 && At(df, r, 1).Int? ==> v == Some(Finite(At(df, r, 1).i as real))
    ensures df.width >= 2 && At(df, r, 1).Float? ==> v == Some(Finite(At(df, r, 1).x))
    ensures df.width >= 2 && At(df, r, 1).Str? ==> v == ToFloat(ReplaceChar(Strip(At(df, r, 1).s), ',', '.'))
  {
    if df.width < 2 then None
    else
      match At(df, r, 1)
      case Empty => Some(NaN)
      case Int(i) => Some(Finite(i as real))
      case Float(x) => Some(Finite(x))
      case Str(s) => ToFloat(ReplaceChar(Strip(s), ',', '.'))
  }

  /** A sheet whose weight row has the label and the weight as a number. */
  function LabelNumber(x: real): Frame {
    Frame([[Str(WeightLabel), Float(x)]], 2)
  }

  /** A weight stored as a number is read with its fraction, and is the weight of the sheet
      both as written and as intended. */
  lemma LabelNumberWeight(x: real)
    ensures LabelValue(LabelNumber(x), 0) == Some(Finite(x))
    ensures TotalWeightAsWritten(LabelNumber(x)) == Finite(x) && TotalWeight(LabelNumber(x)) == x
  {
    var df := LabelNumber(x);
    assert At(df, 0, 0) == Str(WeightLabel) && At(df, 0, 1) == Float(x);
    LabelRowOf(df);
    assert RowResult(df, 0) == Some(Finite(x));
    SingleRowWeights(df);
  }

  /** The columns variant 2 looks at: the first ten. */
  function SearchedColumns(df: Frame): nat {
    Min(10, df.width)
  }

  /** The weight annotation in one cell's text. */
  function CellWeight(df: Frame, r: nat, c: nat): Option<real>
    requires r < |df.rows|
  {
    WeightSearch(CellStr(At(df, r, c)))
  }

  /** Variant 2: the annotation in the first of the searched columns from `c` that holds one. */
  function RowWeightFrom(df: Frame, r: nat, c: nat): (w: Option<real>)
    requires r < |df.rows|
    decreases SearchedColumns(df) - c
    ensures w.Some? ==> exists k :: c <= k < SearchedColumns(df) && CellWeight(df, r, k) == w
                          && forall j :: c <= j < k ==> CellWeight(df, r, j).None?
    ensures w.None? <==> forall k :: c <= k < SearchedColumns(df) ==> CellWeight(df, r, k).None?
    ensures w.Some? ==> w.value >= 0.0
  {
    if c >= SearchedColumns(df) then None
    else
      match CellWeight(df, r, c)
      case Some(x) => Some(x)
      case None => RowWeightFrom(df, r, c + 1)
  }

  /** What one row gives, as the code is written: the labelled value where it reads as a
      float, else the first annotation in the row, else nothing. */
  function RowResult(df: Frame, r: nat): (w: Option<PyNum>)
    requires r < |df.rows|
    ensures w.Some? && w.value == NaN ==> LabelRow(df, r) && LabelValue(df, r) == Some(NaN)
    ensures LabelRow(df, r) && LabelValue(df, r).Some? ==> w == LabelValue(df, r)
    ensures !(LabelRow(df, r) && LabelValue(df, r).Some?) ==>
              ((w.Some? <==> RowWeightFrom(df, r, 0).Some?)
               && (w.Some? ==> w.value.Finite? && Some(w.value.v) == RowWeightFrom(df, r, 0)))
  {
    if LabelRow(df, r) && LabelValue(df, r).Some? then LabelValue(df, r)
    else
      match RowWeightFrom(df, r, 0)
      case Some(x) => Some(Finite(x))
      case None => None
  }

  /** What one row gives as evidently intended: the labelled value where it reads as a
      number, else the first annotation in the row, else nothing. */
  function IntendedRowResult(df: Frame, r: nat): (w: Option<real>)
    requires r < |df.rows|
    ensures w.Some? && w.value < 0.0 ==> LabelRow(df, r) && LabelValue(df, r) == Some(Finite(w.value))
    ensures LabelRow(df, r) && LabelValue(df, r).Some? && LabelValue(df, r).value.Finite? ==> w == Some(LabelValue(df, r).value.v)
    ensures LabelValue(df, r) == Some(NaN) || LabelValue(df, r).None? || !LabelRow(df, r) ==> w == RowWeightFrom(df, r, 0)
  {
    if LabelRow(df, r) && LabelValue(df, r).Some? && LabelValue(df, r).value.Finite? then Some(LabelValue(df, r).value.v)
    else RowWeightFrom(df, r, 0)
  }

  /** The result of every row, as written. */
  function RowResults(df: Frame): (res: seq<Option<PyNum>>)
    ensures |res| == |df.rows| && forall r :: 0 <= r < |res| ==> res[r] == RowResult(df, r)
  {
    seq(|df.rows|, r requires 0 <= r < |df.rows| => RowResult(df, r))
  }

  /** The result of every row, as intended. */
  function IntendedRowResults(df: Frame): (res: seq<Option<real>>)
    ensures |res| == |df.rows| && forall r :: 0 <= r < |res| ==> res[r] == IntendedRowResult(df, r)
  {
    seq(|df.rows|, r requires 0 <= r < |df.rows| => IntendedRowResult(df, r))
  }

  /** The search over the rows: the first result present from row `r` on, else `none`. */
  function FirstFound<T>(results: seq<Option<T>>, r: nat, none: T): (w: T)
    decreases |results| - r
    ensures (exists k :: r <= k < |results| && results[k] == Some(w) && forall j :: r <= j < k ==> results[j].None?)
            || (w == none && forall k :: r <= k < |results| ==> results[k].None?)
  {
    if r >= |results| then none
    else
      match results[r]
      case Some(w) => w
      case None => FirstFound(results, r + 1, none)
  }

  /** `_calculate_total_weight` as written: the first row that gives a value, NaN included,
      else zero. */
  function TotalWeightAsWritten(df: Frame): (w: PyNum)
    ensures w == NaN ==> exists k :: 0 <= k < |df.rows| && LabelRow(df, k) && LabelValue(df, k) == Some(NaN)
    ensures var results := RowResults(df);
      (exists k :: 0 <= k < |results| && results[k] == Some(w) && forall j :: 0 <= j < k ==> results[j].None?)
      || (w == Finite(0.0) && forall k :: 0 <= k < |results| ==> results[k].None?)
  {
    FirstFound(RowResults(df), 0, Finite(0.0))
  }

  /** `_calculate_total_weight` with a missing labelled value passed over like one that does
      not read at all. */
  function TotalWeight(df: Frame): (w: real)
    ensures w >= 0.0 || exists k :: 0 <= k < |df.rows| && LabelRow(df, k) && LabelValue(df, k) == Some(Finite(w))
    ensures var results := IntendedRowResults(df);
      (exists k :: 0 <= k < |results| && results[k] == Some(w) && forall j :: 0 <= j < k ==> results[j].None?)
      || (w == 0.0 && forall k :: 0 <= k < |results| ==> results[k].None?)
  {
    var results := IntendedRowResults(df);
    var w := FirstFound(results, 0, 0.0);
    if w >= 0.0 then w
    else
      var k :| 0 <= k < |results| && results[k] == Some(w);
      assert IntendedRowResult(df, k) == Some(w);
      w
  }

  /** The search of `_calculate_total_weight`: rows in order, and in each row first the
      labelled value, then the annotation in the first ten columns. */
  method CalculateTotalWeight(df: Frame) returns (w: PyNum)
    ensures w == TotalWeightAsWritten(df)
  {
    ghost var results := RowResults(df);
    var r := 0;
    while r < |df.rows|
      invariant 0 <= r <= |df.rows|
      invariant FirstFound(results, 0, Finite(0.0)) == FirstFound(results, r, Finite(0.0))
    {
      var found := ReadRow(df, r);
      assert found == results[r];
      if found.Some? {
        return found.value;
      }
      r := r + 1;
    }
    return Finite(0.0);
  }

  /** One row of the search: the labelled value, then the annotation. */
  method ReadRow(df: Frame, r: nat) returns (found: Option<PyNum>)
    requires r < |df.rows|
    ensures found == RowResult(df, r)
  {
    if LabelRow(df, r) {
      var v := LabelValue(df, r);
      if v.Some? {
        return v;
      }
    }
    var m := SearchRow(df, r);
    if m.Some? {
      return Some(Finite(m.value));
    }
    return None;
  }

  /** Variant 2 of the search in one row: the first ten columns in order. */
  method SearchRow(df: Frame, r: nat) returns (m: Option<real>)
    requires r < |df.rows|
    ensures m == RowWeightFrom(df, r, 0)
  {
    var c := 0;
    while c < SearchedColumns(df)
      invariant 0 <= c <= SearchedColumns(df)
      invariant RowWeightFrom(df, r, 0) == RowWeightFrom(df, r, c)
    {
      m := CellWeight(df, r, c);
      if m.Some? {
        return;
      }
      RowWeightStep(df, r, c);
      c := c + 1;
    }
    return None;
  }

  lemma RowWeightStep(df: Frame, r: nat, c: nat)
    requires r < |df.rows| && c < SearchedColumns(df) && CellWeight(df, r, c).None?
    ensures RowWeightFrom(df, r, c) == RowWeightFrom(df, r, c + 1)
  {
  }

  /** Wherever the code as written finds a number, the intended reading finds the same one;
      the two differ only where the code returns NaN. */
  lemma WeightAgrees(df: Frame)
    ensures TotalWeightAsWritten(df) != NaN ==> TotalWeightAsWritten(df) == Finite(TotalWeight(df))
  {
    var (a, b) := (RowResults(df), IntendedRowResults(df));
    forall k | 0 <= k < |a|
      ensures a[k].None? ==> b[k].None?
      ensures a[k].Some? && a[k].value != NaN ==> b[k] == Some(a[k].value.v)
    {
      RowAgrees(df, k);
    }
    FirstFoundAgrees(a, b, 0);
  }

  /** A row read as written and as intended gives the same number, unless it gives NaN. */
  lemma RowAgrees(df: Frame, r: nat)
    requires r < |df.rows|
    ensures RowResult(df, r).None? ==> IntendedRowResult(df, r).None?
    ensures RowResult(df, r).Some? && RowResult(df, r).value != NaN ==>
      IntendedRowResult(df, r) == Some(RowResult(df, r).value.v)
  {
  }

  /** Two searches over row results that agree wherever the first is not NaN. */
  lemma {:induction false} FirstFoundAgrees(a: seq<Option<PyNum>>, b: seq<Option<real>>, r: nat)
    requires |a| == |b|
    requires forall k :: 0 <= k < |a| ==> (a[k].None? ==> b[k].None?)
    requires forall k :: 0 <= k < |a| ==> (a[k].Some? && a[k].value != NaN ==> b[k] == Some(a[k].value.v))
    ensures FirstFound(a, r, Finite(0.0)) != NaN ==> FirstFound(a, r, Finite(0.0)) == Finite(FirstFound(b, r, 0.0))
    decreases |a| - r
  {
    if r < |a| && a[r].None? {
      FirstFoundAgrees(a, b, r + 1);
    }
  }

  /** A sheet whose weight row has the label and an empty value cell. */
  const LabelOnly := Frame([[Str(WeightLabel), Empty]], 2)

  /** On that sheet the code returns NaN, which is truthy, so the caller keeps it and never
      falls back to the weight of the panels; the intended reading finds no weight. */
  lemma EmptyWeightCell()
    ensures TotalWeightAsWritten(LabelOnly) == NaN
    ensures TotalWeight(LabelOnly) == 0.0
  {
    LabelOnlyResults();
    SingleRowWeights(LabelOnly);
  }

  /** On a sheet of one row the two readings are that row's results. */
  lemma SingleRowWeights(df: Frame)
    requires |df.rows| == 1
    ensures RowResult(df, 0).Some? ==> TotalWeightAsWritten(df) == RowResult(df, 0).value
    ensures IntendedRowResult(df, 0).None? ==> TotalWeight(df) == 0.0
  {
    var (a, b) := (RowResults(df), IntendedRowResults(df));
    assert FirstFound(b, 1, 0.0) == 0.0;
  }

  /** The only row of that sheet gives NaN as written and nothing as intended. */
  lemma LabelOnlyResults()
    ensures RowResult(LabelOnly, 0) == Some(NaN) && IntendedRowResult(LabelOnly, 0).None?
  {
    var df := LabelOnly;
    LabelOnlyRow();
    assert At(df, 0, 1).Empty?;
    assert LabelValue(df, 0) == Some(NaN);
    LabelOnlyNoAnnotation();
    assert RowWeightFrom(df, 0, 0).None?;
  }

  lemma LabelOnlyRow()
    ensures LabelRow(LabelOnly, 0)
  {
    LabelRowOf(LabelOnly);
  }

  /** A row whose first cell is the label itself is a label row. */
  lemma LabelRowOf(df: Frame)
    requires |df.rows| > 0 && At(df, 0, 0) == Str(WeightLabel)
    ensures LabelRow(df, 0)
  {
    var s := WeightLabel;
    assert CellStr(At(df, 0, 0)) == s;
    assert !IsPySpace(s[0]) && !IsPySpace(s[|s| - 1]);
    assert Strip(s) == s;
    assert Lower(s) == s by {
      forall i | 0 <= i < |s| ensures LowerChar(s[i]) == s[i] {
      }
    }
  }

  /** No cell of that sheet holds a weight annotation: neither text has an equals sign. */
  lemma LabelOnlyNoAnnotation()
    ensures CellWeight(LabelOnly, 0, 0).None? && CellWeight(LabelOnly, 0, 1).None?
  {
    var s := WeightLabel;
    assert CellStr(At(LabelOnly, 0, 0)) == s;
    assert forall k :: 0 <= k < |s| ==> s[k] != '=';
    NoAnnotationWithoutEquals(s);
    assert CellStr(At(LabelOnly, 0, 1)) == "nan";
    NoAnnotationWithoutEquals("nan");
  }

  /** A weight annotation ends in an equals sign and a number, so text without an equals
      sign holds none. */
  lemma NoAnnotationWithoutEquals(s: string)
    requires forall k :: 0 <= k < |s| ==> s[k] != '='
    ensures WeightSearch(s).None?
  {
    forall i | 0 <= i < |s| ensures !Matches(WeightPat, s, i) {
    }
  }

  // ---------------------------------------------------------------------------
  // The weight of the panels

  /** A row is weighed when its length, width, thickness and quantity are all non-zero. */
  predicate Measured(row: ParsedRow) {
    row.length.Some? && row.length.value != 0 && row.width.Some? && row.width.value != 0
    && row.thickness.Some? && row.thickness.value != 0 && row.qty.Some? && row.qty.value != 0.0
  }

  /** The weight of all panels of one measured row, kg. */
  function RowWeight(row: ParsedRow): real
    requires Measured(row)
  {
    Volume(row.length.value, row.width.value, row.thickness.value)
      * Density(MaterialHint(row.name, row.material)) as real * row.qty.value
  }

  /** The summed weight of the measured rows. */
  function RowsWeight(rows: seq<ParsedRow>): real {
    if rows == [] then 0.0
    else
      var last := rows[|rows| - 1];
      RowsWeight(rows[..|rows| - 1]) + (if Measured(last) then RowWeight(last) else 0.0)
  }

  /** `_calculate_total_weight_by_rows`: the loop over the rows. */
  method WeightByRows(rows: seq<ParsedRow>) returns (total: real)
    ensures total == RowsWeight(rows)
  {
    total := 0.0;
    var i := 0;
    while i < |rows|
      invariant 0 <= i <= |rows|
      invariant total == RowsWeight(rows[..i])
    {
      var row := rows[i];
      if Measured(row) {
        var density := Density(MaterialHint(row.name, row.material));
        var volume := Volume(row.length.value, row.width.value, row.thickness.value);
        total := total + volume * density as real * row.qty.value;
      }
      assert rows[..i + 1][..i] == rows[..i];
      i := i + 1;
    }
    assert rows[..|rows|] == rows;
  }

  /** Panels with non-negative sizes and quantities weigh a non-negative amount. */
  predicate NonNegative(row: ParsedRow) {
    (row.length.Some? ==> row.length.value >= 0) && (row.width.Some? ==> row.width.value >= 0)
    && (row.thickness.Some? ==> row.thickness.value >= 0) && (row.qty.Some? ==> row.qty.value >= 0.0)
  }

  lemma {:induction false} RowsWeightNonNegative(rows: seq<ParsedRow>)
    requires forall i :: 0 <= i < |rows| ==> NonNegative(rows[i])
    ensures RowsWeight(rows) >= 0.0
  {
    if rows != [] {
      var last := rows[|rows| - 1];
      RowsWeightNonNegative(rows[..|rows| - 1]);
      if Measured(last) {
        assert NonNegative(last);
        DensityPositive(MaterialHint(last.name, last.material));
        var v := Volume(last.length.value, last.width.value, last.thickness.value);
        assert v >= 0.0 by { VolumeNonNegative(last.length.value, last.width.value, last.thickness.value); }
      }
    }
  }

  lemma VolumeNonNegative(l: int, w: int, t: int)
    requires l >= 0 && w >= 0 && t >= 0
    ensures Volume(l, w, t) >= 0.0
  {
    var (a, b, c) := (l as real / 1000.0, w as real / 1000.0, t as real / 1000.0);
    assert a * b >= 0.0;
  }

  lemma DensityPositive(hint: string)
    ensures Density(hint) > 0
  {
  }

  /** The weights of two runs of rows add up. */
  lemma {:induction false} RowsWeightAppend(a: seq<ParsedRow>, b: seq<ParsedRow>)
    ensures RowsWeight(a + b) == RowsWeight(a) + RowsWeight(b)
    decreases |b|
  {
    if b == [] {
      assert a + b == a;
    } else {
      var init := b[..|b| - 1];
      assert (a + b)[..|a + b| - 1] == a + init;
      RowsWeightAppend(a, init);
    }
  }

  /** Rows without a full set of sizes add nothing. */
  lemma {:induction false} UnmeasuredWeighNothing(rows: seq<ParsedRow>)
    requires forall i :: 0 <= i < |rows| ==> !Measured(rows[i])
    ensures RowsWeight(rows) == 0.0
  {
    if rows != [] {
      UnmeasuredWeighNothing(rows[..|rows| - 1]);
    }
  }

  // ---------------------------------------------------------------------------
  // The weight recorded in the specification

  /** `total_weight = _calculate_total_weight(df) or _calculate_total_weight_by_rows(rows)`,
      as written: NaN is truthy and is kept. */
  function SpecWeightAsWritten(df: Frame, rows: seq<ParsedRow>): PyNum {
    var w := TotalWeightAsWritten(df);
    if w == Finite(0.0) then Finite(RowsWeight(rows)) else w
  }

  /** The same with the intended reading of the sheet. */
  function SpecWeight(df: Frame, rows: seq<ParsedRow>): (w: real)
    ensures TotalWeight(df) != 0.0 ==> w == TotalWeight(df)
    ensures TotalWeight(df) == 0.0 ==> w == RowsWeight(rows)
  {
    var w := TotalWeight(df);
    if w == 0.0 then RowsWeight(rows) else w
  }

  /** Where the code as written yields a number it is the intended one. */
  lemma SpecWeightAgrees(df: Frame, rows: seq<ParsedRow>)
    ensures SpecWeightAsWritten(df, rows) != NaN ==> SpecWeightAsWritten(df, rows) == Finite(SpecWeight(df, rows))
  {
    WeightAgrees(df);
  }
}
