/**
 * The cabinet's overall geometry, read from the sheet and its corpus parts by
 * a ladder of strategies: the dimensions in cell A43, a W×D×H size in a part
 * name, the first back panel, the most frequent sizes, and a fixed default.
 */
module Geometry {
  import opened Wrappers
  import opened Numeric
  import opened Text
  import opened Cells
  import opened Patterns
  import opened Records

  /** Total width, depth, height, number of sections and section width, in millimetres. */
  datatype Geometry = Geometry(widthTotal: int, depth: int, height: int, sections: int, sectionWidth: int)

  /** The geometry used when no strategy finds a height. */
  const DefaultGeometry := Geometry(3000, 600, 2800, 3, 1000)

  // ---------------------------------------------------------------------------
  // Strategy 0: cell A43

  /** `_extract_dimensions_from_cell`: a W*D*H text in cell A43, if the sheet reaches it. */
  function A43Dims(df: Frame): Option<(int, int, int)> {
    if 42 < |df.rows| && 0 < df.width && At(df, 42, 0).Str? then DimsSearch(At(df, 42, 0).s) else None
  }

  /** A back panel with a quantity. */
  predicate IsBackWall(r: ParsedRow) {
    r.name != "" && Contains(Lower(r.name), "задн") && TruthyQty(r.qty)
  }

  /** The first row that satisfies `p`. */
  function FirstWhere(rows: seq<ParsedRow>, p: ParsedRow -> bool): (r: Option<ParsedRow>)
    ensures r.Some? ==> exists i :: 0 <= i < |rows| && rows[i] == r.value && p(rows[i])
                          && forall j :: 0 <= j < i ==> !p(rows[j])
    ensures r.None? <==> forall i :: 0 <= i < |rows| ==> !p(rows[i])
  {
    if rows == [] then None
    else if p(rows[0]) then Some(rows[0])
    else
      var r := FirstWhere(rows[1..], p);
      assert forall j :: 1 <= j < |rows| ==> rows[j] == rows[1..][j - 1];
      r
  }

  /** The sections are the first back panel's quantity, truncated, else one; the section
      width is the total width divided by them, or the total width when there are none. */
  function FromA43(dims: (int, int, int), rows: seq<ParsedRow>): Geometry {
    var (w, d, h) := dims;
    var bw := FirstWhere(rows, IsBackWall);
    var sections := if bw.Some? then Trunc(bw.value.qty.value) else 1;
    Geometry(w, d, h, sections, if sections != 0 then FloorDiv(w, sections) else w)
  }

  // ---------------------------------------------------------------------------
  // Strategy 1: a W×D×H size in a part name

  /** A part whose name holds a W×D×H size. */
  predicate HasGabarit(r: ParsedRow) {
    r.name != "" && GabaritSearch(r.name).Some?
  }

  /** The size in the first part name that has one. */
  function GabaritOfRows(rows: seq<ParsedRow>): (r: Option<(int, int, int)>)
    ensures r.Some? <==> exists i :: 0 <= i < |rows| && HasGabarit(rows[i])
    ensures r.Some? ==> exists i :: (0 <= i < |rows| && GabaritSearch(rows[i].name) == r
                                     && forall j :: 0 <= j < i ==> !HasGabarit(rows[j]))
  {
    match FirstWhere(rows, HasGabarit)
    case Some(row) => GabaritSearch(row.name)
    case None => None
  }

  /** The search loop of strategy 1. */
  method FindGabaritRow(rows: seq<ParsedRow>) returns (dims: Option<(int, int, int)>)
    ensures dims == GabaritOfRows(rows)
  {
    var i := 0;
    assert rows[0..] == rows;
    while i < |rows|
      invariant 0 <= i <= |rows|
      invariant GabaritOfRows(rows[i..]) == GabaritOfRows(rows)
    {
      var row := rows[i];
      GabaritStep(rows, i);
      if row.name != "" {
        var m := GabaritSearch(row.name);
        if m.Some? {
          return m;
        }
      }
      i := i + 1;
    }
    assert rows[i..] == [];
    return None;
  }

  /** One step of the search: a row with a size gives it, a row without passes the
      search on. */
  lemma GabaritStep(rows: seq<ParsedRow>, i: nat)
    requires i < |rows|
    ensures HasGabarit(rows[i]) ==> GabaritOfRows(rows[i..]) == GabaritSearch(rows[i].name)
    ensures !HasGabarit(rows[i]) ==> GabaritOfRows(rows[i..]) == GabaritOfRows(rows[i + 1..])
  {
    assert rows[i..][0] == rows[i] && rows[i..][1..] == rows[i + 1..];
  }

  /** Strategy 1 as written: the sections are the first back panel's quantity, truncated, and
      the section width the width floor-divided by them, which raises when the quantity lies
      strictly between -1 and 1. */
  function FromGabaritAsWritten(dims: (int, int, int), rows: seq<ParsedRow>): Result<Geometry, string> {
    var (w, d, h) := dims;
    var bw := FirstWhere(rows, IsBackWall);
    if bw.None? then Success(Geometry(w, d, h, 1, w))
    else
      var sections := Trunc(bw.value.qty.value);
      if sections == 0 then Failure("ZeroDivisionError") else Success(Geometry(w, d, h, sections, FloorDiv(w, sections)))
  }

  /** Strategy 1 corrected with the guard strategy 0 has: no sections leave the width whole. */
  function FromGabarit(dims: (int, int, int), rows: seq<ParsedRow>): Geometry {
    var (w, d, h) := dims;
    var bw := FirstWhere(rows, IsBackWall);
    if bw.None? then Geometry(w, d, h, 1, w)
    else
      var sections := Trunc(bw.value.qty.value);
      Geometry(w, d, h, sections, if sections != 0 then FloorDiv(w, sections) else w)
  }

  // ---------------------------------------------------------------------------
  // Strategy 2: the first back panel with sizes

  /** A back panel with a length, a width and a quantity. */
  predicate IsMeasuredBackWall(r: ParsedRow) {
    IsBackWall(r) && Truthy(r.length) && Truthy(r.width)
  }

  /** A top or bottom panel whose width could be the depth. */
  predicate IsTopBottom(r: ParsedRow) {
    r.name != "" && ContainsAny(Lower(r.name), ["крышк", "дно", "top", "bottom"])
    && Truthy(r.width) && 300 <= r.width.value <= 800
  }

  /** The back panel is a section's height by its width, one per section; the depth is the
      width of the first top or bottom panel between 300 and 800 mm, else 600. */
  function FromBackWall(bw: ParsedRow, rows: seq<ParsedRow>): Geometry
    requires IsMeasuredBackWall(bw)
  {
    var sections := Trunc(bw.qty.value);
    var tb := FirstWhere(rows, IsTopBottom);
    Geometry(bw.width.value * sections, if tb.Some? then tb.value.width.value else 600,
      bw.length.value, sections, bw.width.value)
  }

  // ---------------------------------------------------------------------------
  // Strategy 3: the most frequent sizes

  /** The number of occurrences of `x` in `s`. */
  function Count(s: seq<int>, x: int): nat {
    if s == [] then 0 else Count(s[..|s| - 1], x) + (if s[|s| - 1] == x then 1 else 0)
  }

  /** `m` occurs in `s` at least as often as any other value. */
  predicate IsMode(s: seq<int>, m: int) {
    m in s && forall y :: y in s ==> Count(s, y) <= Count(s, m)
  }

  /** A value of `c` that occurs most often in `s`. */
  function MostFrequentIn(s: seq<int>, c: seq<int>): (m: int)
    requires c != []
    ensures m in c && forall y :: y in c ==> Count(s, y) <= Count(s, m)
  {
    if |c| == 1 then c[0]
    else
      var b := MostFrequentIn(s, c[1..]);
      if Count(s, c[0]) >= Count(s, b) then c[0] else b
  }

  /** `max(set(s), key=s.count)`: some most frequent value. The source breaks ties by the
      iteration order of a set; this one picks the first of them in `s`. */
  function Mode(s: seq<int>): (m: int)
    requires s != []
    ensures IsMode(s, m)
  {
    MostFrequentIn(s, s)
  }

  /** Lengths of 2000 to 3000 mm, of parts with a length and a width. */
  function Heights(rows: seq<ParsedRow>): seq<int> {
    if rows == [] then []
    else
      var r := rows[|rows| - 1];
      Heights(rows[..|rows| - 1])
        + (if Truthy(r.length) && Truthy(r.width) && 2000 <= r.length.value <= 3000 then [r.length.value] else [])
  }

  /** Widths of 300 to 700 mm, of parts with a length and a width. */
  function Depths(rows: seq<ParsedRow>): seq<int> {
    if rows == [] then []
    else
      var r := rows[|rows| - 1];
      Depths(rows[..|rows| - 1])
        + (if Truthy(r.length) && Truthy(r.width) && 300 <= r.width.value <= 700 then [r.width.value] else [])
  }

  /** Widths of 600 to 1200 mm, of parts with a length and a width. */
  function SectionWidths(rows: seq<ParsedRow>): seq<int> {
    if rows == [] then []
    else
      var r := rows[|rows| - 1];
      SectionWidths(rows[..|rows| - 1])
        + (if Truthy(r.length) && Truthy(r.width) && 600 <= r.width.value <= 1200 then [r.width.value] else [])
  }

  /** Lengths over 1500 mm, of parts with a length. */
  function TallLengths(rows: seq<ParsedRow>): seq<int> {
    if rows == [] then []
    else
      var r := rows[|rows| - 1];
      TallLengths(rows[..|rows| - 1]) + (if Truthy(r.length) && r.length.value > 1500 then [r.length.value] else [])
  }

  /** The bucket loop of strategy 3. */
  method CollectBuckets(rows: seq<ParsedRow>) returns (heights: seq<int>, depths: seq<int>, widths: seq<int>)
    ensures heights == Heights(rows) && depths == Depths(rows) && widths == SectionWidths(rows)
  {
    heights, depths, widths := [], [], [];
    var i := 0;
    while i < |rows|
      invariant 0 <= i <= |rows|
      invariant heights == Heights(rows[..i]) && depths == Depths(rows[..i]) && widths == SectionWidths(rows[..i])
    {
      var r := rows[i];
      assert rows[..i + 1][..i] == rows[..i];
      if Truthy(r.length) && Truthy(r.width) {
        if 2000 <= r.length.value <= 3000 {
          heights := heights + [r.length.value];
        }
        if 300 <= r.width.value <= 700 {
          depths := depths + [r.width.value];
        }
        if 600 <= r.width.value <= 1200 {
          widths := widths + [r.width.value];
        }
      }
      i := i + 1;
    }
    assert rows[..|rows|] == rows;
  }

  /** The fallback loop of strategy 3 for lengths over 1500 mm. */
  method CollectTallLengths(rows: seq<ParsedRow>) returns (heights: seq<int>)
    ensures heights == TallLengths(rows)
  {
    heights := [];
    var i := 0;
    while i < |rows|
      invariant 0 <= i <= |rows|
      invariant heights == TallLengths(rows[..i])
    {
      var r := rows[i];
      assert rows[..i + 1][..i] == rows[..i];
      if Truthy(r.length) && r.length.value > 1500 {
        heights := heights + [r.length.value];
      }
      i := i + 1;
    }
    assert rows[..|rows|] == rows;
  }

  /** A top or bottom panel with a quantity. */
  predicate IsLid(r: ParsedRow) {
    r.name != "" && ContainsAny(Lower(r.name), ["крышк", "дно"]) && TruthyQty(r.qty)
  }

  /** `max(1, int(qty / 2))` for the first top or bottom panel, one without one: half the
      quantity rounded down, and at least one. */
  function LidSections(lid: Option<ParsedRow>): (n: int)
    requires lid.Some? ==> IsLid(lid.value)
    ensures lid.None? || lid.value.qty.value < 2.0 ==> n == 1
    ensures lid.Some? && lid.value.qty.value >= 2.0 ==>
              (2 * n) as real <= lid.value.qty.value < (2 * n + 2) as real
  {
    if lid.Some? then Max(1, Trunc(lid.value.qty.value / 2.0)) else 1
  }

  /** Strategy 3 from its height candidates: the most frequent height, depth and section
      width, and half the first top or bottom panel's quantity as sections, at least one. */
  function FromBuckets(heights: seq<int>, rows: seq<ParsedRow>): Geometry
    requires heights != []
  {
    var depths := Depths(rows);
    var widths := SectionWidths(rows);
    var sectionWidth := if widths != [] then Mode(widths) else 1000;
    var sections := LidSections(FirstWhere(rows, IsLid));
    Geometry(sectionWidth * sections, if depths != [] then Mode(depths) else 600, Mode(heights), sections, sectionWidth)
  }

  /** Strategy 3 and the default. */
  function FromSizes(rows: seq<ParsedRow>): Geometry {
    var heights := if Heights(rows) != [] then Heights(rows) else TallLengths(rows);
    if heights == [] then DefaultGeometry else FromBuckets(heights, rows)
  }

  // ---------------------------------------------------------------------------
  // The ladder

  /** `_infer_geometry_smart` as written. */
  function InferGeometryAsWritten(df: Frame, rows: seq<ParsedRow>): Result<Geometry, string> {
    if A43Dims(df).Some? then Success(FromA43(A43Dims(df).value, rows))
    else if GabaritOfRows(rows).Some? then FromGabaritAsWritten(GabaritOfRows(rows).value, rows)
    else match FirstWhere(rows, IsMeasuredBackWall)
      case Some(bw) => Success(FromBackWall(bw, rows))
      case None => Success(FromSizes(rows))
  }

  /** `_infer_geometry_smart` with strategy 1 corrected. */
  function InferGeometry(df: Frame, rows: seq<ParsedRow>): Geometry {
    if A43Dims(df).Some? then FromA43(A43Dims(df).value, rows)
    else if GabaritOfRows(rows).Some? then FromGabarit(GabaritOfRows(rows).value, rows)
    else match FirstWhere(rows, IsMeasuredBackWall)
      case Some(bw) => FromBackWall(bw, rows)
      case None => FromSizes(rows)
  }

  /** The strategy-3 part of `_infer_geometry_smart`, with its two loops. */
  method GeometryFromSizes(rows: seq<ParsedRow>) returns (g: Geometry)
    ensures g == FromSizes(rows)
  {
    var heights, depths, widths := CollectBuckets(rows);
    if heights == [] {
      heights := CollectTallLengths(rows);
      if heights == [] {
        return DefaultGeometry;
      }
    }
    g := FromBuckets(heights, rows);
  }

  /** `_infer_geometry_smart`, raising where the source raises. */
  method InferGeometrySmart(df: Frame, rows: seq<ParsedRow>) returns (g: Result<Geometry, string>)
    ensures g == InferGeometryAsWritten(df, rows)
  {
    var dims := A43Dims(df);
    if dims.Some? {
      return Success(FromA43(dims.value, rows));
    }
    var gabarit := FindGabaritRow(rows);
    if gabarit.Some? {
      return FromGabaritAsWritten(gabarit.value, rows);
    }
    var bw := FirstWhere(rows, IsMeasuredBackWall);
    if bw.Some? {
      return Success(FromBackWall(bw.value, rows));
    }
    var sized := GeometryFromSizes(rows);
    return Success(sized);
  }

  // ---------------------------------------------------------------------------
  // Properties

  /** The corrected ladder agrees with the source wherever the source does not raise, and the
      source raises only in strategy 1, when the first back panel's quantity truncates to 0. */
  lemma GeometryAgrees(df: Frame, rows: seq<ParsedRow>)
    ensures InferGeometryAsWritten(df, rows).Success? ==> InferGeometryAsWritten(df, rows).value == InferGeometry(df, rows)
    ensures InferGeometryAsWritten(df, rows).Failure? <==>
      A43Dims(df).None? && GabaritOfRows(rows).Some? && FirstWhere(rows, IsBackWall).Some?
      && Trunc(FirstWhere(rows, IsBackWall).value.qty.value) == 0
  {
  }

  /** A cabinet named "2400x600x2500" whose back panel has quantity 0.5 makes strategy 1 divide
      by zero, while the corrected ladder keeps the whole width as one section width. */
  lemma GeometryZeroDivision()
    ensures var rows := [ParsedRow(GabaritName, None, None, None, None, None), HalfBackWall];
      InferGeometryAsWritten(Frame([], 0), rows).Failure?
      && InferGeometry(Frame([], 0), rows) == Geometry(2400, 600, 2500, 0, 2400)
  {
    var gabarit := ParsedRow(GabaritName, None, None, None, None, None);
    var rows := [gabarit, HalfBackWall];
    GabaritOfWritten(2400, 600, 2500);
    assert GabaritOfRows(rows) == Some((2400, 600, 2500));
    HalfBackWallIsBackWall();
    assert !IsBackWall(gabarit);
    assert FirstWhere(rows, IsBackWall) == Some(HalfBackWall);
    assert Trunc(0.5) == 0;
  }

  /** The part name "2400x600x2500". */
  const GabaritName := NatToString(2400) + "x" + NatToString(600) + "x" + NatToString(2500)

  /** A back panel with half a piece. */
  const HalfBackWall := ParsedRow("задняя стенка", None, None, None, Some(0.5), None)

  lemma HalfBackWallIsBackWall()
    ensures IsBackWall(HalfBackWall)
  {
    var lowered := Lower(HalfBackWall.name);
    assert lowered[..4] == "задн";
    assert StartsWith(lowered, "задн");
  }

  /** The dimensions in cell A43 take precedence; the sections are the truncated quantity of
      the first back panel, or one without one, and zero sections leave the width whole. */
  lemma A43First(df: Frame, rows: seq<ParsedRow>)
    requires A43Dims(df).Some?
    ensures var g := InferGeometry(df, rows);
      var (w, d, h) := A43Dims(df).value;
      g.widthTotal == w && g.depth == d && g.height == h
      && (FirstWhere(rows, IsBackWall).None? ==> g.sections == 1 && g.sectionWidth == w)
      && (FirstWhere(rows, IsBackWall).Some? ==> g.sections == Trunc(FirstWhere(rows, IsBackWall).value.qty.value))
      && (g.sections == 0 ==> g.sectionWidth == w)
      && (g.sections > 0 ==> g.sectionWidth * g.sections <= w < g.sectionWidth * g.sections + g.sections)
  {
  }

  /** Strategy 2: the total width is the back panel's width times the sections, the height
      its length, and the depth a top or bottom width between 300 and 800 mm, else 600. */
  lemma BackWallGeometry(df: Frame, rows: seq<ParsedRow>)
    requires A43Dims(df).None? && GabaritOfRows(rows).None? && FirstWhere(rows, IsMeasuredBackWall).Some?
    ensures var bw := FirstWhere(rows, IsMeasuredBackWall).value;
      var g := InferGeometry(df, rows);
      g.widthTotal == g.sectionWidth * g.sections && g.height == bw.length.value
      && g.sectionWidth == bw.width.value && (300 <= g.depth <= 800 || g.depth == 600)
  {
  }

  /** Strategy 3: the height is a most frequent value of the height bucket, or of the lengths
      over 1500 mm when that bucket is empty; the depth and section width are most frequent
      values of their buckets, else 600 and 1000; the sections are half the first top or
      bottom panel's quantity, truncated and at least one, else one. */
  lemma BucketGeometry(df: Frame, rows: seq<ParsedRow>)
    requires A43Dims(df).None? && GabaritOfRows(rows).None? && FirstWhere(rows, IsMeasuredBackWall).None?
    requires TallLengths(rows) != []
    ensures var g := InferGeometry(df, rows);
      g.sections >= 1 && g.widthTotal == g.sectionWidth * g.sections
      && (Heights(rows) != [] ==> IsMode(Heights(rows), g.height))
      && (Heights(rows) == [] ==> IsMode(TallLengths(rows), g.height))
      && (Depths(rows) != [] ==> IsMode(Depths(rows), g.depth)) && (Depths(rows) == [] ==> g.depth == 600)
      && (SectionWidths(rows) != [] ==> IsMode(SectionWidths(rows), g.sectionWidth))
      && (SectionWidths(rows) == [] ==> g.sectionWidth == 1000)
      && g.sections == LidSections(FirstWhere(rows, IsLid))
  {
    assert InferGeometry(df, rows) == FromSizes(rows);
    BucketsChosen(if Heights(rows) != [] then Heights(rows) else TallLengths(rows), rows);
  }

  /** Strategy 3 from its height candidates, bucket by bucket. */
  lemma BucketsChosen(heights: seq<int>, rows: seq<ParsedRow>)
    requires heights != []
    ensures var g := FromBuckets(heights, rows);
      g.sections >= 1 && g.widthTotal == g.sectionWidth * g.sections && IsMode(heights, g.height)
      && (Depths(rows) != [] ==> IsMode(Depths(rows), g.depth)) && (Depths(rows) == [] ==> g.depth == 600)
      && (SectionWidths(rows) != [] ==> IsMode(SectionWidths(rows), g.sectionWidth))
      && (SectionWidths(rows) == [] ==> g.sectionWidth == 1000)
      && g.sections == LidSections(FirstWhere(rows, IsLid))
  {
  }

  /** Every length of a strategy-3 height bucket is over 1500 mm. */
  lemma {:induction false} HeightsAreTall(rows: seq<ParsedRow>)
    ensures forall x :: x in Heights(rows) ==> x in TallLengths(rows)
    ensures TallLengths(rows) == [] ==> Heights(rows) == []
  {
    if rows != [] {
      HeightsAreTall(rows[..|rows| - 1]);
    }
  }

  /** With no part longer than 1500 mm and none of the earlier strategies applying, the
      geometry is the default 3000 × 600 × 2800 with three sections of 1000. */
  lemma DefaultWithoutTallParts(df: Frame, rows: seq<ParsedRow>)
    requires A43Dims(df).None? && GabaritOfRows(rows).None? && FirstWhere(rows, IsMeasuredBackWall).None?
    requires forall i :: 0 <= i < |rows| && rows[i].length.Some? ==> rows[i].length.value <= 1500
    ensures InferGeometry(df, rows) == DefaultGeometry
  {
    SizesDefault(rows);
  }

  /** Strategy 3 falls back to the default when no part is longer than 1500 mm. */
  lemma SizesDefault(rows: seq<ParsedRow>)
    requires forall i :: 0 <= i < |rows| && rows[i].length.Some? ==> rows[i].length.value <= 1500
    ensures FromSizes(rows) == DefaultGeometry
  {
    NoTallLengths(rows);
    HeightsAreTall(rows);
  }

  lemma {:induction false} NoTallLengths(rows: seq<ParsedRow>)
    requires forall i :: 0 <= i < |rows| && rows[i].length.Some? ==> rows[i].length.value <= 1500
    ensures TallLengths(rows) == []
  {
    if rows != [] {
      NoTallLengths(rows[..|rows| - 1]);
    }
  }
}
