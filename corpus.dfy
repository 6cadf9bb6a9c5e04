/**
 * The corpus parts of a specification sheet: the header-driven parser, the
 * heuristic fallback, and the stage that picks between them.
 */
module CorpusParser {
  import opened Wrappers
  import opened Numeric
  import opened Text
  import opened Cells
  import opened Patterns
  import opened Materials
  import opened Records

  /** The cell at an optional column of a row, when there is one. */
  function CellAtOpt(row: seq<Cell>, idx: Option<nat>): Option<Cell> {
    if idx.Some? && idx.value < |row| then Some(row[idx.value]) else None
  }

  /** `int(float(v))` of a non-empty cell, None when it raises or the cell is absent. */
  function IntCell(c: Option<Cell>): Option<int> {
    if c.Some? && !IsNa(c.value) then CellIntViaFloat(c.value) else None
  }

  /** `float(v)` of a non-empty cell, None when it raises, gives NaN, or the cell is absent. */
  function QtyCell(c: Option<Cell>): Option<real> {
    if c.Some? && !IsNa(c.value) then CellReal(c.value) else None
  }

  /** The material of a part: the dictionary's, else the one the rules determine. */
  function ChooseMaterial(materialName: Option<string>, name: string, thickness: Option<int>, context: Option<string>)
    : (m: string)
    ensures m != ""
  {
    if materialName.Some? && materialName.value != "" then materialName.value
    else
      DetermineMaterialNonEmpty(name, thickness, context);
      DetermineMaterial(name, thickness, context)
  }

  // ---------------------------------------------------------------------------
  // _parse_corpus_rows_by_header

  /** A header row names a thickness, a length and a quantity. */
  predicate IsCorpusHeader(line: string) {
    (Contains(line, "тлщн") || Contains(line, "толщ")) && Contains(line, "длина")
    && (Contains(line, "кол-во") || Contains(line, "кол ") || Contains(line, "колич"))
  }

  /** Which rows of the sheet are corpus header rows. */
  function HeaderRows(df: Frame): nat -> bool {
    (r: nat) => r < |df.rows| && IsCorpusHeader(LowerRowText(df, r))
  }

  /** The first corpus header row of the sheet. */
  function CorpusHeaderRow(df: Frame): Option<nat> {
    FirstIndex(|df.rows|, HeaderRows(df))
  }

  /** The columns of the header-driven parser. */
  datatype HeaderColumns = HeaderColumns(name: nat, thick: Option<nat>, length: Option<nat>, width: Option<nat>, qty: Option<nat>)

  function HeaderColumnsOf(header: seq<string>): HeaderColumns {
    var name := FirstIndex(|header|, (i: nat) => i < |header| &&
      (ContainsAny(header[i], ["наимен", "детал", "плита"]) || header[i] == ""));
    HeaderColumns(name.GetOr(0), HeaderIndex(header, ["тлщн", "толщ"]), HeaderIndex(header, ["длина"]),
      HeaderIndex(header, ["ширина"]), HeaderIndex(header, ["кол-во", "кол"]))
  }

  /** Names the header parser skips. */
  const HeaderStopNames: seq<string> := ["nan", "итого", "пластик", "ткань", "фурнитура"]

  /** What data row `r` gives the header parser: a part when it has a name that is not a
      stop word and a non-zero thickness, length, width and quantity. */
  function HeaderRowAt(df: Frame, hc: HeaderColumns, dict: MaterialDict, r: nat): (p: Option<ParsedRow>)
    requires r < |df.rows|
  {
    var row := Row(df, r);
    var name := if hc.name < |row| then Strip(CellStr(row[hc.name])) else "";
    if name == "" || Lower(name) in HeaderStopNames then None
    else
      var (materialName, thickness) :=
        if hc.thick.Some? && hc.thick.value < |row| then ApplyMaterialFromCode(row, dict) else (None, None);
      var length := IntCell(CellAtOpt(row, hc.length));
      var width := IntCell(CellAtOpt(row, hc.width));
      var qty := QtyCell(CellAtOpt(row, hc.qty));
      var material := ChooseMaterial(materialName, name, thickness, Some(RowText(row)));
      if Truthy(thickness) && Truthy(length) && Truthy(width) && TruthyQty(qty) then
        Some(ParsedRow(name, thickness, length, width, qty, Some(material)))
      else None
  }

  /** The header parser's reading of every row. */
  function HeaderParts(df: Frame, hc: HeaderColumns, dict: MaterialDict): nat -> Option<ParsedRow> {
    (r: nat) => if r < |df.rows| then HeaderRowAt(df, hc, dict, r) else None
  }

  /** The columns the header parser reads from header row `h`. */
  function HeaderColumnsAt(df: Frame, h: nat): HeaderColumns
    requires h < |df.rows|
  {
    HeaderColumnsOf(LowerHeader(Row(df, h)))
  }

  /** The parts the header parser reads: none without a header row, else those of the rows
      below it. */
  function ByHeader(df: Frame, dict: MaterialDict): seq<ParsedRow> {
    match CorpusHeaderRow(df)
    case None => []
    case Some(h) => BelowHeader(df, dict, h)
  }

  /** The parts of the rows below header row `h`. */
  function BelowHeader(df: Frame, dict: MaterialDict, h: nat): seq<ParsedRow>
    requires h < |df.rows|
  {
    KeptFrom(|df.rows|, HeaderParts(df, HeaderColumnsAt(df, h), dict), h + 1)
  }

  /** `_parse_corpus_rows_by_header`. */
  method ParseCorpusRowsByHeader(df: Frame, dict: MaterialDict) returns (rows: seq<ParsedRow>)
    ensures rows == ByHeader(df, dict)
  {
    var found := FindFirst(|df.rows|, HeaderRows(df));
    if found.None? {
      return [];
    }
    rows := ParseBelowHeader(df, dict, found.value);
  }

  /** The data-row loop of the header parser. */
  method ParseBelowHeader(df: Frame, dict: MaterialDict, h: nat) returns (rows: seq<ParsedRow>)
    requires h < |df.rows|
    ensures rows == BelowHeader(df, dict, h)
  {
    var hc := HeaderColumnsAt(df, h);
    rows := CollectKept(|df.rows|, HeaderParts(df, hc, dict), h + 1);
  }

  /** What every part of the header parser satisfies. */
  predicate CompleteHeaderPart(p: ParsedRow) {
    Truthy(p.thickness) && Truthy(p.length) && Truthy(p.width) && TruthyQty(p.qty)
    && p.name != "" && Lower(p.name) !in HeaderStopNames && p.material.Some? && p.material.value != ""
  }

  /** A part the header parser reads has a non-zero thickness, length, width and quantity,
      a name that is not a stop word, and a material. */
  lemma HeaderRowComplete(df: Frame, hc: HeaderColumns, dict: MaterialDict, r: nat)
    requires r < |df.rows| && HeaderRowAt(df, hc, dict, r).Some?
    ensures CompleteHeaderPart(HeaderRowAt(df, hc, dict, r).value)
  {
  }

  /** Every part the header parser reads is complete. */
  lemma BelowHeaderComplete(df: Frame, dict: MaterialDict, h: nat, p: ParsedRow)
    requires h < |df.rows| && p in BelowHeader(df, dict, h)
    ensures CompleteHeaderPart(p)
  {
    var hc := HeaderColumnsAt(df, h);
    KeptFromMembers(|df.rows|, HeaderParts(df, hc, dict), h + 1, p);
    var r :| h + 1 <= r < |df.rows| && HeaderParts(df, hc, dict)(r) == Some(p);
    HeaderRowComplete(df, hc, dict, r);
  }

  // ---------------------------------------------------------------------------
  // _parse_corpus_rows_heuristic

  /** Words that mark the start of the parts table. */
  const StartKeywords: seq<string> := ["тлщн", "толщ", "thickness", "наимен", "детал", "плита", "дсп", "длин", "ширин"]

  /** Words of a totals row. */
  const TotalWords: seq<string> := ["итого", "всего", "total", "сумма"]

  /** Empty cells never count as numbers; others count when their text is all digits. */
  predicate IsNumberCell(c: Cell) {
    !IsNa(c) && IsDigitString(Strip(CellStr(c)))
  }

  /** The number of cells of a row that hold a whole number. */
  function NumericCount(row: seq<Cell>): (n: nat)
    ensures n <= |row|
  {
    if row == [] then 0
    else NumericCount(row[..|row| - 1]) + (if IsNumberCell(row[|row| - 1]) then 1 else 0)
  }

  /** The header row of the heuristic parser: the first of the first 100 rows with a table
      keyword, else the row before the first of the first 50 rows with two numbers, else 0. */
  function HeuristicStart(df: Frame): (s: nat)
    requires |df.rows| > 0
    ensures s < |df.rows|
  {
    var h := |df.rows|;
    match FirstIndex(Min(100, h), (r: nat) => r < h && ContainsAny(LowerRowText(df, r), StartKeywords))
    case Some(r) => r
    case None =>
      match FirstIndex(Min(50, h), (r: nat) => r < h && NumericCount(Row(df, r)) >= 2)
      case Some(r) => if r > 0 then r - 1 else 0
      case None => 0
  }

  /** The columns of the heuristic parser; the quantity defaults to column F or the last one. */
  datatype HeuristicColumns = HeuristicColumns(
    name: nat, length: Option<nat>, width: Option<nat>, size: Option<nat>, qty: int, material: Option<nat>)

  function HeuristicColumnsOf(header: seq<string>, width: nat): HeuristicColumns {
    var qty := FirstWithKeyword(header, ["кол", "кол-во", "количеств", "шт", "qty"]);
    HeuristicColumns(
      FirstWithKeyword(header, ["наимен", "плита", "детал", "описа", "назва"]).GetOr(0),
      FirstWithKeyword(header, ["длин", "length", "l"]),
      FirstWithKeyword(header, ["ширин", "width", "w"]),
      FirstWithKeyword(header, ["размер", "габ", "size"]),
      if qty.Some? then qty.value else Min(5, width - 1),
      FirstWithKeyword(header, ["матер", "мдф", "дсп", "material"]))
  }

  /** The header of the heuristic parser, empty cells read as "". */
  function FilledHeader(row: seq<Cell>): (h: seq<string>)
    ensures |h| == |row|
  {
    seq(|row|, i requires 0 <= i < |row| => FilledStr(row[i]))
  }

  /** A name cell that counts as empty. */
  predicate BlankName(c: Cell) {
    IsNa(c) || (c.Str? && Strip(c.s) == "")
  }

  /** The first size written in a text cell of the row, scanning from the left. */
  function FirstSizeInRow(row: seq<Cell>): (r: Option<(int, int)>)
    ensures r.Some? ==> exists c :: (0 <= c < |row| && row[c].Str? && ExtractSizeFromText(row[c].s) == r)
  {
    if row == [] then None
    else if row[0].Str? && ExtractSizeFromText(row[0].s).Some? then ExtractSizeFromText(row[0].s)
    else
      var r := FirstSizeInRow(row[1..]);
      if r.Some? then
        var c :| 0 <= c < |row[1..]| && row[1..][c].Str? && ExtractSizeFromText(row[1..][c].s) == r;
        assert row[c + 1] == row[1..][c];
        r
      else None
  }

  /** The strategy-3 loop: scan the row for a size. */
  method ScanRowForSize(row: seq<Cell>) returns (size: Option<(int, int)>)
    ensures size == FirstSizeInRow(row)
  {
    var c := 0;
    while c < |row|
      invariant 0 <= c <= |row|
      invariant FirstSizeInRow(row[c..]) == FirstSizeInRow(row)
    {
      var v := row[c];
      if v.Str? {
        var s := ExtractSizeFromText(v.s);
        if s.Some? {
          return s;
        }
      }
      assert row[c..][1..] == row[c + 1..];
      c := c + 1;
    }
    return None;
  }

  /** Strategy 1: the length and width columns. */
  function ColumnSizes(row: seq<Cell>, hc: HeuristicColumns): (Option<int>, Option<int>) {
    (IntCell(CellAtOpt(row, hc.length)), IntCell(CellAtOpt(row, hc.width)))
  }

  /** Strategy 2: while a size is missing, a text size column written "2800x600". */
  function SizeColumnFallback(row: seq<Cell>, hc: HeuristicColumns, sizes: (Option<int>, Option<int>))
    : (Option<int>, Option<int>)
  {
    var sv := CellAtOpt(row, hc.size);
    if (sizes.0.None? || sizes.1.None?) && sv.Some? && sv.value.Str? then
      match ExtractSizeFromText(sv.value.s)
      case Some((l, w)) => (Some(l), Some(w))
      case None => sizes
    else sizes
  }

  /** Strategy 3: while a size is still missing, the first size written anywhere in the row. */
  function ScanFallback(row: seq<Cell>, sizes: (Option<int>, Option<int>)): (Option<int>, Option<int>) {
    if sizes.0.None? || sizes.1.None? then
      match FirstSizeInRow(row)
      case Some((l, w)) => (Some(l), Some(w))
      case None => sizes
    else sizes
  }

  /** Length and width of a part: the three strategies in turn. */
  function SizesOf(row: seq<Cell>, hc: HeuristicColumns): (Option<int>, Option<int>) {
    ScanFallback(row, SizeColumnFallback(row, hc, ColumnSizes(row, hc)))
  }

  /** The three size strategies of the heuristic loop, the last with its scan of the row. */
  method ReadSizes(row: seq<Cell>, hc: HeuristicColumns) returns (sizes: (Option<int>, Option<int>))
    ensures sizes == SizesOf(row, hc)
  {
    sizes := ColumnSizes(row, hc);
    var sv := CellAtOpt(row, hc.size);
    if (sizes.0.None? || sizes.1.None?) && sv.Some? && sv.value.Str? {
      var size := ExtractSizeFromText(sv.value.s);
      if size.Some? {
        sizes := (Some(size.value.0), Some(size.value.1));
      }
    }
    assert sizes == SizeColumnFallback(row, hc, ColumnSizes(row, hc));
    if sizes.0.None? || sizes.1.None? {
      var size := ScanRowForSize(row);
      if size.Some? {
        sizes := (Some(size.value.0), Some(size.value.1));
      }
    }
  }

  /** The part a named data row gives the heuristic parser: kept when it has any of
      thickness, length, width and quantity. */
  function HeuristicRowOf(row: seq<Cell>, hc: HeuristicColumns, dict: MaterialDict, name: string): Option<ParsedRow> {
    var (materialName, thickness) := ApplyMaterialFromCode(row, dict);
    var (length, width) := SizesOf(row, hc);
    var qty := if 0 <= hc.qty then QtyCell(CellAtOpt(row, Some(hc.qty as nat))) else None;
    var mv := CellAtOpt(row, hc.material);
    var materialValue := if mv.Some? && !IsNa(mv.value) then Some(Strip(CellStr(mv.value))) else None;
    var material := ChooseMaterial(materialName, name, thickness,
      if materialValue.None? then Some(RowText(row)) else materialValue);
    if Truthy(thickness) || Truthy(length) || Truthy(width) || TruthyQty(qty) then
      Some(ParsedRow(name, thickness, length, width, qty, Some(material)))
    else None
  }

  /** How the heuristic parser treats a data row: an empty name, a totals row, or a named
      row with the part it gives, if any. */
  datatype RowKind = Blank | Totals | Named(part: Option<ParsedRow>)

  /** The heuristic parser's reading of row `r`. */
  function RowKindAt(df: Frame, hc: HeuristicColumns, dict: MaterialDict, r: nat): RowKind
    requires r < |df.rows|
  {
    var nameCell := At(df, r, hc.name);
    if BlankName(nameCell) then Blank
    else
      var name := Strip(CellStr(nameCell));
      if ContainsAny(Lower(name), TotalWords) then Totals
      else Named(HeuristicRowOf(Row(df, r), hc, dict, name))
  }

  /** The heuristic parser's reading of every row. */
  function RowKinds(df: Frame, hc: HeuristicColumns, dict: MaterialDict): nat -> RowKind {
    (r: nat) => if r < |df.rows| then RowKindAt(df, hc, dict, r) else Blank
  }

  /** Consecutive empty names that end the table. */
  const BlankRunEnd: nat := 5

  /** The parts of rows `r` up to `n`, `streak` empty names having been seen in a row just
      before: the table ends at the fifth empty name in a row, totals rows are skipped without
      ending a run of empty names, any other row ends the run. */
  function WalkFrom(n: nat, kind: nat -> RowKind, r: nat, streak: nat): seq<ParsedRow>
    decreases n - r
  {
    if r >= n then []
    else match kind(r)
      case Blank => if streak + 1 >= BlankRunEnd then [] else WalkFrom(n, kind, r + 1, streak + 1)
      case Totals => WalkFrom(n, kind, r + 1, streak)
      case Named(p) => (if p.Some? then [p.value] else []) + WalkFrom(n, kind, r + 1, 0)
  }

  /** The data-row loop of the heuristic parser with its run of empty names. */
  method WalkRows(n: nat, kind: nat -> RowKind, start: nat) returns (rows: seq<ParsedRow>)
    ensures rows == WalkFrom(n, kind, start, 0)
  {
    rows := [];
    var streak := 0;
    var r := start;
    while r < n
      invariant start <= r
      invariant rows + WalkFrom(n, kind, r, streak) == WalkFrom(n, kind, start, 0)
      decreases n - r
    {
      match kind(r) {
        case Blank =>
          streak := streak + 1;
          if streak >= BlankRunEnd {
            assert rows == WalkFrom(n, kind, start, 0);
            break;
          }
        case Totals =>
        case Named(p) =>
          streak := 0;
          if p.Some? {
            rows := rows + [p.value];
          }
      }
      r := r + 1;
    }
  }

  /** The parts of a sheet the heuristic parser reads. */
  function Heuristic(df: Frame, dict: MaterialDict): seq<ParsedRow>
    requires |df.rows| > 0
  {
    HeuristicBelow(df, dict, HeuristicStart(df))
  }

  /** The parts the heuristic parser reads below its header row `start`. */
  function HeuristicBelow(df: Frame, dict: MaterialDict, start: nat): seq<ParsedRow>
    requires start < |df.rows|
  {
    WalkFrom(|df.rows|, RowKinds(df, HeuristicColumnsAt(df, start), dict), start + 1, 0)
  }

  /** The columns the heuristic parser reads from header row `start`. */
  function HeuristicColumnsAt(df: Frame, start: nat): HeuristicColumns
    requires start < |df.rows|
  {
    HeuristicColumnsOf(FilledHeader(Row(df, start)), df.width)
  }

  /** The start-row search of the heuristic parser. */
  method FindHeuristicStart(df: Frame) returns (start: nat)
    requires |df.rows| > 0
    ensures start == HeuristicStart(df) && start < |df.rows|
  {
    var h := |df.rows|;
    var found := FindFirst(Min(100, h), (r: nat) => r < h && ContainsAny(LowerRowText(df, r), StartKeywords));
    if found.Some? {
      return found.value;
    }
    var numeric := FindFirst(Min(50, h), (r: nat) => r < h && NumericCount(Row(df, r)) >= 2);
    start := if numeric.Some? && numeric.value > 0 then numeric.value - 1 else 0;
  }

  /** `_parse_corpus_rows_heuristic`. */
  method ParseCorpusRowsHeuristic(df: Frame, dict: MaterialDict) returns (rows: seq<ParsedRow>)
    requires |df.rows| > 0
    ensures rows == Heuristic(df, dict)
  {
    var start := FindHeuristicStart(df);
    rows := ParseBelowStart(df, dict, start);
  }

  /** The data-row loop of the heuristic parser. */
  method ParseBelowStart(df: Frame, dict: MaterialDict, start: nat) returns (rows: seq<ParsedRow>)
    requires start < |df.rows|
    ensures rows == HeuristicBelow(df, dict, start)
  {
    var hc := HeuristicColumnsAt(df, start);
    rows := WalkRows(|df.rows|, RowKinds(df, hc, dict), start + 1);
  }

  /** The body of the heuristic loop: how row `r` is read, with the row scan for a size. */
  method ClassifyRow(df: Frame, hc: HeuristicColumns, dict: MaterialDict, r: nat) returns (kind: RowKind)
    requires r < |df.rows|
    ensures kind == RowKindAt(df, hc, dict, r)
  {
    var nameCell := At(df, r, hc.name);
    if BlankName(nameCell) {
      return Blank;
    }
    var name := Strip(CellStr(nameCell));
    if ContainsAny(Lower(name), TotalWords) {
      return Totals;
    }
    var p := HeuristicPart(Row(df, r), hc, dict, name);
    return Named(p);
  }

  /** The body of the heuristic loop for a named row, with its row scan. */
  method HeuristicPart(row: seq<Cell>, hc: HeuristicColumns, dict: MaterialDict, name: string) returns (p: Option<ParsedRow>)
    ensures p == HeuristicRowOf(row, hc, dict, name)
  {
    var (materialName, thickness) := ApplyMaterialFromCode(row, dict);
    var sizes := ReadSizes(row, hc);
    var (length, width) := sizes;
    var qty := if 0 <= hc.qty then QtyCell(CellAtOpt(row, Some(hc.qty as nat))) else None;
    var mv := CellAtOpt(row, hc.material);
    var materialValue := if mv.Some? && !IsNa(mv.value) then Some(Strip(CellStr(mv.value))) else None;
    var material := ChooseMaterial(materialName, name, thickness,
      if materialValue.None? then Some(RowText(row)) else materialValue);
    p := if Truthy(thickness) || Truthy(length) || Truthy(width) || TruthyQty(qty) then
      Some(ParsedRow(name, thickness, length, width, qty, Some(material)))
    else None;
  }

  /** What every part of the heuristic parser satisfies. */
  predicate MeaningfulPart(p: ParsedRow) {
    p.name != "" && !ContainsAny(Lower(p.name), TotalWords) && p.material.Some? && p.material.value != ""
    && (Truthy(p.thickness) || Truthy(p.length) || Truthy(p.width) || TruthyQty(p.qty))
  }

  /** A part the heuristic parser reads from a row has a name that is not blank and not a
      totals row, a material, and at least one of thickness, length, width and quantity. */
  lemma RowPartMeaningful(df: Frame, hc: HeuristicColumns, dict: MaterialDict, r: nat)
    requires r < |df.rows| && RowKindAt(df, hc, dict, r).Named? && RowKindAt(df, hc, dict, r).part.Some?
    ensures MeaningfulPart(RowKindAt(df, hc, dict, r).part.value)
  {
    StripNotBlank(At(df, r, hc.name));
  }

  /** A part of the walk comes from a named row of the range. */
  lemma {:induction false} WalkFromMembers(n: nat, kind: nat -> RowKind, r: nat, streak: nat, p: ParsedRow)
    requires p in WalkFrom(n, kind, r, streak)
    ensures exists j :: r <= j < n && kind(j) == Named(Some(p))
    decreases n - r
  {
    if r < n {
      match kind(r)
      case Blank =>
        WalkFromMembers(n, kind, r + 1, streak + 1, p);
      case Totals =>
        WalkFromMembers(n, kind, r + 1, streak, p);
      case Named(q) =>
        if q != Some(p) {
          WalkFromMembers(n, kind, r + 1, 0, p);
        }
    }
  }

  /** Every part the heuristic parser reads is meaningful. */
  lemma HeuristicMeaningful(df: Frame, dict: MaterialDict, start: nat, p: ParsedRow)
    requires start < |df.rows| && p in HeuristicBelow(df, dict, start)
    ensures MeaningfulPart(p)
  {
    var hc := HeuristicColumnsAt(df, start);
    WalkFromMembers(|df.rows|, RowKinds(df, hc, dict), start + 1, 0, p);
    var j :| start + 1 <= j < |df.rows| && RowKinds(df, hc, dict)(j) == Named(Some(p));
    RowPartMeaningful(df, hc, dict, j);
  }

  /** A name cell that is not blank reads as a non-empty stripped text. */
  lemma StripNotBlank(c: Cell)
    requires !BlankName(c)
    ensures Strip(CellStr(c)) != ""
  {
    match c
    case Str(s) =>
    case Int(i) =>
      var sign, d := IntTextParts(i);
      StripDigits(d, sign);
    case Float(x) =>
      var t := FloatText(x);
      var tr := Trunc(x);
      var d := NatToString(if tr < 0 then -tr else tr);
      assert t[0] == (if x < 0.0 then '-' else d[0]);
      assert t[|t| - 1] == '0';
  }

  // ---------------------------------------------------------------------------
  // _parse_corpus_rows

  /** A part named with "фанера" and without a material becomes plywood. */
  function BackfillPlywood(r: ParsedRow): ParsedRow {
    if r.name != "" && Contains(Lower(r.name), "фанера") && (r.material.None? || r.material.value == "")
    then r.(material := Some("фанера"))
    else r
  }

  function BackfillAll(rows: seq<ParsedRow>): (r: seq<ParsedRow>)
    ensures |r| == |rows| && forall i :: 0 <= i < |rows| ==> r[i] == BackfillPlywood(rows[i])
  {
    seq(|rows|, i requires 0 <= i < |rows| => BackfillPlywood(rows[i]))
  }

  /** The parts of a sheet: by header, else by heuristic, then the plywood backfill. */
  function ParsedCorpus(df: Frame): seq<ParsedRow>
    requires |df.rows| > 0
  {
    var dict := Fold(DictRows(df));
    var byHeader := ByHeader(df, dict);
    BackfillAll(if byHeader != [] then byHeader else Heuristic(df, dict))
  }

  /** `_parse_corpus_rows`. */
  method ParseCorpusRows(df: Frame) returns (rows: seq<ParsedRow>)
    requires |df.rows| > 0
    ensures rows == ParsedCorpus(df)
  {
    var dict := ParseMaterialDictionary(df);
    rows := ParseCorpusRowsByHeader(df, dict);
    if rows == [] {
      rows := ParseCorpusRowsHeuristic(df, dict);
    }
    rows := Backfill(rows);
  }

  /** The plywood backfill loop, updating the parts in place. */
  method Backfill(parsed: seq<ParsedRow>) returns (rows: seq<ParsedRow>)
    ensures rows == BackfillAll(parsed)
  {
    rows := parsed;
    var i := 0;
    while i < |rows|
      invariant 0 <= i <= |rows| == |parsed|
      invariant forall j :: 0 <= j < i ==> rows[j] == BackfillPlywood(parsed[j])
      invariant forall j :: i <= j < |rows| ==> rows[j] == parsed[j]
    {
      var r := rows[i];
      if r.name != "" && Contains(Lower(r.name), "фанера") && (r.material.None? || r.material.value == "") {
        rows := rows[i := r.(material := Some("фанера"))];
      }
      i := i + 1;
    }
  }

  /** Both parsers always give a part a material, so the plywood backfill changes nothing:
      the parts are those of the header parser when it finds any, else the heuristic's. */
  lemma BackfillChangesNothing(df: Frame)
    requires |df.rows| > 0
    ensures var dict := Fold(DictRows(df));
      var byHeader := ByHeader(df, dict);
      ParsedCorpus(df) == (if byHeader != [] then byHeader else Heuristic(df, dict))
  {
    var dict := Fold(DictRows(df));
    var byHeader := ByHeader(df, dict);
    var rows := if byHeader != [] then byHeader else Heuristic(df, dict);
    forall i | 0 <= i < |rows|
      ensures BackfillPlywood(rows[i]) == rows[i]
    {
      if byHeader != [] {
        BelowHeaderComplete(df, dict, CorpusHeaderRow(df).value, rows[i]);
      } else {
        HeuristicMeaningful(df, dict, HeuristicStart(df), rows[i]);
      }
    }
  }
}
