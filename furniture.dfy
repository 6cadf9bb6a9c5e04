/**
 * The hardware lines of a specification sheet: the table under the row that
 * names the hardware code or the hardware name column.
 */
module FurnitureParser {
  import opened Wrappers
  import opened Text
  import opened Cells
  import opened Records

  /** A hardware header row names the code or the name column of the hardware table. */
  predicate IsFurnitureHeader(line: string) {
    Contains(line, "код фурнитуры") || Contains(line, "наименование фурнитуры")
  }

  /** Which rows of the sheet are hardware header rows. */
  function FurnitureHeaderRows(df: Frame): nat -> bool {
    (r: nat) => r < |df.rows| && IsFurnitureHeader(LowerRowText(df, r))
  }

  /** The first hardware header row of the sheet. */
  function FurnitureHeaderRow(df: Frame): Option<nat> {
    FirstIndex(|df.rows|, FurnitureHeaderRows(df))
  }

  /** The columns of the hardware table: the name defaults to column D. */
  datatype FurnitureColumns = FurnitureColumns(code: Option<nat>, name: nat, qty: Option<nat>, unit: Option<nat>)

  function FurnitureColumnsOf(header: seq<string>): FurnitureColumns {
    FurnitureColumns(HeaderIndex(header, ["код"]), HeaderIndex(header, ["наимен"]).GetOr(3),
      HeaderIndex(header, ["кол"]), HeaderIndex(header, ["ед"]))
  }

  /** Names of summary lines. */
  const SummaryNames: seq<string> := ["итого", "рублевая", "валютная", "затраты", "составляющая"]

  /** Words of cost lines. */
  const CostWords: seq<string> := ["рублев", "валютн", "затрат"]

  /** A name the hardware parser skips: empty, a summary line or a cost line. */
  predicate SkippedName(name: string) {
    name == "" || Lower(name) in SummaryNames || ContainsAny(Lower(name), CostWords)
  }

  /** The stripped text of an optional column of a row. */
  function TextAt(row: seq<Cell>, idx: Option<nat>): Option<string> {
    if idx.Some? && idx.value < |row| then Some(Strip(CellStr(row[idx.value]))) else None
  }

  /** `float(v)` of an optional column; None when the column is absent or it raises. */
  function QtyAt(row: seq<Cell>, idx: Option<nat>): Option<PyNum> {
    if idx.Some? && idx.value < |row| then CellFloat(row[idx.value]) else None
  }

  /** The hardware line of one row: kept when the name is not skipped and the quantity is
      a positive number; the unit defaults to pieces. */
  function FurnitureRowOf(row: seq<Cell>, fc: FurnitureColumns): Option<FurnitureItem> {
    var name := if fc.name < |row| then Strip(CellStr(row[fc.name])) else "";
    if SkippedName(name) then None
    else
      match QtyAt(row, fc.qty)
      case Some(Finite(q)) =>
        if q > 0.0 then Some(FurnitureItem(name, TextAt(row, fc.code), Some(q), Some(TextAt(row, fc.unit).GetOr("шт"))))
        else None
      case _ => None
  }

  /** A row gives a hardware line exactly when its name is not skipped and its quantity is a
      positive number, and the line carries that name and quantity. */
  lemma FurnitureRowKept(row: seq<Cell>, fc: FurnitureColumns)
    ensures var name := if fc.name < |row| then Strip(CellStr(row[fc.name])) else "";
      var item := FurnitureRowOf(row, fc);
      (item.Some? <==> !SkippedName(name) && exists q :: QtyAt(row, fc.qty) == Some(Finite(q)) && q > 0.0)
      && (item.Some? ==> (item.value.name == name && Some(Finite(item.value.qty.value)) == QtyAt(row, fc.qty)
                          && item.value.unit.Some? && item.value.code == TextAt(row, fc.code)))
  {
    var name := if fc.name < |row| then Strip(CellStr(row[fc.name])) else "";
    var qty := QtyAt(row, fc.qty);
    if !SkippedName(name) && qty.Some? && qty.value.Finite? && qty.value.v > 0.0 {
      assert FurnitureRowOf(row, fc).Some?;
    }
  }

  /** The hardware parser's reading of every row. */
  function FurnitureParts(df: Frame, fc: FurnitureColumns): nat -> Option<FurnitureItem> {
    (r: nat) => if r < |df.rows| then FurnitureRowOf(Row(df, r), fc) else None
  }

  /** The hardware lines of the rows below header row `h`. */
  function BelowFurnitureHeader(df: Frame, h: nat): seq<FurnitureItem>
    requires h < |df.rows|
  {
    KeptFrom(|df.rows|, FurnitureParts(df, FurnitureColumnsOf(LowerHeader(Row(df, h)))), h + 1)
  }

  /** The hardware lines of a sheet: none without a header row. */
  function FurnitureRows(df: Frame): seq<FurnitureItem> {
    match FurnitureHeaderRow(df)
    case None => []
    case Some(h) => BelowFurnitureHeader(df, h)
  }

  /** `_parse_furniture_rows`. */
  method ParseFurnitureRows(df: Frame) returns (items: seq<FurnitureItem>)
    ensures items == FurnitureRows(df)
  {
    var found := FindFirst(|df.rows|, FurnitureHeaderRows(df));
    if found.None? {
      return [];
    }
    items := ParseBelowFurnitureHeader(df, found.value);
  }

  /** The data-row loop of the hardware parser. */
  method ParseBelowFurnitureHeader(df: Frame, h: nat) returns (items: seq<FurnitureItem>)
    requires h < |df.rows|
    ensures items == BelowFurnitureHeader(df, h)
  {
    var fc := FurnitureColumnsOf(LowerHeader(Row(df, h)));
    items := CollectKept(|df.rows|, FurnitureParts(df, fc), h + 1);
  }

  /** What every hardware line of the parser satisfies. */
  predicate ValidFurnitureItem(item: FurnitureItem) {
    !SkippedName(item.name) && item.qty.Some? && item.qty.value > 0.0 && item.unit.Some?
  }

  /** Every hardware line the parser reads has a name that is not skipped, a positive
      quantity and a unit, and comes from a row below the header. */
  lemma FurnitureRowsValid(df: Frame, item: FurnitureItem)
    requires item in FurnitureRows(df)
    ensures ValidFurnitureItem(item)
    ensures FurnitureHeaderRow(df).Some? && exists r :: (FurnitureHeaderRow(df).value < r < |df.rows|
      && FurnitureRowOf(Row(df, r), FurnitureColumnsOf(LowerHeader(Row(df, FurnitureHeaderRow(df).value)))) == Some(item))
  {
    var h := FurnitureHeaderRow(df).value;
    assert item in BelowFurnitureHeader(df, h);
    BelowHeaderValid(df, h, item);
  }

  /** A hardware line below header row `h` is valid and read from a row below it. */
  lemma BelowHeaderValid(df: Frame, h: nat, item: FurnitureItem)
    requires h < |df.rows| && item in BelowFurnitureHeader(df, h)
    ensures ValidFurnitureItem(item)
    ensures exists r :: h < r < |df.rows| && FurnitureRowOf(Row(df, r), FurnitureColumnsOf(LowerHeader(Row(df, h)))) == Some(item)
  {
    var fc := FurnitureColumnsOf(LowerHeader(Row(df, h)));
    var parts := FurnitureParts(df, fc);
    KeptFromMembers(|df.rows|, parts, h + 1, item);
    var r :| h + 1 <= r < |df.rows| && parts(r) == Some(item);
    assert FurnitureRowOf(Row(df, r), fc) == Some(item);
    FurnitureItemValid(Row(df, r), fc, item);
  }

  /** A hardware line read from a row satisfies what every line of the parser does. */
  lemma FurnitureItemValid(row: seq<Cell>, fc: FurnitureColumns, item: FurnitureItem)
    requires FurnitureRowOf(row, fc) == Some(item)
    ensures ValidFurnitureItem(item)
  {
    FurnitureRowKept(row, fc);
  }
}
