/**
 * The sheet-limit check: does a part fit the standard sheet of its material,
 * 2800 × 2070 mm for chipboard and MDF, 2440 × 1220 mm for plywood?
 */
module SheetLimits {
  import opened Wrappers
  import opened Numeric
  import opened Text

  /** A part that does not fit its sheet: the first width that fails and the sheet. */
  datatype SheetWarning = SheetWarning(name: string, length: int, width: int, maxLength: int, maxWidth: int)

  /** The sheet for a part: chipboard first, then MDF, then plywood, else the large sheet. */
  function SheetSize(material: string, name: string): (r: (int, int))
    ensures r == (2440, 1220) || r == (2800, 2070)
    ensures Contains(material, "лдсп") || Contains(material, "мдф") || Contains(Lower(name), "дсп")
            ==> r == (2800, 2070)
  {
    if Contains(material, "лдсп") || Contains(Lower(name), "дсп") then (2800, 2070)
    else if Contains(material, "мдф") then (2800, 2070)
    else if Contains(material, "фанер") then (2440, 1220)
    else (2800, 2070)
  }

  /** The small sheet is used exactly for plywood that is not also chipboard or MDF. */
  lemma PlywoodSheet(material: string, name: string)
    ensures SheetSize(material, name) == (2440, 1220) <==>
      Contains(material, "фанер") && !Contains(material, "лдсп") && !Contains(material, "мдф")
      && !Contains(Lower(name), "дсп")
    ensures SheetSize(material, name) in {(2440, 1220), (2800, 2070)}
  {
  }

  /** A `length × width` panel fits a `maxLength × maxWidth` sheet, turned either way. */
  predicate Fits(length: int, width: int, maxLength: int, maxWidth: int) {
    Max(length, width) <= maxLength && Min(length, width) <= maxWidth
  }

  /** The first width that does not fit, if any. */
  function FirstMisfit(length: int, widths: seq<int>, maxLength: int, maxWidth: int): (r: Option<nat>)
    ensures r.Some? ==> (r.value < |widths| && !Fits(length, widths[r.value], maxLength, maxWidth)
      && forall j :: 0 <= j < r.value ==> Fits(length, widths[j], maxLength, maxWidth))
    ensures r.None? <==> forall j :: 0 <= j < |widths| ==> Fits(length, widths[j], maxLength, maxWidth)
  {
    if widths == [] then None
    else if !Fits(length, widths[0], maxLength, maxWidth) then Some(0)
    else match FirstMisfit(length, widths[1..], maxLength, maxWidth)
      case Some(j) => Some(j + 1)
      case None =>
        assert forall j :: 1 <= j < |widths| ==> widths[j] == widths[1..][j - 1];
        None
  }

  /** `_check_material_sheet_limits`: the widths are the facade widths when there are any,
      else the part's single width; the material is lower-cased, an absent one reads "". */
  function CheckMaterialSheetLimits(name: string, material: Option<string>, length: int, width: int, widthsMm: seq<int>)
    : (r: Option<SheetWarning>)
    ensures var widths := if widthsMm != [] then widthsMm else [width];
      var (maxL, maxW) := SheetSize(Lower(material.GetOr("")), name);
      (r.Some? <==> exists j :: 0 <= j < |widths| && !Fits(length, widths[j], maxL, maxW))
      && (r.Some? ==> (r.value.name == name && r.value.length == length
            && r.value.maxLength == maxL && r.value.maxWidth == maxW
            && !Fits(length, r.value.width, maxL, maxW) && r.value.width in widths))
      && (r.Some? ==> exists j :: (0 <= j < |widths| && r.value.width == widths[j] && !Fits(length, widths[j], maxL, maxW)
                                   && forall i :: 0 <= i < j ==> Fits(length, widths[i], maxL, maxW)))
  {
    var widths := if widthsMm != [] then widthsMm else [width];
    var (maxL, maxW) := SheetSize(Lower(material.GetOr("")), name);
    match FirstMisfit(length, widths, maxL, maxW)
    case Some(j) => Some(SheetWarning(name, length, widths[j], maxL, maxW))
    case None => None
  }

  /** A panel within 2070 × 2070 mm, or within 1220 mm on its short side and 2440 mm on its
      long side, never triggers the warning. */
  lemma SmallPanelFits(name: string, material: Option<string>, length: int, width: int)
    requires 0 <= length <= 2440 && 0 <= width <= 1220
    ensures CheckMaterialSheetLimits(name, material, length, width, []).None?
  {
  }
}
