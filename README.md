# Furniture re-scaling engine, modelled in Dafny

This project models the core of a furniture re-scaling service. A cabinet's bill of materials
comes as a spreadsheet: the corpus parts (name, thickness, length, width, quantity, material) and
the hardware lines (hinges, handles, shelf supports, ties, rods, LED strips). The service reads it
and infers the cabinet's overall size and section layout. Given a new total width, it recomputes
every part, every hardware quantity, the weight, the sheet-cutting warnings and the
recommendations. A browser front end repeats part of this logic, with its own section split and
helpers for A1 cell references.

The model follows the program's structure, one module per file:

- `Planner` (planner.dfy): the split of a width into sections of at most 1200 mm, the spans of a
  section, the even distribution of a width or of items.
- `Records` (records.dfy): the parsed part, hardware line and cabinet records; the section-type
  analysis and the proportional mapping of old sections onto new ones; the shelf counts.
- `Cells` (cells.dfy): the sheet as a padded matrix of cells (empty, text, integer, float), with
  the conversions the code relies on (`str`, `float`, `int(float(...))`, stripping, sheet and
  column lookup by keyword).
- `Patterns` (patterns.dfy): hand-written recognisers for the fixed patterns (`L x W`, `W x D x H`,
  the A43 size, `<n> мм`, free-standing `0,00`, the `Вес (кг) =` annotation) with leftmost-match
  search.
- `Materials` (materials.dfy): the material dictionary, the code lookup and the material rules.
- `CorpusParser`, `FurnitureParser` (corpus.dfy, furniture.dfy): the header-driven and heuristic
  corpus parsers, the stage selection with its backfill, and the hardware parser.
- `Geometry` (geometry.dfy): the size-inference ladder (cell A43, a size in a part name, the back
  panel, the size buckets, the default).
- `Weight` (weight.dfy): the weight read from the sheet and the volumetric weight of the parts.
- `SheetLimits` (sheetlimits.dfy): the sheet each part is cut from and the warning when it does
  not fit.
- `FurnitureRecalc` (furnrecalc.dfy): hinges per facade and the hardware recalculation.
- `CorpusRecalc` (recalc.dfy): the whole corpus recalculation, with its unchanged-width path.
- `Scaling` (scaling.dfy): the browser's section split, part-type and density rules, section-count
  inference, structure, weight, density inference, price and hardware cost.
- `A1` (a1.dfy): the browser's cell-reference helpers (column letters, reference parsing and
  normalisation, formula text, reference extraction, SUM ranges), over an A1 codec of its own.
- `Wrappers`, `Text`, `Numeric` (wrappers.dfy, text.dfy, numeric.dfy): Option and Result,
  string helpers, floor, ceiling, truncation, rounding and sums.

Loops in the source are methods with loop invariants, each proved equal to a specification
function. Properties are proved about those functions. All records are immutable values, so the
recalculation never changes the parsed cabinet. The tests' examples appear as lemmas about
concrete inputs.

## Model

| member | source | states |
|---|---|---|
| Planner.DistributeWidthEvenly | main.py:779-786 | no parts for a non-positive count; otherwise `parts` widths summing to the total, any two differing by at most one, larger ones first |
| Planner.BalancedIsEven | main.py:779-786 | any balanced split of a total into n parts is the one `_distribute_width_evenly` makes |
| Planner.CountAboveSum | main.py:779-786 | in a balanced split the larger parts come first, fewer than n of them, and they are the remainder |
| Planner.SplitSections | main.py:761-766 | ceil(W/1200) sections, summing to W, balanced, each in (0, 1200] |
| Planner.EvenWithinBound | main.py:761-766 | cutting a total into at least ceil(total/bound) even parts keeps each in (0, bound] |
| Planner.SpansForSection | main.py:769-776 | the span count is max(ceil(w/600), 2 when w >= 800); at least 1 and at most w, enough for 600 mm facades and 800 mm shelves |
| Planner.SpansOfSection | main.py:769-786 | a section's spans are each in (0, 600], as many as its span count, summing to the section |
| Planner.SpanWidthsCover | main.py:789-796 | the span widths of all sections cover them exactly, one per span, each within 600 mm |
| Planner.CalculateSpanWidths | main.py:789-796 | the loop extends the list with each section's spans in turn |
| Planner.ItemsBase | main.py:107 | `floor(total / n)`: n copies fit in the total and n + 1 more do not |
| Planner.ItemsRemainder | main.py:108 | the count of sections that get one more item lies in [0, n] |
| Planner.ItemsPlanBalanced | main.py:101-115 | one entry per section, never growing, any two differing by at most one |
| Planner.ItemsPlanExact | main.py:101-115 | a whole number of items is handed out exactly |
| Planner.IntRemainder | main.py:107-108 | for a whole total the rounded remainder is `t % n` |
| Planner.DistributeItemsPerSection | main.py:101-115 | the loop adds one to the first `remainder` entries of the base plan |
| Planner.SplitExamples | main.py:761-766 | 3000 mm gives 3 x 1000, 2000 mm gives 2 x 1000, 2500 mm gives 834, 833, 833 |
| Planner.SpanExamples | main.py:769-776 | sections of 1000, 834 and 833 mm each get two spans |
| Planner.DistributeExample | tests/test_recalculate.py:50-53 | five shelves over three sections are 2, 2, 1 |
| Records.SumQtyNamedAppend | main.py:802-806 | the quantity of parts named with a keyword adds over concatenation |
| Records.SumQtyNamedNone | main.py:802-806 | parts none of which carries the keyword add up to nothing |
| Records.DensityRule | main.py:748-754 | density 600 exactly for plywood, 800 for MDF that is not plywood, 750 otherwise |
| Records.AnalyzeSectionTypes | main.py:799-829 | one section per original section, each with the section width, the lighting flag, and rod/shelf flags set by positive quantity per section; section i's shelf count is entry i of the exact-sum distribution of the shelves, or 0 when there are none |
| Records.ShelvesKept | main.py:815-824 | a whole number of shelves spread over the original sections adds up to itself |
| Records.ShelfCountsOf | main.py:1117 | the shelf counts listed section by section |
| Records.ProportionalIndexInRange | main.py:1102 | the proportional index of a new section lies among the old ones and never goes back |
| Records.ProportionalIndexCovers | main.py:1102 | every old section is the source of some new section when there are no more old than new |
| Records.ProportionalIndexSame | main.py:1102 | with as many new sections as old, section i inherits from section i |
| Records.SectionTypeMap | main.py:1100-1115 | one entry per new section, with the new width and the inherited contents |
| Records.SectionTypeMapInherits | main.py:1100-1115 | a new section takes the contents of old section `int(i * l / n)`, or an empty section when there are none |
| Records.ShelvesPlanSameCount | main.py:1093-1118 | resizing to the same section count keeps every section's shelves in place |
| Records.ShelfCounts | main.py:1093-1125 | the old count is the shelf quantity; a non-zero plan is the new count, and an empty one is handed to the fallback |
| Records.ShelfCountsFallback | main.py:1116-1121 | an empty plan gives the old shelves per original section times the new sections when there were shelves and sections, and 0 otherwise |
| Records.NewShelves | main.py:1119-1121 | a non-zero plan is kept as the new count |
| Records.NewShelvesFallback | main.py:1119-1121 | with an empty plan the new count is the per-section average scaled to the new sections, or 0 without shelves or sections |
| Records.ShelfCountsSameSections | main.py:1093-1125 | keeping the section count keeps a whole number of shelves, old and new alike |
| Cells.Row | main.py:298 | `df.iloc[r]` is padded to the sheet width |
| Cells.RowStrings | main.py:298 | `astype(str)` gives one text per cell |
| Cells.RowTextHasCell | main.py:298 | a keyword in any cell's text occurs in the joined row text |
| Cells.ParseUnsignedDigits | main.py:350 | `float` of a string of digits is the number it spells |
| Cells.ToFloatOfDigits | main.py:350 | `float` of an optionally negated string of digits is its value |
| Cells.ToFloatOfIntText | main.py:338 | `float(str(n))` is `n` for every integer |
| Cells.IntTextParts | main.py:338 | the decimal text of an integer is an optional minus and the digits of its magnitude |
| Cells.CellFloat | main.py:350 | `float` of an integer cell is its value, of an empty cell NaN |
| Cells.CellReal | main.py:338 | a cell has a real value exactly when `float` gives a finite number |
| Cells.CellIntViaFloat | main.py:338 | `int(float(v))` is defined exactly when `float` gives a finite number, and truncates toward zero |
| Cells.IntTextAsInt | main.py:338 | a number typed as text and as a number read as the same integer |
| Cells.NormalizeCode | main.py:206 | an integer code becomes its decimal text |
| Cells.NormalizeCodeAgrees | main.py:206 | a code typed as an integer, as a whole float or as text gets the same dictionary key |
| Cells.FirstWithKeyword | main.py:118-125 | the first sheet whose stripped, lower-cased name contains a keyword; none earlier does, and none at all when absent |
| Cells.FindFirst | main.py:297-307 | the search loop stops at the first row that satisfies the test |
| Cells.CollectKept | main.py:319-368 | the loop keeps, in order, every value a row produces |
| Cells.KeptFromMembers | main.py:319-368 | a value is kept exactly when some row of the range produces it |
| Cells.LowerHeader | main.py:312 | the lower-cased header has one entry per column |
| Cells.HeaderIndex | main.py:177-183 | the first header entry containing a keyword; no earlier entry does, and none at all when absent |
| Patterns.DigitRun | main.py:52 | the greedy `\d+` run: digits up to the first non-digit |
| Patterns.DigitRunOf | main.py:52 | a run of digits followed by a non-digit is taken whole |
| Patterns.SizeSearch | main.py:52 | the leftmost `L x W` match: some position matches with that value and none before it; none exactly when no position matches |
| Patterns.ExtractSizeFromText | main.py:167-175 | spaces are dropped before the search: a text without spaces is searched as it is, and a size found is never negative |
| Patterns.SizeOfWritten | main.py:167-175 | a pair `L x W` written out is read back as `(L, W)` |
| Patterns.SizeIgnoresSpace | main.py:171 | a space anywhere in the text does not change the size read from it |
| Patterns.SpacedSizeRead | main.py:167-175 | "L x W" with spaces around the "x" is read as `(L, W)` |
| Patterns.SizeAtWritten | main.py:52 | digits, `x`, digits match at the start with their values |
| Patterns.GabaritSearch | main.py:53 | the leftmost `W x D x H` match with a 3- or 4-digit width; none exactly when no position matches |
| Patterns.GabaritOfWritten | main.py:53 | a size `W x D x H` written out with a 3- or 4-digit width is read back |
| Patterns.GabaritAtSplit | main.py:53 | three or four digits, `x`, digits, `x`, digits match at the start with their values |
| Patterns.FirstGroupOfFour | main.py:53 | `\d{3,4}` takes four digits when a match starts with them |
| Patterns.FirstGroupOfThree | main.py:53 | without a match of four leading digits, the first group has three |
| Patterns.SearchAtZero | main.py:53 | a match at the start is what the search returns |
| Patterns.DimsSearch | main.py:594 | the leftmost 3-4 x 3-4 x 3-4 digit match in cell A43; none exactly when no position matches |
| Patterns.ThicknessSearch | main.py:211 | the leftmost `<n> мм` / `<n> mm` ending at a word boundary; none exactly when no position matches |
| Patterns.HasZeroOpsIff | main.py:284 | zero-cost operations are found exactly when `\b0[,.]0{2,}\b` occurs somewhere |
| Patterns.ZeroOpsWritten | main.py:284 | a free-standing `0,00` marks zero-cost operations |
| Patterns.WeightSearch | main.py:737 | the leftmost `Вес (кг) = <number>` annotation, non-negative; none exactly when no position matches |
| Patterns.FirstMatch | main.py:52-53 | the first position from `i` where the pattern matches, and no earlier one |
| Materials.DictEntry | main.py:197-215 | a row contributes only under a non-empty code |
| Materials.DictRows | main.py:197 | one contribution per row 7-37, in order |
| Materials.ParseMaterialDictionary | main.py:186-218 | the loop folds the rows' entries into the dictionary |
| Materials.FoldLastWins | main.py:215 | a code is a key exactly when some row gives it, and its entry is that of the last such row |
| Materials.FoldKeysNonEmpty | main.py:207-208 | the dictionary has no empty code |
| Materials.ApplyMaterialFromCode | main.py:221-250 | a material exactly when column B holds a non-empty code the dictionary knows, and then that entry; otherwise neither material nor thickness |
| Materials.ApplyIntegerCode | main.py:242-246 | an integer code in column B finds the entry under its decimal text |
| Materials.DetermineMaterial | main.py:268-288 | always one of the four materials; MDF exactly when the base rule gives MDF and the facade rule does not apply; plywood and Egger exactly when the base rule gives them |
| Materials.DetermineMaterialNonEmpty | main.py:268-288 | the chosen material is never empty |
| Materials.EighteenIsMdf | main.py:275-276 | 18 mm means MDF for a part that is not a facade |
| Materials.ZeroCostFacadeIsChipboard | main.py:282-286 | an MDF facade whose row has a free-standing `0,00` becomes chipboard |
| Materials.FacadeDowngrade | main.py:282-286 | MDF in a row with zero-cost operations makes a facade chipboard |
| CorpusParser.ChooseMaterial | main.py:352 | the material of a part is never empty: the dictionary's, else the rule-based one |
| CorpusParser.ParseCorpusRowsByHeader | main.py:291-370 | the header parser's loops compute the header-driven parse |
| CorpusParser.ParseBelowHeader | main.py:319-368 | the data-row loop keeps, in order, the complete parts of the rows below the header |
| CorpusParser.HeaderRowComplete | main.py:322-368 | a part read by the header parser has non-zero thickness, length, width and quantity, a name that is not a stop word, and a non-empty material |
| CorpusParser.BelowHeaderComplete | main.py:319-368 | every part the header parser returns is complete |
| CorpusParser.NumericCount | main.py:399 | the count of cells holding digits is at most the row width |
| CorpusParser.HeuristicStart | main.py:383-407 | the start row of the heuristic parser lies inside the sheet |
| CorpusParser.FilledHeader | main.py:409 | the header has one text per column, empty cells as "" |
| CorpusParser.FirstSizeInRow | main.py:481-488 | a size found by the row scan is the size written in some text cell of the row |
| CorpusParser.ScanRowForSize | main.py:481-488 | the strategy-3 loop stops at the first text cell with a size |
| CorpusParser.ReadSizes | main.py:452-488 | the three size strategies, in order, with the row scan |
| CorpusParser.WalkRows | main.py:428-446 | the data-row loop with its run of empty names stops after five and skips totals rows |
| CorpusParser.FindHeuristicStart | main.py:383-407 | the start-row search: first keyword row in 100, else the row before the first with two numbers in 50, else 0 |
| CorpusParser.ParseCorpusRowsHeuristic | main.py:371-523 | the heuristic parser's loops compute the heuristic parse |
| CorpusParser.ParseBelowStart | main.py:427-521 | the data-row loop of the heuristic parser |
| CorpusParser.ClassifyRow | main.py:431-521 | each row is blank, a totals row or a named row with its part, if any |
| CorpusParser.HeuristicPart | main.py:448-519 | a named row is read with the three size strategies, quantity and material |
| CorpusParser.RowPartMeaningful | main.py:434-519 | a part read from a row has a name that is not blank and not a totals row, a material, and some thickness, length, width or quantity |
| CorpusParser.WalkFromMembers | main.py:430-521 | every part of the walk comes from a named row of the range |
| CorpusParser.HeuristicMeaningful | main.py:430-521 | every part the heuristic parser returns is meaningful |
| CorpusParser.StripNotBlank | main.py:434-440 | a name cell that is not blank reads as a non-empty stripped text |
| CorpusParser.BackfillAll | main.py:535-537 | the backfill touches each part on its own, in place |
| CorpusParser.ParseCorpusRows | main.py:526-539 | the header parse when it finds parts, else the heuristic parse, then the plywood backfill |
| CorpusParser.Backfill | main.py:535-537 | the loop updates each part in turn |
| CorpusParser.BackfillChangesNothing | main.py:535-537 | parsers always set a non-empty material, so the "фанера" backfill never changes a part |
| FurnitureParser.FurnitureRowKept | main.py:560-585 | a row becomes a hardware line exactly when its name is not skipped and its quantity is a positive number; the line carries the name, quantity, code and a unit |
| FurnitureParser.ParseFurnitureRows | main.py:542-587 | the parser's loops compute the header-driven parse |
| FurnitureParser.ParseBelowFurnitureHeader | main.py:560-585 | the data-row loop keeps the valid lines in order |
| FurnitureParser.FurnitureRowsValid | main.py:542-587 | every line returned has a name that is not skipped, a positive quantity and a unit, and comes from a row below the header |
| Geometry.FirstWhere | main.py:620-621 | the first row satisfying a condition: it satisfies it, no row before it does, and there is none exactly when no row does |
| Geometry.GabaritOfRows | main.py:626-629 | a size is found in the part names exactly when some non-empty name holds one, and it is the size in the first such name |
| Geometry.FindGabaritRow | main.py:626-639 | the strategy-1 loop returns the size of the first part name that holds one |
| Geometry.MostFrequentIn | main.py:708-710 | the chosen value is a candidate occurring at least as often as any other candidate |
| Geometry.Mode | main.py:708-710 | the chosen value occurs in the list and no value occurs more often |
| Geometry.CollectBuckets | main.py:672-692 | the bucket loop collects the heights, depths and section widths of the measured parts in order |
| Geometry.CollectTallLengths | main.py:696-700 | the fallback loop collects every length over 1500 mm in order |
| Geometry.GeometryFromSizes | main.py:669-721 | the strategy-3 loops compute the size-analysis geometry |
| Geometry.InferGeometrySmart | main.py:606-721 | the geometry inference, raising exactly where the code as written divides by zero |
| Geometry.GeometryAgrees | main.py:628-639 | the code as written and the corrected inference agree wherever the former returns, and it fails exactly when a size is in a name, A43 holds none and the first back wall has a quantity truncating to 0 |
| Geometry.GeometryZeroDivision | main.py:635-638 | a sheet with "2400х600х2500" in a name and a back wall of quantity 0.5 raises as written, and as corrected yields 2400x600x2500 with 0 sections and the whole width as section width |
| Geometry.HalfBackWallIsBackWall | main.py:635 | that back wall passes the back-wall filter |
| Geometry.A43First | main.py:616-623 | a size in cell A43 wins: the total width, depth and height are read from it, the sections are the first back wall's quantity truncated, or one when there is no back wall, and the section width is the floor of width over sections |
| Geometry.BackWallGeometry | main.py:641-667 | from a measured back wall: total width is section width times sections, height is its length, section width its width, and depth a top or bottom width in 300-800 or 600 |
| Geometry.BucketGeometry | main.py:669-721 | from the buckets: height is a mode of the heights, or of the lengths over 1500 mm when there are none; depth a mode of the depths or 600; section width a mode of the widths or 1000; sections from the first top or bottom panel; total width section width times sections |
| Geometry.BucketsChosen | main.py:709-721 | from given height candidates: their mode, the depth and width modes or 600 and 1000, and the sections of the first top or bottom panel |
| Geometry.LidSections | main.py:714-716 | the sections are half the panel quantity rounded down when it is at least 2, and 1 for a smaller quantity or no panel |
| Geometry.HeightsAreTall | main.py:683-700 | every height in the 2000-3000 bucket is also over 1500, so no tall length means no heights |
| Geometry.DefaultWithoutTallParts | main.py:696-706 | with no size, no back wall and no part over 1500 mm the default 3000x600x2800, 3 sections of 1000 is returned |
| Geometry.SizesDefault | main.py:696-706 | the size analysis alone gives the default when no part is over 1500 mm |
| Geometry.NoTallLengths | main.py:698-700 | no part over 1500 mm leaves the fallback list empty |
| Weight.LabelValue | main.py:728-733 | the value beside a "вес (кг)" label: missing on a one-column sheet, NaN for an empty cell, the number itself for an integer or float cell (fraction kept), and the text with "," read as "." parsed as a float otherwise |
| Weight.LabelNumberWeight | main.py:724-733 | a label row holding a number weighs that number, as written and as intended |
| Weight.RowWeightFrom | main.py:735-739 | the annotation found is that of the first of the searched columns holding one, is non-negative, and is missing exactly when no searched column holds one |
| Weight.RowResult | main.py:727-739 | a label row whose value parses yields that value; a row without a label, or whose label value does not parse, yields exactly its first annotation; NaN comes only through a label whose value cell is empty |
| Weight.IntendedRowResult | main.py:727-739 | a label row with a finite value yields it; a NaN or unparsable label value, or no label, yields the row's first annotation; a negative weight comes only from a labelled value |
| Weight.RowResults | main.py:726 | one result per row, each that row's result |
| Weight.IntendedRowResults | main.py:726 | one intended result per row, each that row's result |
| Weight.FirstFound | main.py:726-740 | the first result present from a row on, with every earlier one absent, else the default |
| Weight.TotalWeightAsWritten | main.py:724-740 | the result of the first row that gives one, or 0 when none does; NaN only when some label row has an empty value cell |
| Weight.TotalWeight | main.py:724-740 | the intended result of the first row that gives one, or 0 when none does; non-negative unless it is a labelled value |
| Weight.CalculateTotalWeight | main.py:724-740 | the row loop computes the weight read as written |
| Weight.ReadRow | main.py:727-739 | one row: the labelled value, then the annotation |
| Weight.SearchRow | main.py:735-739 | the column loop finds the first annotation in the first ten columns |
| Weight.RowWeightStep | main.py:735-739 | a column without an annotation passes the search on to the next |
| Weight.WeightAgrees | main.py:724-740 | the weight as written equals the intended one whenever it is not NaN |
| Weight.RowAgrees | main.py:727-739 | a row read as written and as intended gives the same number unless it gives NaN |
| Weight.FirstFoundAgrees | main.py:726-740 | two searches over row results that agree except on NaN give the same result unless the first gives NaN |
| Weight.EmptyWeightCell | main.py:728-731 | a sheet whose only row is a "Вес (кг)" label with an empty value cell weighs NaN as written and 0 as intended |
| Weight.SingleRowWeights | main.py:726-740 | on a sheet of one row the weight is that row's result |
| Weight.LabelOnlyResults | main.py:728-739 | that row gives NaN as written and nothing as intended |
| Weight.LabelOnlyRow | main.py:728 | that row's first cell passes the label test |
| Weight.LabelOnlyNoAnnotation | main.py:737 | neither cell of that row holds an annotation |
| Weight.NoAnnotationWithoutEquals | main.py:737 | a text without '=' holds no weight annotation |
| Weight.WeightByRows | main.py:743-758 | the loop sums, over fully measured parts, volume times density times quantity |
| Weight.RowsWeightNonNegative | main.py:743-758 | parts with non-negative sizes and quantities weigh a non-negative total |
| Weight.VolumeNonNegative | main.py:755 | the volume of non-negative sizes is non-negative |
| Weight.DensityPositive | main.py:749-754 | every density used (600, 800 or the default) is positive |
| Weight.RowsWeightAppend | main.py:746-757 | the weights of two runs of parts add up |
| Weight.UnmeasuredWeighNothing | main.py:747 | parts without all four of length, width, thickness and quantity add nothing |
| Weight.SpecWeight | main.py:1341-1343 | a non-zero weight from the sheet is used as is; a zero one is replaced by the weight from the parts |
| Weight.SpecWeightAgrees | main.py:1341-1343 | where the code as written yields a number it is the intended weight |
| SheetLimits.PlywoodSheet | main.py:1069-1076 | the 2440x1220 sheet is chosen exactly for plywood that is not chipboard or MDF and whose name does not say "дсп"; otherwise 2800x2070 |
| SheetLimits.SheetSize | main.py:1069-1076 | one of the two sheets, 2440x1220 or 2800x2070, and always 2800x2070 when the material says chipboard or MDF or the name says "дсп" |
| SheetLimits.FirstMisfit | main.py:1078-1080 | the first width that does not fit: all before it fit, and none exists exactly when all fit |
| SheetLimits.CheckMaterialSheetLimits | main.py:1063-1081 | a warning exactly when some width, or the part's width when none are listed, does not fit the sheet either way round; it names the part, the length, the first misfitting width (every earlier one fits) and the sheet |
| SheetLimits.SmallPanelFits | main.py:1063-1081 | a part within 2440x1220 never draws a warning |
| FurnitureRecalc.PetalsPerFacade | main.py:1084-1090 | between 2 and 8 hinges per facade |
| FurnitureRecalc.PetalsMonotone | main.py:1084-1090 | a taller facade never gets fewer hinges |
| FurnitureRecalc.OriginalSections | main.py:1129 | the original cabinet has its section count (none when negative) of sections |
| FurnitureRecalc.OldSpansProduct | main.py:1129 | the original spans are the section count times the spans of one section |
| FurnitureRecalc.SameSectionsSpans | main.py:1129 | k identical sections have k times the spans of one |
| FurnitureRecalc.FirstNamed | main.py:1137 | the first part whose lower-cased name contains the word: there is one exactly when some part's name does, and no earlier one does |
| FurnitureRecalc.NewFacades | main.py:1138-1140 | the least integer at or above FacadesTarget: the old facades per old span (all old facades when there were no spans) times the new spans |
| FurnitureRecalc.HandlesDrawerQty | main.py:1144-1147 | the drawers scaled by the section ratio, rounded up |
| FurnitureRecalc.FurnCtx | main.py:1129-1163 | the quantities computed before the item loop use the new section split and the new facade count |
| FurnitureRecalc.UnitOr | main.py:1234 | a line always has a non-empty unit |
| FurnitureRecalc.ItemsOut | main.py:1166-1236 | one recomputed line per hardware line, in order |
| FurnitureRecalc.LedPowers | main.py:1218-1223 | one LED power per line, in order |
| FurnitureRecalc.LedMetresOf | main.py:1218-1224 | one LED length per line, in order |
| FurnitureRecalc.RecalculateFurniture | main.py:1128-1244 | the new lines, the notices and the total LED power are those of the per-line rules applied to the context of the new width |
| FurnitureRecalc.RecalculateItems | main.py:1155-1244 | the item loop and the LED notes after it compute the lines, the notices and the total power |
| FurnitureRecalc.AddLedNotes | main.py:1238-1242 | the LED notes are appended after the earlier notices |
| FurnitureRecalc.ItemsStep | main.py:1166-1236 | one more line adds its own line, power and length to the accumulators |
| FurnitureRecalc.RecalculateItem | main.py:1167-1236 | the loop body computes the line of its rule and, for lighting, its power and length |
| FurnitureRecalc.PlaceRods | main.py:1208-1217 | the rod loop puts the rounded-up rods per section in every new section, with their lengths, and none when the rate is not positive |
| FurnitureRecalc.DrawerNoticeOnce | main.py:1174-1180 | the drawer note for handles appears exactly when drawers were counted and there is a handle line, and at most once |
| FurnitureRecalc.LedPowerTenfold | main.py:1220-1223 | LED power is ten watts per metre of strip |
| FurnitureRecalc.RodLengthsShape | main.py:1211-1216 | every new section gets the same number of rods, each 40 mm shorter than its section and never negative |
| FurnitureRecalc.RodsListed | main.py:1204-1217 | a rod line lists one length per rod |
| FurnitureRecalc.TiesPerJoint | main.py:1194-1196 | no ties for one section; otherwise at least one per joint and at least one per 700 mm of height per joint |
| FurnitureRecalc.SupportsPerShelfKept | main.py:1188-1191 | shelf supports keep their number per shelf when both shelf counts are known |
| FurnitureRecalc.HingesFollowFacades | main.py:1141-1142 | hinges are the new facades times the hinges per facade of the first facade's height, or of 2700 mm |
| FurnitureRecalc.HandleIsHandle | tests/test_recalculate.py:142-182 | a line named "Ручка" is a handle line |
| FurnitureRecalc.HandlesSpecRows | tests/test_recalculate.py:142-182 | in the example cabinet the first facade is the facade row and the drawers count 4 |
| FurnitureRecalc.FacadeNamed | main.py:1137 | a part named "Фасад" is a facade and not a drawer |
| FurnitureRecalc.DrawerNamed | main.py:1144-1145 | a drawer row of quantity 4 after a non-drawer counts 4 drawers |
| FurnitureRecalc.HandlesSpecContext | tests/test_recalculate.py:142-182 | resizing the example cabinet to 3000 mm gives 6 facades, 6 drawer handles from 4 drawers and a section ratio of 1.5 |
| FurnitureRecalc.HandlesExample | tests/test_recalculate.py:142-182 | the example's handles become 12 and the "учтены ящики" note is given |
| FurnitureRecalc.DrawerNoticeGiven | main.py:1176-1180 | with drawers counted and a handle line, the drawer note is given |
| CorpusRecalc.CollectCutWarnings | main.py:856-861 | the warning loop collects the sheet warnings of the parts (only sized parts on the unchanged-width path) |
| CorpusRecalc.CutWarningsStep | main.py:1050-1053 | one more part adds its warning, if any |
| CorpusRecalc.CutWarningsExact | main.py:1048-1053 | a warning is listed exactly when some (sized) part draws it |
| CorpusRecalc.FastParts | main.py:843-854 | one output part per parsed row, in order |
| CorpusRecalc.FastLines | main.py:863-871 | one hardware line per parsed line, in order |
| CorpusRecalc.FastPathKeeps | main.py:841-876 | at the same width every part keeps name, material and sizes with no facade widths, the weight and hardware quantities are kept and there are no recommendations |
| CorpusRecalc.CorpusCtx | main.py:835-900 | the context of a resize: the new split, its spans and span widths, the old spans and the shelf plan |
| CorpusRecalc.ContextShape | main.py:837-839 | the new sections are positive, the spans are at least one per section, cover the new width and none is over 600 mm |
| CorpusRecalc.SpansAtLeastSections | main.py:879 | every positive section has at least one span |
| CorpusRecalc.BuildMaterialMap | main.py:905-920 | the loop builds the material map of the rows |
| CorpusRecalc.MaterialMapNonEmpty | main.py:905-920 | every material in the map is a non-empty name |
| CorpusRecalc.InferredMaterialKnown | main.py:983-996 | a part of a known family always ends up with a non-empty material |
| CorpusRecalc.PyTake | main.py:951 | Python's prefix slice: a prefix, of the requested length for non-negative counts |
| CorpusRecalc.MaxOf | main.py:954 | the largest value of a non-empty list |
| CorpusRecalc.FacadeWidths | main.py:942-953 | the facade loop: each span split evenly, then cut or padded with the last width to the target |
| CorpusRecalc.FacadeSplitCover | main.py:943-944 | splitting each span in k gives k facades per span, summing to the spans' total |
| CorpusRecalc.FacadeSplitNarrow | main.py:943-944 | no facade is wider than 600 mm |
| CorpusRecalc.EvenAtMostTotal | main.py:944 | the parts of an even split are at most the total |
| CorpusRecalc.FitWidthsCount | main.py:948-953 | after fitting there are exactly the target facades, each one of the split's widths |
| CorpusRecalc.NewPartsOf | main.py:922-1007 | one new part per row, in order |
| CorpusRecalc.RecalculatePart | main.py:924-1007 | the loop body builds the part of its rule with its material |
| CorpusRecalc.PlanPart | main.py:931-981 | the branch of the part's rule; facade widths and target only for facades |
| CorpusRecalc.PlanFacade | main.py:937-956 | the facade branch with its loop |
| CorpusRecalc.RecalculateParts | main.py:922-1007 | the part loop builds the new parts |
| CorpusRecalc.CorpusWeight | main.py:1011-1039 | the weight loop sums the weights of the parts |
| CorpusRecalc.WeighPart | main.py:1013-1039 | one part's weight, with the loop over its facade widths and the remainder at the last width |
| CorpusRecalc.PanelWeightAdds | main.py:1028-1038 | panel weights are additive in width |
| CorpusRecalc.WidthsWeightIsSum | main.py:1027-1029 | panels at several widths weigh as one panel as wide as all of them |
| CorpusRecalc.FacadeWeight | main.py:1026-1035 | a facade with one width per piece weighs as one panel of the total width |
| CorpusRecalc.ResizedLines | main.py:1041-1045 | the hardware lines of a resize carry the recomputed quantity, unit and details |
| CorpusRecalc.AsParts | main.py:998-1007 | one output part per new part, in order |
| CorpusRecalc.RecalculateCorpus | main.py:832-1060 | the same width returns the parsed data unchanged, any other width the resized parts, weight, warnings, recommendations and hardware |
| CorpusRecalc.KeepAsIs | main.py:841-876 | the unchanged-width path |
| CorpusRecalc.Resize | main.py:878-1060 | the resize path |
| CorpusRecalc.SectionPartsRules | main.py:957-979 | back panels and plinths: one per section with the width split evenly; partitions one fewer than sections; walls one more; sides 2; only facades list widths |
| CorpusRecalc.ShelfRules | main.py:931-936 | a shelf is the new width over the sections, rounded up, and its count is the rounded-up shelf plan when that is non-zero |
| CorpusRecalc.CoverRules | main.py:960-970 | a whole-width cover keeps its count and spans the new width; per-section covers are one per section's share, rounded up, at the same pieces per section (2 without sections) |
| CorpusRecalc.OtherRules | main.py:980-981 | any other part is scaled by the width ratio and rounded up |
| CorpusRecalc.FacadeRules | main.py:937-956 | facades are the facades per span times the new spans rounded up, with one width per facade, none over 600 mm, the widest as the part width, covering the new width when the split is exact |
| CorpusRecalc.ShelvesSpecPlan | tests/test_recalculate.py:42-48 | the example cabinet's shelf plan at 3000 mm is 3, 3, 2 |
| CorpusRecalc.ShelvesExample | tests/test_recalculate.py:42-48 | the example's shelves become 8 |
| CorpusRecalc.ShelvesTotal | tests/test_recalculate.py:42-48 | 3 + 3 + 2 shelves are 8 |
| CorpusRecalc.ShelfRow | main.py:931 | a part named "Полка" is a shelf |
| CorpusRecalc.FacadeRow | main.py:937 | a part named "Фасад" is a facade |
| CorpusRecalc.FacadesSpecContext | tests/test_recalculate.py:116-121 | the example cabinet has 4 old spans and 6 new at 2500 mm |
| CorpusRecalc.FacadesExample | tests/test_recalculate.py:116-138 | the example's facades become 12, each span split in two |
| CorpusRecalc.UnchangedExample | tests/test_recalculate.py:57-92 | at the same width the side panel, the 85.5 kg weight and the hinge count are returned unchanged with no warnings |
| Scaling.Classify | app-scaling.js:62-73 | the value of the first rule with a keyword in the text, else the default |
| Scaling.ClassifyUnfold | app-scaling.js:62-73 | the part type is decided by the keywords in the order side, base, back, partition, facade, shelf, drawer, rod, else other |
| Scaling.ClassifyStep | app-scaling.js:62-73 | one step of the rule search |
| Scaling.ContainsAnyOne | app-scaling.js:64 | a one-keyword rule matches exactly when the text contains the keyword |
| Scaling.ContainsAnyTwo | app-scaling.js:65 | a two-keyword rule matches exactly when the text contains either |
| Scaling.DensityUnfold | app-scaling.js:5-13 | the density is decided by the keywords in the order chipboard 730, MDF 750, plywood 650, fibreboard 850, glass 2500, else 730 |
| Scaling.DensityListed | app-scaling.js:5-13 | every density is one of the five listed |
| Scaling.ChipboardKeywordRedundant | app-scaling.js:7 | every name containing "лдсп" contains "дсп" |
| Scaling.JsSectionCount | app-scaling.js:75-81 | at least one section, and at least two from 800 mm on |
| Scaling.JsSplitSections | app-scaling.js:75-89 | as many sections as the count, summing to the width, differing by at most one, none over 1200 mm from 800 mm on |
| Scaling.SplitSectionsJs | app-scaling.js:75-89 | the loop spreading the remainder computes the split |
| Scaling.SplitsDiffer | app-scaling.js:75-89 | the browser splits 1000 mm in two and the engine keeps one section |
| Scaling.SplitsAgreeAboveOneSection | app-scaling.js:75-89 | over 1200 mm the browser and the engine split alike |
| Scaling.BackQtys | app-scaling.js:96 | the rounded back-panel quantities kept are positive |
| Scaling.FirstIndex | app-scaling.js:98-101 | the first position of a value |
| Scaling.FirstMostFrequentUnique | app-scaling.js:99-106 | the first most frequent value is unique |
| Scaling.MostFrequentQty | app-scaling.js:96-106 | the counting and the loop over the map pick the most frequent quantity seen first |
| Scaling.FirstSeen | app-scaling.js:98 | the map's keys are exactly the values of the list |
| Scaling.FirstIndexPrefix | app-scaling.js:98 | first positions in a prefix are first positions in the whole |
| Scaling.FirstSeenSorted | app-scaling.js:98-101 | the map's keys come in the order of their first appearance |
| Scaling.FreqStep | app-scaling.js:98 | counting one more value updates its entry of the frequency map |
| Scaling.CountAbsent | app-scaling.js:98 | an absent value is counted zero times |
| Scaling.CountStep | app-scaling.js:98 | one more element adds one to its own count |
| Scaling.PickFirstMostFrequent | app-scaling.js:99-106 | the loop over the map keeps the first key of the largest count |
| Scaling.FirstOfMaximal | app-scaling.js:99-106 | the key the loop keeps is the first most frequent value |
| Scaling.InferSectionCount | app-scaling.js:91-120 | with back panels the most frequent quantity seen first (1 when none is positive); else the partitions plus one; else the section count of the width; always at least 1 |
| Scaling.PositiveMostFrequent | app-scaling.js:107-108 | with positive quantities a non-positive pick means there are none |
| Scaling.BaseStructure | app-scaling.js:122-132 | at least one section, one partition fewer, and the shelves' total quantity |
| Scaling.QtyOfTypeAppend | app-scaling.js:111-113 | quantities of one type add up over two runs of parts |
| Scaling.RawWeightIsDensityTimesVolume | app-scaling.js:15-38 | the weight is the density times the volume the density is inferred from |
| Scaling.Cents | app-scaling.js:37 | rounding to the cent moves a value by at most half a cent |
| Scaling.CentsIdempotent | app-scaling.js:37 | rounding to the cent twice is rounding once |
| Scaling.CalculateWeight | app-scaling.js:29-38 | the loop sums density times volume of the measured parts, rounded to the cent |
| Scaling.InferDensity | app-scaling.js:15-27 | positive, and the default unless a positive base weight and a non-zero volume are given |
| Scaling.InferredDensityRoundTrip | app-scaling.js:15-27 | weighing the parts at the inferred density gives back the base weight |
| Scaling.CalculatePrice | app-scaling.js:40-52 | the loop sums area times price times waste factor of the listed materials, rounded; the result is NaN exactly when a priced part's listed material has no price |
| Scaling.PriceDefinedIff | app-scaling.js:40-52 | the sum is a number exactly when every priced part's listed material has a price |
| Scaling.UnlistedPartsFree | app-scaling.js:45-49 | parts whose material is not in the price list cost nothing |
| Scaling.RawPriceAppend | app-scaling.js:40-50 | prices add up over two runs of parts, and NaN in either run is NaN for both |
| Scaling.ChargedLines | app-scaling.js:57 | the charged lines have a price and a unit other than "%", and come from the list |
| Scaling.CostOfChargedLines | app-scaling.js:54-60 | the cost of a list is the cost of its charged lines |
| Scaling.FurnitureCostNonNegative | app-scaling.js:54-60 | non-negative prices and quantities cost a non-negative total |
| Scaling.FurnitureCost | app-scaling.js:54-60 | a list none of whose lines has a price with a unit other than "%" costs nothing |
| Scaling.InferPartType | app-scaling.js:62-73 | the part type is the value of the first rule, in the order the code tests them, whose keyword the lower-cased name contains, else other |
| Scaling.MaterialDensity | app-scaling.js:5-13 | the density is the value of the first rule, in the order the code tests them, whose keyword the lower-cased material contains, else 730 |
| A1.ColIndexToLetter | app-utils.js:1-5 | indices 0 to 25 give one upper-case letter, any other index the empty text |
| A1.LetterToColIndex | app-utils.js:7-9 | a found index is that of the upper-cased letter; -1 exactly when no column has it |
| A1.ColumnLetterRoundTrip | app-utils.js:1-9 | a column index survives the trip through its letter |
| A1.LetterColumnRoundTrip | app-utils.js:1-9 | a letter of either case finds its column, whose letter is its upper case |
| A1.NormalizeCellRefIdempotent | app-utils.js:16-18 | normalising a normalised reference changes nothing |
| A1.NormalizeCellRef | app-utils.js:16-18 | the input trimmed of JavaScript whitespace and upper-cased: no longer than the input, no whitespace at either end, every character already upper case |
| A1.NormalizeCellRefPadded | app-utils.js:16-18 | whitespace around a trimmed reference is dropped and the reference kept, upper-cased |
| A1.NormalizeLabelText | app-utils.js:47-55 | a normalised label holds only digits and lower-case Latin and Cyrillic letters |
| A1.LabelTextIsClassFilter | app-utils.js:47-55 | dropping "=" and whitespace is subsumed by the final character class |
| A1.NormalizeLabelTextIdempotent | app-utils.js:47-55 | normalising a normalised label changes nothing |
| A1.CleanPatternIsCanonical | app-utils.js:64-66 | a matched plain reference, cleaned of "$" and upper-cased, is canonical |
| A1.CanonicalIsCleanPattern | app-utils.js:64-66 | a canonical reference matches the pattern and is its own clean form |
| A1.BangIsNoCell | app-utils.js:64 | a text with "!" is no plain reference |
| A1.FallbackSheet | app-utils.js:61 | the fallback sheet is the first non-empty of the default and the active sheet |
| A1.SplitSheet | app-utils.js:71 | the sheet prefix, quoted or not, is a non-empty name without quotes and the text is that name, "!" and the rest |
| A1.ParseRef | app-utils.js:57-76 | an empty text gives nothing; a parsed reference has a canonical cell and no empty sheet name |
| A1.ParseRefDefined | app-utils.js:57-76 | a reference is returned exactly when the trimmed text is a reference, or a sheet name and "!" followed after whitespace by one; anything else is null |
| A1.CleanDollarCell | app-utils.js:64-66 | "$" + letters + "$" + digits, in letters of either case, matches the reference pattern and cleans to the upper-cased letters and the digits |
| A1.DollarRefCleaned | app-utils.js:57-68 | such a plain reference comes back without "$", upper-cased, with the fallback sheet |
| A1.SheetDollarRefCleaned | app-utils.js:70-75 | after "Sheet!" such a reference comes back without "$", upper-cased, with that sheet |
| A1.ParseCleanRef | app-utils.js:63-75 | the trimmed text parses to a canonical cell, with its own sheet name or the fallback |
| A1.ParseSheetRef | app-utils.js:71-75 | a sheet-qualified reference carries its non-empty sheet name and a canonical cell |
| A1.PlainRefTakesFallback | app-utils.js:63-68 | a canonical reference alone is read with the fallback sheet |
| A1.SheetRefParse | app-utils.js:70-75 | a text split into a sheet and a canonical cell is read as that sheet and cell |
| A1.SheetRefSplit | app-utils.js:71-75 | the sheet branch reads the sheet and cell of the split |
| A1.CellEndsInDigit | app-utils.js:59 | a canonical reference has no whitespace at either end to trim |
| A1.SplitUnquoted | app-utils.js:71 | an unquoted sheet name is split off at its "!" |
| A1.SplitQuoted | app-utils.js:71 | a quoted sheet name is split off at its closing quote |
| A1.SheetRefRoundTrip | app-utils.js:57-76 | "Sheet!CELL" with a plain sheet name is read back as that sheet and cell |
| A1.QuotedSheetRefRoundTrip | app-utils.js:57-76 | "'Sheet'!CELL" is read back as that sheet and cell |
| A1.ToFullRef | app-utils.js:163-167 | a full reference is produced exactly when the reference parses |
| A1.FullRefIdempotent | app-utils.js:163-167 | a full reference with a plain sheet name reads back as itself, whatever the defaults |
| A1.MissingSheetRendersNull | app-utils.js:163-166 | with no sheet known the full reference reads "null!CELL", which parses as a sheet named "null" |
| A1.NullSheetIsPlain | app-utils.js:166 | "null" is a plain sheet name |
| A1.GetCellFormulaString | app-utils.js:156-161 | a non-empty result is the trimmed stored formula or the trimmed typed value after "="; a stored formula wins |
| A1.TypedFormulaRoundTrip | app-utils.js:159 | a value typed as "=formula" with no stored formula gives back the formula |
| A1.MatchA1At | app-utils.js:179 | a match lies within the text |
| A1.MatchIsCanonical | app-utils.js:179 | a match is a canonical reference |
| A1.MatchLengths | app-utils.js:179 | the match lengths at every position |
| A1.ExtractA1Refs | app-utils.js:176-180 | every reference found is canonical |
| A1.CleanJoin | app-utils.js:178 | removing "$" and upper-casing references joined by "+" gives their clean forms joined by "+" |
| A1.ExtractPatternRefs | app-utils.js:176-180 | for references joined by "+", with or without "$" and in letters of either case, every reference is found in order, without "$" and upper-cased |
| A1.ScanFindsCanonical | app-utils.js:179 | every match of the scan is canonical |
| A1.MatchCanonical | app-utils.js:179 | a canonical reference not followed by a digit is matched whole |
| A1.ScanJoined | app-utils.js:179 | scanning canonical references joined by "+" finds them all in order |
| A1.ScanTakesCell | app-utils.js:179 | a canonical reference at the scan position is taken whole |
| A1.ScanSkipsPlus | app-utils.js:179 | a "+" is passed over |
| A1.JoinedCellsClean | app-utils.js:178 | canonical references joined by "+" are their own clean form |
| A1.ExtractJoinedRefs | app-utils.js:176-180 | the references of a sum written out with "+" are found in order |
| A1.EncodeCol | app-utils.js:190 | column letters are never empty |
| A1.DecodeCell | app-utils.js:186 | a decoded row and column are at least -1 |
| A1.DecodeColumn | app-utils.js:186-190 | the letters of a column decode to its number and no row |
| A1.DecodeDigits | app-utils.js:186-190 | digits after letters decode to the row |
| A1.CellRoundTrip | app-utils.js:186-190 | a cell survives the trip through its A1 text |
| A1.RowCells | app-utils.js:189-191 | the cells of a row, one per column in order |
| A1.RangeCells | app-utils.js:186-193 | a range fails exactly when it is not empty and starts at a negative column |
| A1.GridCells | app-utils.js:188-192 | a grid of n cells |
| A1.BlockIsGrid | app-utils.js:188-192 | the nested loops list the block row by row |
| A1.GridNextRow | app-utils.js:188-192 | the next row of a block adds its cells in column order |
| A1.GridCellDecode | app-utils.js:188-192 | the k-th cell of a block is at row k div width and column k mod width |
| A1.RangeCellsDecode | app-utils.js:182-194 | a range lists height times width cells, each decoding to a cell between its corners, row by row |
| A1.ExpandSumRange | app-utils.js:182-194 | the method computes the expansion of a single reference or a range |
| A1.ListRange | app-utils.js:186-193 | the nested loops list the cells of the range |
| A1.FindSumArgs | app-utils.js:199 | the arguments of the first "sum(" call are non-empty and hold no ")" |
| A1.SplitArgs | app-utils.js:202 | splitting at ";" and "," gives at least one piece |
| A1.TrimmedNonEmpty | app-utils.js:202 | trimmed pieces, none empty |
| A1.ExpandAll | app-utils.js:203 | the expansion succeeds exactly when every piece expands |
| A1.NoParenNoSum | app-utils.js:199 | no "sum(" is found without a "(" |
| A1.NoSumNoRefs | app-utils.js:196-204 | a formula without a SUM call lists no references |
| A1.SumCallNoSpace | app-utils.js:198 | removing whitespace leaves a call whose arguments hold none untouched |
| A1.SumCallFound | app-utils.js:199 | the first "sum(" of a call is found with the arguments up to its ")" |
| A1.SumCallArgs | app-utils.js:196-204 | a SUM call lists the expansion of its trimmed pieces |
| A1.ParseSumFormulaRefs | app-utils.js:196-204 | an empty list for an empty formula or one without a SUM call; otherwise a list exactly when every trimmed argument piece of the first SUM call expands |
| A1.SplitJoined | app-utils.js:202 | splitting comma-joined pieces gives them back |
| A1.TrimKeepsCells | app-utils.js:202 | canonical references are their own trimmed form |
| A1.ExpandCells | app-utils.js:203 | each canonical reference expands to itself |
| A1.JoinedArgs | app-utils.js:198-202 | comma-joined references survive whitespace removal and split back into themselves |
| A1.SumOfCellsRoundTrip | app-utils.js:196-204 | the references a SUM call lists are read back in order, in either case of "sum" |
| A1.RangeCharsClean | app-utils.js:184 | a range of reference characters is its own clean form |
| A1.RangeArgDecode | app-utils.js:186 | the corners of a range are read back |
| A1.ExpandOne | app-utils.js:203 | one argument expands on its own |
| A1.RangeArgPieces | app-utils.js:202 | a range argument is one piece, left whole by trimming |
| A1.SumOfRangeRoundTrip | app-utils.js:196-204 | a SUM of one range lists the cells between the range's corners |

## Left out

- The Telegram bot, its handlers, session storage, logging and message rendering (`_format_structure`, message chunking) are not modelled. They are transport and presentation around the engine.
- Reading workbooks with pandas, openpyxl or xlrd is not modelled. The model starts from a padded matrix of cells. `astype(str)`, `pd.isna` and `int(float(x))` become explicit conversion functions.
- The handler's width bounds of 300 to 10000 mm are not modelled. `CorpusRecalc.RecalculateCorpus` requires only a positive width.
- CorpusRecalc.RecalculateCorpus: some inputs make the source raise a `TypeError` or `ValueError`: a missing facade length; a top or bottom panel without a quantity, unless it is cut per section and the original section count is not positive (a whole-width panel takes `math.ceil(None)`, a per-section one divides `None` by the section count); or a negative facade target that empties the facade widths. The method requires that none of these occur, rather than modelling the exception.
- FurnitureRecalc.RecalculateFurniture: requires the first facade row to carry a length. Without one, the source compares `None` with a number and raises.
- Python's `round(x, 2)` on the returned weights is not modelled: weights are exact reals. The rounding of the LED supply power to one decimal is not modelled either.
- Python floats and JavaScript numbers are exact reals. Overflow, infinities and binary rounding are not modelled. NaN is modelled in the weight read from the sheet; elsewhere a cell that reads as NaN is treated as no number (see the quantity line below).
- `str.lower`, `toLowerCase` and `toUpperCase` cover ASCII and the basic Cyrillic alphabet (U+0400 to U+045F). Other scripts pass unchanged.
- A float cell prints as its sign, its integer part and ".0". Its fraction cannot change the keyword tests, the material hints or the patterns that need letters or "=" where that text is used. Where a float is read back as a number (the value beside the weight label) the model reads the cell's value directly, as `float(str(x)) == x` in Python.
- CorpusParser.HeaderRowAt, CorpusParser.HeuristicPart: a part name taken from a float cell with a fraction prints without it: a name cell 16.5 gives the name "16.0" where Python gives "16.5".
- CorpusParser.QtyCell: a quantity cell whose text reads as NaN ("nan" in any letter case) is taken as no quantity. In Python `float()` gives NaN, which is truthy, so the header parser keeps that row with a NaN quantity (main.py:350-356) and the heuristic parser keeps it with one (main.py:496-511); the model drops it in the header parse and keeps it without a quantity in the heuristic parse.
- CorpusParser.ParseCorpusRows: on a sheet with no rows the heuristic parser reads `df.iloc[start_row]` (main.py:409) and raises `IndexError`. The model requires at least one row instead of modelling the exception, and so do `CorpusParser.ParseCorpusRowsHeuristic`, `CorpusParser.FindHeuristicStart`, `CorpusParser.HeuristicStart`, `CorpusParser.Heuristic`, `CorpusParser.ParsedCorpus` and `CorpusParser.BackfillChangesNothing`.
- Cells.ToFloat: reads a sign, ASCII decimal digits with at most one point, and "nan" in any letter case. Python's `float()` also accepts exponents ("1e3"), digit separators ("1_000"), "inf" and "infinity", and the digits of other scripts; such texts are read as not numbers.
- Text.IsDigit, Text.IsWordChar: the recognisers for `\d`, `\w` and `\b` use ASCII digits, and ASCII letters, `_` and the Cyrillic block for word characters. Python's classes on text are Unicode-wide; letters and digits of other scripts are not modelled.
- General regular expressions are not modelled. Each fixed pattern the code uses has a hand-written recogniser with leftmost-match search.
- Geometry.Mode: `max(set(xs), key=xs.count)` returns whichever most frequent value the set yields first, which Python does not fix. The contract promises only a most frequent value.
- Warnings and recommendations are datatypes carrying their numbers, not the formatted message strings. The same goes for the `size` text of each part.
- The tests unpack four results from `_recalculate_corpus`, which returns five. The model returns the five results, and the tests' numbers appear as lemmas about concrete inputs.
- `_infer_material` and `_find_cell_with_text` in main.py are never called. They are not modelled.
- `parseNumericValue` and `expandRanges` in app-utils.js, and `decodeRefParts`, `readCell` and `readRefCell`, are not modelled. They produce JavaScript floats or read workbook objects and global state.
- The SheetJS `XLSX.utils` cell codec is replaced by the model's own: bijective base-26 column letters and one-based row digits.
- A1.ListRange: SheetJS throws when it encodes a cell with a negative column. The model returns `None` for the whole expansion, decided before the loops, instead of modelling the throw.
- `state.activeSheet` is a parameter of `A1.ParseRef` and `A1.ToFullRef` rather than global state.
- app.js, app2.js, app-parser.js, orgspace_finder/app.js, src/state.js and src/main.js are not part of this model. They are DOM and worker controllers, workbook traversal and a search UI.

## Findings

| source | as written | input that shows it | evidently intended | confidence | as-written member | corrected member |
|---|---|---|---|---|---|---|
| main.py:635-638 | strategy 1 divides the width by `int(qty)` of the first back panel, and `int` of a quantity below 1 is 0 | a part named "2400x600x2500" and a back panel "задняя стенка" with quantity 0.5 raise `ZeroDivisionError` | keep the whole width as one section width when the count truncates to 0, as strategy 0 does at main.py:622 | not executed | Geometry.GeometryZeroDivision | Geometry.GeometryAgrees |
| main.py:728-733, 1341-1343 | an empty value cell beside "Вес (кг)" stringifies to "nan", `float("nan")` succeeds, and NaN is truthy, so the fallback to the parts' weight is skipped | a sheet whose only row is "Вес (кг)" with an empty second cell gives a total weight of NaN | treat a missing value as no weight and fall back to the weight of the parts | not executed | Weight.EmptyWeightCell | Weight.SpecWeightAgrees |
