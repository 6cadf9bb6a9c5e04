/**
 * `_recalculate_corpus`: the parts, weight, cutting warnings, recommendations
 * and hardware of a cabinet resized to a new total width. An unchanged width
 * returns the specification as it is; otherwise every part is recomputed by
 * the first keyword rule its name matches.
 */
module CorpusRecalc {
  import opened Wrappers
  import opened Numeric
  import opened Text
  import opened Planner
  import opened Records
  import Cells
  import opened SheetLimits
  import opened FurnitureRecalc

  /** A part of the result. */
  datatype Part = Part(
    name: string,
    material: Option<string>,
    thickness: Option<int>,
    length: Option<int>,
    width: Option<int>,
    widths: seq<int>,
    qty: Option<real>)

  /** A part as the recalculation builds it: sizes and quantity always present. */
  datatype NewPart = NewPart(
    name: string,
    material: Option<string>,
    thickness: Option<int>,
    length: int,
    width: int,
    widths: seq<int>,
    qty: int)

  function AsPart(p: NewPart): Part {
    Part(p.name, p.material, p.thickness, Some(p.length), Some(p.width), p.widths, Some(p.qty as real))
  }

  /** A hardware line of the result. */
  datatype HardwareLine = HardwareLine(name: string, code: Option<string>, qty: Option<real>, unit: string, meta: Meta)

  /** The five results: parts, weight, cutting warnings, recommendations, hardware. */
  datatype Recalculated = Recalculated(
    parts: seq<Part>,
    weight: real,
    cutWarnings: seq<SheetWarning>,
    recommendations: seq<Notice>,
    furniture: seq<HardwareLine>)

  /** `x or default` for an optional text. */
  function OrDefault(s: Option<string>, default: string): string {
    if s.Some? && s.value != "" then s.value else default
  }

  // ---------------------------------------------------------------------------
  // Cutting warnings

  /** The sheet check of a part; absent sizes read 0. */
  function PartCheck(p: Part): Option<SheetWarning> {
    CheckMaterialSheetLimits(p.name, p.material, p.length.GetOr(0), p.width.GetOr(0), p.widths)
  }

  /** A part with a non-zero length and width. */
  predicate Sized(p: Part) {
    p.length.Some? && p.length.value != 0 && p.width.Some? && p.width.value != 0
  }

  /** The sheet check of a part, of sized parts only when `sizedOnly`. */
  function CutCheck(sizedOnly: bool): Part -> Option<SheetWarning> {
    (p: Part) => if !sizedOnly || Sized(p) then PartCheck(p) else None
  }

  /** The warnings of the parts in order, of the sized parts only when `sizedOnly`. */
  function CutWarningsOf(parts: seq<Part>, sizedOnly: bool): seq<SheetWarning> {
    Cells.KeptOf(parts, CutCheck(sizedOnly))
  }

  /** The loop collecting cutting warnings. */
  method CollectCutWarnings(parts: seq<Part>, sizedOnly: bool) returns (warnings: seq<SheetWarning>)
    ensures warnings == CutWarningsOf(parts, sizedOnly)
  {
    warnings := [];
    var i := 0;
    assert parts[..0] == [];
    while i < |parts|
      invariant 0 <= i <= |parts|
      invariant warnings == CutWarningsOf(parts[..i], sizedOnly)
    {
      var p := parts[i];
      CutWarningsStep(parts, sizedOnly, i);
      if !sizedOnly || Sized(p) {
        var w := PartCheck(p);
        if w.Some? {
          warnings := warnings + [w.value];
        }
      }
      i := i + 1;
    }
    assert parts[..|parts|] == parts;
  }

  /** What one more part adds to the warnings. */
  lemma CutWarningsStep(parts: seq<Part>, sizedOnly: bool, i: nat)
    requires i < |parts|
    ensures var p := parts[i];
      CutWarningsOf(parts[..i + 1], sizedOnly) == CutWarningsOf(parts[..i], sizedOnly)
        + (if (!sizedOnly || Sized(p)) && PartCheck(p).Some? then [PartCheck(p).value] else [])
  {
    assert parts[..i + 1][..i] == parts[..i];
  }

  /** Part `p` is checked and gets warning `w`. */
  predicate Warns(p: Part, sizedOnly: bool, w: SheetWarning) {
    (!sizedOnly || Sized(p)) && PartCheck(p) == Some(w)
  }

  /** A warning is given exactly for each (sized) part that does not fit its sheet. */
  lemma CutWarningsExact(parts: seq<Part>, sizedOnly: bool, w: SheetWarning)
    ensures w in CutWarningsOf(parts, sizedOnly) <==> exists i :: 0 <= i < |parts| && Warns(parts[i], sizedOnly, w)
  {
    Cells.KeptOfMembers(parts, CutCheck(sizedOnly), w);
    assert forall i :: 0 <= i < |parts| ==> (CutCheck(sizedOnly)(parts[i]) == Some(w) <==> Warns(parts[i], sizedOnly, w));
  }

  // ---------------------------------------------------------------------------
  // The unchanged width

  function FastPart(r: ParsedRow): Part {
    Part(r.name, r.material, r.thickness, r.length, r.width, [], r.qty)
  }

  function FastParts(rows: seq<ParsedRow>): (r: seq<Part>)
    ensures |r| == |rows| && forall i :: 0 <= i < |rows| ==> r[i] == FastPart(rows[i])
  {
    seq(|rows|, i requires 0 <= i < |rows| => FastPart(rows[i]))
  }

  function FastLine(f: FurnitureItem): HardwareLine {
    HardwareLine(f.name, f.code, f.qty, UnitOr(f.unit), NoMeta)
  }

  function FastLines(items: seq<FurnitureItem>): (r: seq<HardwareLine>)
    ensures |r| == |items| && forall i :: 0 <= i < |items| ==> r[i] == FastLine(items[i])
  {
    seq(|items|, i requires 0 <= i < |items| => FastLine(items[i]))
  }

  /** The result for an unchanged width: the specification as it is. */
  function FastPath(spec: ParsedSpec): Recalculated {
    var parts := FastParts(spec.corpusRows);
    Recalculated(parts, spec.totalWeight, CutWarningsOf(parts, true), [], FastLines(spec.furnitureItems))
  }

  /** An unchanged width gives back every part and hardware line unchanged, the recorded
      weight, and no recommendation. */
  lemma FastPathKeeps(spec: ParsedSpec)
    ensures var r := FastPath(spec);
      |r.parts| == |spec.corpusRows| && r.weight == spec.totalWeight && r.recommendations == []
      && (forall i :: 0 <= i < |r.parts| ==>
            var (p, row) := (r.parts[i], spec.corpusRows[i]);
            p.name == row.name && p.material == row.material && p.thickness == row.thickness
            && p.length == row.length && p.width == row.width && p.qty == row.qty && p.widths == [])
      && |r.furniture| == |spec.furnitureItems|
      && (forall i :: 0 <= i < |r.furniture| ==>
            r.furniture[i].qty == spec.furnitureItems[i].qty && r.furniture[i].name == spec.furnitureItems[i].name)
  {
  }

  // ---------------------------------------------------------------------------
  // The context of a resize

  /** The values `_recalculate_corpus` computes before its part loop. */
  datatype CorpusContext = CorpusContext(
    newWidth: int,
    oldWidth: int,
    sectionsCount: int,
    sectionWidth: int,
    sections: seq<int>,
    spanWidths: seq<int>,
    oldSpans: int,
    newSpans: int,
    sectionRatio: real,
    oldPolki: real,
    shelvesPlan: seq<real>)

  function CorpusCtx(spec: ParsedSpec, newWidth: int): (ctx: CorpusContext)
    requires newWidth > 0
    ensures ctx.sections == SplitSections(newWidth) && ctx.spanWidths == SpanWidths(ctx.sections)
    ensures ctx.newSpans == TotalSpans(ctx.sections) && ctx.oldSpans == OldSpans(spec)
    ensures ctx.shelvesPlan == ShelvesPlan(spec, newWidth)
    ensures ctx.newWidth == newWidth && ctx.oldWidth == spec.widthTotal
    ensures ctx.sectionsCount == spec.sectionsCount && ctx.sectionWidth == spec.sectionWidth
    ensures ValidContext(ctx)
  {
    var sections := SplitSections(newWidth);
    var shelf := FirstNamed(spec.corpusRows, "полк");
    CorpusContext(newWidth, spec.widthTotal, spec.sectionsCount, spec.sectionWidth, sections,
      SpanWidths(sections), OldSpans(spec), TotalSpans(sections),
      if spec.sectionsCount != 0 then |sections| as real / spec.sectionsCount as real else 1.0,
      if shelf.Some? then QtyOrZero(shelf.value.qty) else 0.0,
      ShelvesPlan(spec, newWidth))
  }

  /** A context as a resize builds it: positive sections, each split into spans. */
  predicate ValidContext(ctx: CorpusContext) {
    ctx.newWidth > 0 && ctx.sections == SplitSections(ctx.newWidth)
    && ctx.spanWidths == SpanWidths(ctx.sections) && ctx.newSpans == TotalSpans(ctx.sections)
  }

  /** The new sections are positive and the spans cover the new width, none over 600 mm. */
  lemma ContextShape(ctx: CorpusContext)
    requires ValidContext(ctx)
    ensures |ctx.sections| > 0 && |ctx.spanWidths| == ctx.newSpans >= |ctx.sections|
    ensures Sum(ctx.spanWidths) == ctx.newWidth
    ensures forall i :: 0 <= i < |ctx.spanWidths| ==> 0 < ctx.spanWidths[i] <= MaxFacadeWidth
  {
    SpanWidthsCover(ctx.sections);
    SpansAtLeastSections(ctx.sections);
  }

  lemma {:induction false} SpansAtLeastSections(sections: seq<int>)
    requires forall i :: 0 <= i < |sections| ==> sections[i] > 0
    ensures TotalSpans(sections) >= |sections|
  {
    if sections != [] {
      SpansAtLeastSections(sections[..|sections| - 1]);
    }
  }

  // ---------------------------------------------------------------------------
  // Materials

  /** Keys of the material map. */
  const FacadeKey := "фасад"
  const VisibleWallKey := "стенка_видимая"
  const InnerWallKey := "стенка_внутр"
  const ShelfKey := "полка"
  const CoverKey := "крышка"
  const PartitionKey := "перегородка"

  /** The family of a part for its material: the first that matches its lower-cased name. */
  datatype MaterialFamily = FacadeFamily | WallFamily(visible: bool) | ShelfFamily | CoverFamily | PartitionFamily | NoFamily

  function MaterialFamilyOf(nameLow: string): MaterialFamily {
    if Contains(nameLow, "фасад") then FacadeFamily
    else if Contains(nameLow, "боков") || Contains(nameLow, "стенк") then
      WallFamily(ContainsAny(nameLow, ["видим", "наружн", "внешн"]))
    else if Contains(nameLow, "полк") then ShelfFamily
    else if Contains(nameLow, "крышк") || Contains(nameLow, "дно") then CoverFamily
    else if Contains(nameLow, "перегород") || Contains(nameLow, "стойк") then PartitionFamily
    else NoFamily
  }

  /** The map key of a family and the material assumed when a part has none. */
  function FamilyKey(f: MaterialFamily): (string, string)
    requires !f.NoFamily?
  {
    match f
    case FacadeFamily => (FacadeKey, "МДФ")
    case WallFamily(visible) => (if visible then VisibleWallKey else InnerWallKey, "ЛДСП")
    case ShelfFamily => (ShelfKey, "ЛДСП")
    case CoverFamily => (CoverKey, "ЛДСП")
    case PartitionFamily => (PartitionKey, "ЛДСП")
  }

  /** The material map: for each family, the material of its last part (or the default). */
  function MaterialMapOf(rows: seq<ParsedRow>): map<string, string> {
    if rows == [] then map[]
    else
      var m := MaterialMapOf(rows[..|rows| - 1]);
      var row := rows[|rows| - 1];
      var f := MaterialFamilyOf(Lower(row.name));
      if f.NoFamily? then m
      else m[FamilyKey(f).0 := OrDefault(row.material, FamilyKey(f).1)]
  }

  /** The loop building the material map. */
  method BuildMaterialMap(rows: seq<ParsedRow>) returns (materialMap: map<string, string>)
    ensures materialMap == MaterialMapOf(rows)
  {
    materialMap := map[];
    var i := 0;
    while i < |rows|
      invariant 0 <= i <= |rows|
      invariant materialMap == MaterialMapOf(rows[..i])
    {
      var row := rows[i];
      var f := MaterialFamilyOf(Lower(row.name));
      if !f.NoFamily? {
        var (key, default) := FamilyKey(f);
        materialMap := materialMap[key := OrDefault(row.material, default)];
      }
      assert rows[..i + 1][..i] == rows[..i];
      i := i + 1;
    }
    assert rows[..|rows|] == rows;
  }

  /** Every material in the map is a real name. */
  lemma {:induction false} MaterialMapNonEmpty(rows: seq<ParsedRow>)
    ensures forall k :: k in MaterialMapOf(rows) ==> MaterialMapOf(rows)[k] != ""
  {
    if rows != [] {
      MaterialMapNonEmpty(rows[..|rows| - 1]);
    }
  }

  function MapGet(m: map<string, string>, key: string, default: string): string {
    if key in m then m[key] else default
  }

  /** The material of a new part: its own, or else the one its family has in the map. */
  function InferredMaterial(m: map<string, string>, nameLow: string, material: Option<string>): Option<string> {
    if material.Some? && material.value != "" then material
    else match MaterialFamilyOf(nameLow)
      case FacadeFamily => Some(MapGet(m, FacadeKey, "МДФ"))
      case WallFamily(visible) =>
        var inner := MapGet(m, InnerWallKey, "ЛДСП");
        Some(if visible then MapGet(m, VisibleWallKey, inner) else inner)
      case ShelfFamily => Some(MapGet(m, ShelfKey, "ЛДСП"))
      case CoverFamily => Some(MapGet(m, CoverKey, "ЛДСП"))
      case PartitionFamily => Some(MapGet(m, PartitionKey, "ЛДСП"))
      case NoFamily => material
  }

  /** A part of a known family always ends up with a material. */
  lemma InferredMaterialKnown(rows: seq<ParsedRow>, nameLow: string, material: Option<string>)
    requires !MaterialFamilyOf(nameLow).NoFamily?
    ensures var r := InferredMaterial(MaterialMapOf(rows), nameLow, material);
      r.Some? && r.value != ""
  {
    MaterialMapNonEmpty(rows);
  }

  // ---------------------------------------------------------------------------
  // Facade widths

  /** Every span split into `k` facades. */
  function FacadeSplit(spans: seq<int>, k: int): seq<int> {
    if spans == [] then []
    else FacadeSplit(spans[..|spans| - 1], k) + DistributeWidthEvenly(spans[|spans| - 1], k)
  }

  /** Python's `s[:k]`, a negative `k` counting from the end. */
  function PyTake<T>(s: seq<T>, k: int): (r: seq<T>)
    ensures |r| <= |s| && r == s[..|r|]
    ensures k >= 0 ==> |r| == Min(k, |s|)
  {
    if k >= 0 then s[..Min(k, |s|)] else s[..Max(|s| + k, 0)]
  }

  /** The facade widths cut or padded to the target count: the tail dropped, or the
      last width repeated. */
  function FitWidths(widths: seq<int>, target: int): seq<int> {
    if widths != [] && target != 0 && |widths| != target then
      if |widths| > target then PyTake(widths, target)
      else widths + seq(target - |widths|, _ => widths[|widths| - 1])
    else widths
  }

  /** The largest value of a non-empty sequence. */
  function MaxOf(s: seq<int>): (m: int)
    requires s != []
    ensures m in s && forall i :: 0 <= i < |s| ==> s[i] <= m
  {
    if |s| == 1 then s[0]
    else
      var m := MaxOf(s[..|s| - 1]);
      assert forall i :: 0 <= i < |s| - 1 ==> s[..|s| - 1][i] == s[i];
      Max(m, s[|s| - 1])
  }

  /** The facade loop: extend with each span's split, then fit to the target. */
  method FacadeWidths(spanWidths: seq<int>, perSpan: int, target: int) returns (widths: seq<int>)
    ensures widths == FitWidths(if spanWidths != [] && perSpan != 0 then FacadeSplit(spanWidths, perSpan) else [], target)
  {
    widths := [];
    if spanWidths != [] && perSpan != 0 {
      var i := 0;
      while i < |spanWidths|
        invariant 0 <= i <= |spanWidths|
        invariant widths == FacadeSplit(spanWidths[..i], perSpan)
      {
        widths := widths + DistributeWidthEvenly(spanWidths[i], perSpan);
        FacadeSplitStep(spanWidths, perSpan, i);
        i := i + 1;
      }
      assert spanWidths[..|spanWidths|] == spanWidths;
    }
    if widths != [] {
      if target != 0 && |widths| != target {
        if |widths| > target {
          widths := PyTake(widths, target);
        } else {
          widths := widths + seq(target - |widths|, _ => widths[|widths| - 1]);
        }
      }
    }
  }

  /** One more span adds its own split at the end. */
  lemma FacadeSplitStep(spans: seq<int>, k: int, i: nat)
    requires i < |spans|
    ensures FacadeSplit(spans[..i + 1], k) == FacadeSplit(spans[..i], k) + DistributeWidthEvenly(spans[i], k)
  {
    assert spans[..i + 1][..i] == spans[..i];
  }

  /** Splitting spans into `k` facades each gives `k` facades per span, covering the spans
      exactly. */
  lemma {:induction false} FacadeSplitCover(spans: seq<int>, k: int)
    requires k > 0
    ensures |FacadeSplit(spans, k)| == k * |spans| && Sum(FacadeSplit(spans, k)) == Sum(spans)
  {
    if spans != [] {
      var init := spans[..|spans| - 1];
      var last := spans[|spans| - 1];
      var a, b := FacadeSplit(init, k), DistributeWidthEvenly(last, k);
      FacadeSplitCover(init, k);
      assert FacadeSplit(spans, k) == a + b;
      MulSuccLeft(k, |init|);
      SumAppend(a, b);
      SumAppend(init, [last]);
      assert init + [last] == spans;
    }
  }

  /** `MulSucc` with the factors the other way round. */
  lemma MulSuccLeft(k: int, m: int)
    ensures k * (m + 1) == k * m + k
  {
  }

  /** No facade is wider than the span it was cut from, so none is wider than 600 mm. */
  lemma {:induction false} FacadeSplitNarrow(spans: seq<int>, k: int)
    requires k > 0 && forall i :: 0 <= i < |spans| ==> 0 < spans[i] <= MaxFacadeWidth
    ensures forall j :: 0 <= j < |FacadeSplit(spans, k)| ==> FacadeSplit(spans, k)[j] <= MaxFacadeWidth
  {
    if spans != [] {
      var init := spans[..|spans| - 1];
      var last := spans[|spans| - 1];
      assert forall i :: 0 <= i < |init| ==> init[i] == spans[i];
      FacadeSplitNarrow(init, k);
      EvenAtMostTotal(last, k);
      var a, b := FacadeSplit(init, k), DistributeWidthEvenly(last, k);
      assert FacadeSplit(spans, k) == a + b;
      forall j | 0 <= j < |a + b| ensures (a + b)[j] <= MaxFacadeWidth {
        if j >= |a| {
          assert (a + b)[j] == b[j - |a|];
        }
      }
    }
  }

  /** Parts of an even split of a positive total are at most the total. */
  lemma EvenAtMostTotal(total: int, k: int)
    requires total > 0 && k > 0
    ensures forall j :: 0 <= j < k ==> DistributeWidthEvenly(total, k)[j] <= total
  {
    var q, m := total / k, total % k;
    assert total == k * q + m;
    if q > 0 {
      MulLe(1, k, q);
    }
  }

  /** Fitting non-empty widths to a positive target gives exactly the target count, all
      taken from the widths. */
  lemma FitWidthsCount(widths: seq<int>, target: int)
    requires widths != [] && target > 0
    ensures |FitWidths(widths, target)| == target
    ensures forall j :: 0 <= j < target ==> FitWidths(widths, target)[j] in widths
  {
  }

  // ---------------------------------------------------------------------------
  // One part

  /** The rule a part falls under: the first that matches its lower-cased name. */
  datatype PartKind = ShelfPart | FacadePart | BackPart | CoverPart | SidePart | PartitionPart | WallPart | PlinthPart | OtherPart

  function PartKindOf(nameLow: string): PartKind {
    if Contains(nameLow, "полк") then ShelfPart
    else if Contains(nameLow, "фасад") then FacadePart
    else if Contains(nameLow, "задн") then BackPart
    else if Contains(nameLow, "крышк") || Contains(nameLow, "дно") then CoverPart
    else if Contains(nameLow, "боков") then SidePart
    else if Contains(nameLow, "средние") || Contains(nameLow, "перегород") then PartitionPart
    else if Contains(nameLow, "стенк") then WallPart
    else if Contains(nameLow, "цоколь") then PlinthPart
    else OtherPart
  }

  function KindOfRow(row: ParsedRow): PartKind {
    PartKindOf(Lower(row.name))
  }

  /** Facades per span after rounding: at least one when there are spans. */
  function FacadesPerSpanInt(ctx: CorpusContext, row: ParsedRow): int {
    var q := QtyOrZero(row.qty);
    var perSpan := if ctx.oldSpans != 0 then q / ctx.oldSpans as real else q;
    if ctx.newSpans != 0 then Max(1, RoundHalfEven(perSpan)) else 0
  }

  /** The unrounded facade count: the same number per span over the new spans. */
  function FacadeQty(ctx: CorpusContext, row: ParsedRow): real {
    var q := QtyOrZero(row.qty);
    var perSpan := if ctx.oldSpans != 0 then q / ctx.oldSpans as real else q;
    perSpan * ctx.newSpans as real
  }

  function FacadeTarget(ctx: CorpusContext, row: ParsedRow): int {
    var nq := FacadeQty(ctx, row);
    if nq != 0.0 then Ceil(nq) else 0
  }

  /** The span splits before fitting. */
  function FacadeSplitOf(ctx: CorpusContext, row: ParsedRow): seq<int> {
    var k := FacadesPerSpanInt(ctx, row);
    if ctx.spanWidths != [] && k != 0 then FacadeSplit(ctx.spanWidths, k) else []
  }

  function FacadeWidthsOf(ctx: CorpusContext, row: ParsedRow): seq<int> {
    FitWidths(FacadeSplitOf(ctx, row), FacadeTarget(ctx, row))
  }

  /** A top or bottom panel that is cut per section, or whose count is divided by the
      sections, needs a quantity. */
  predicate CoverComputable(ctx: CorpusContext, row: ParsedRow) {
    KindOfRow(row) == CoverPart ==> row.qty.Some? || (ctx.sectionsCount <= 0 && !CoverIsWhole(ctx, row))
  }

  /** A negative facade target must not cut all the facade widths away, since the widest
      of them is taken. */
  predicate FacadeComputable(ctx: CorpusContext, row: ParsedRow) {
    KindOfRow(row) == FacadePart ==> FacadeSplitOf(ctx, row) == [] || FacadeWidthsOf(ctx, row) != []
  }

  /** What the source needs of a part to compute it without an exception. */
  predicate Computable(ctx: CorpusContext, row: ParsedRow) {
    CoverComputable(ctx, row) && FacadeComputable(ctx, row)
  }

  /** A top or bottom panel longer than one and a half original sections spans the cabinet. */
  predicate CoverIsWhole(ctx: CorpusContext, row: ParsedRow) {
    row.length.Some? && row.length.value != 0 && row.length.value as real > ctx.sectionWidth as real * 1.5
  }

  /** Quantity (before rounding), length and width of a recomputed part. */
  datatype Plan = Plan(qty: real, length: int, width: int)

  function PlanOf(ctx: CorpusContext, row: ParsedRow): Plan
    requires |ctx.sections| > 0 && CoverComputable(ctx, row)
  {
    var n := |ctx.sections|;
    var q := QtyOrZero(row.qty);
    var length := row.length.GetOr(0);
    var width := row.width.GetOr(0);
    match KindOfRow(row)
    case ShelfPart => Plan(ShelfQty(ctx, q), length, if n != 0 then CeilDiv(ctx.newWidth, n) else width)
    case FacadePart =>
      var widths := FacadeWidthsOf(ctx, row);
      Plan(FacadeQty(ctx, row), length,
        if widths != [] then MaxOf(widths)
        else if ctx.newSpans != 0 then ctx.newWidth / ctx.newSpans else width)
    case BackPart => Plan(n as real, length, if n != 0 then ctx.newWidth / n else width)
    case CoverPart => CoverPlan(ctx, row)
    case SidePart => Plan(2.0, length, width)
    case PartitionPart => Plan(if n > 1 then (n - 1) as real else 0.0, length, width)
    case WallPart => Plan((n + 1) as real, length, width)
    case PlinthPart => Plan(n as real, if n != 0 then ctx.newWidth / n else length, width)
    case OtherPart =>
      Plan(q * (if ctx.oldWidth != 0 then ctx.newWidth as real / ctx.oldWidth as real else ctx.sectionRatio), length, width)
  }

  /** The shelf count: the inherited plan, else the old count per old section times the new
      sections, else the count as it was. */
  function ShelfQty(ctx: CorpusContext, q: real): real {
    var fromPlan := if ctx.shelvesPlan != [] then SumR(ctx.shelvesPlan) else 0.0;
    var fromRatio := if fromPlan == 0.0 && ctx.sectionsCount != 0
      then ctx.oldPolki / ctx.sectionsCount as real * |ctx.sections| as real else fromPlan;
    if fromRatio != 0.0 then fromRatio else q
  }

  /** A whole top or bottom panel keeps its count and spans the new width; panels cut per
      section keep their count per section and take a section's width. */
  function CoverPlan(ctx: CorpusContext, row: ParsedRow): Plan
    requires |ctx.sections| > 0 && CoverComputable(ctx, row) && KindOfRow(row) == CoverPart
  {
    var n := |ctx.sections|;
    if CoverIsWhole(ctx, row) then Plan(row.qty.value, ctx.newWidth, row.width.GetOr(0))
    else
      var pieces := if ctx.sectionsCount > 0 then row.qty.value / ctx.sectionsCount as real else 2.0;
      Plan(n as real * pieces, ctx.newWidth / n, row.width.GetOr(0))
  }

  /** The recomputed part: facades take the target count, the others the rounded-up quantity. */
  function NewPartOf(ctx: CorpusContext, m: map<string, string>, row: ParsedRow): NewPart
    requires |ctx.sections| > 0 && CoverComputable(ctx, row)
  {
    var plan := PlanOf(ctx, row);
    var facade := KindOfRow(row) == FacadePart;
    NewPart(row.name, InferredMaterial(m, Lower(row.name), row.material), row.thickness, plan.length, plan.width,
      if facade then FacadeWidthsOf(ctx, row) else [],
      if facade then FacadeTarget(ctx, row) else Ceil(plan.qty))
  }

  function NewPartsOf(ctx: CorpusContext, m: map<string, string>, rows: seq<ParsedRow>): (r: seq<NewPart>)
    requires |ctx.sections| > 0 && forall i :: 0 <= i < |rows| ==> CoverComputable(ctx, rows[i])
    ensures |r| == |rows| && forall i :: 0 <= i < |rows| ==> r[i] == NewPartOf(ctx, m, rows[i])
  {
    seq(|rows|, i requires 0 <= i < |rows| => NewPartOf(ctx, m, rows[i]))
  }

  /** The method building one part: the branch of its rule, then its material. */
  method RecalculatePart(ctx: CorpusContext, m: map<string, string>, row: ParsedRow) returns (part: NewPart)
    requires |ctx.sections| > 0 && CoverComputable(ctx, row)
    ensures part == NewPartOf(ctx, m, row)
  {
    var plan, widths, facadeTarget := PlanPart(ctx, row);
    var material := InferredMaterial(m, Lower(row.name), row.material);
    part := NewPart(row.name, material, row.thickness, plan.length, plan.width, widths,
      if facadeTarget.Some? then facadeTarget.value else Ceil(plan.qty));
  }

  /** The branches of the part loop: quantity, length and width by the part's rule; facades
      also get their widths and target count. */
  method PlanPart(ctx: CorpusContext, row: ParsedRow) returns (plan: Plan, widths: seq<int>, facadeTarget: Option<int>)
    requires |ctx.sections| > 0 && CoverComputable(ctx, row)
    ensures plan == PlanOf(ctx, row)
    ensures KindOfRow(row) == FacadePart ==> widths == FacadeWidthsOf(ctx, row) && facadeTarget == Some(FacadeTarget(ctx, row))
    ensures KindOfRow(row) != FacadePart ==> widths == [] && facadeTarget == None
  {
    var n := |ctx.sections|;
    var newQty := QtyOrZero(row.qty);
    var newLength := row.length.GetOr(0);
    var newWidthPart := row.width.GetOr(0);
    widths := [];
    facadeTarget := None;
    match KindOfRow(row) {
      case ShelfPart =>
        var fromRatio := if ctx.shelvesPlan != [] then SumR(ctx.shelvesPlan) else 0.0;
        if fromRatio == 0.0 && ctx.sectionsCount != 0 {
          fromRatio := ctx.oldPolki / ctx.sectionsCount as real * n as real;
        }
        newQty := if fromRatio != 0.0 then fromRatio else newQty;
        assert newQty == ShelfQty(ctx, QtyOrZero(row.qty));
        newWidthPart := if n != 0 then CeilDiv(ctx.newWidth, n) else newWidthPart;
      case FacadePart =>
        plan, widths, facadeTarget := PlanFacade(ctx, row);
        return;
      case BackPart =>
        newQty := n as real;
        newWidthPart := if n != 0 then ctx.newWidth / n else newWidthPart;
      case CoverPart =>
        if CoverIsWhole(ctx, row) {
          newQty := row.qty.value;
          newLength := ctx.newWidth;
        } else {
          var pieces := if ctx.sectionsCount > 0 then row.qty.value / ctx.sectionsCount as real else 2.0;
          newQty := n as real * pieces;
          newLength := ctx.newWidth / n;
        }
        assert Plan(newQty, newLength, newWidthPart) == CoverPlan(ctx, row);
      case SidePart =>
        newQty := 2.0;
      case PartitionPart =>
        newQty := if n > 1 then (n - 1) as real else 0.0;
      case WallPart =>
        newQty := (n + 1) as real;
      case PlinthPart =>
        newQty := n as real;
        newLength := if n != 0 then ctx.newWidth / n else newLength;
      case OtherPart =>
        newQty := newQty * (if ctx.oldWidth != 0 then ctx.newWidth as real / ctx.oldWidth as real else ctx.sectionRatio);
    }
    plan := Plan(newQty, newLength, newWidthPart);
  }

  /** The facade branch: the same facades per span over the new spans, each span split
      evenly, the widths cut or padded to the rounded-up count. */
  method PlanFacade(ctx: CorpusContext, row: ParsedRow) returns (plan: Plan, widths: seq<int>, facadeTarget: Option<int>)
    requires |ctx.sections| > 0 && CoverComputable(ctx, row) && KindOfRow(row) == FacadePart
    ensures plan == PlanOf(ctx, row)
    ensures widths == FacadeWidthsOf(ctx, row) && facadeTarget == Some(FacadeTarget(ctx, row))
  {
    var newQty := FacadeQty(ctx, row);
    var perSpanInt := FacadesPerSpanInt(ctx, row);
    var target := if newQty != 0.0 then Ceil(newQty) else 0;
    facadeTarget := Some(target);
    widths := FacadeWidths(ctx.spanWidths, perSpanInt, target);
    var newWidthPart := row.width.GetOr(0);
    if widths != [] {
      newWidthPart := MaxOf(widths);
    } else {
      newWidthPart := if ctx.newSpans != 0 then ctx.newWidth / ctx.newSpans else newWidthPart;
    }
    plan := Plan(newQty, row.length.GetOr(0), newWidthPart);
  }

  /** The part loop. */
  method RecalculateParts(ctx: CorpusContext, m: map<string, string>, rows: seq<ParsedRow>) returns (parts: seq<NewPart>)
    requires |ctx.sections| > 0 && forall i :: 0 <= i < |rows| ==> CoverComputable(ctx, rows[i])
    ensures parts == NewPartsOf(ctx, m, rows)
  {
    parts := [];
    var i := 0;
    while i < |rows|
      invariant 0 <= i <= |rows|
      invariant parts == NewPartsOf(ctx, m, rows[..i])
    {
      var part := RecalculatePart(ctx, m, rows[i]);
      parts := parts + [part];
      i := i + 1;
    }
    assert rows[..|rows|] == rows;
  }

  // ---------------------------------------------------------------------------
  // Weight

  /** A part is weighed when it has a thickness, a length, a quantity and a width. */
  predicate Weighed(p: NewPart) {
    p.thickness.Some? && p.thickness.value != 0 && p.length != 0 && p.qty != 0 && (p.width != 0 || p.widths != [])
  }

  /** The weight of one panel of the part at the given width. */
  function PanelWeight(p: NewPart, width: int): real
    requires p.thickness.Some?
  {
    Volume(p.length, width, p.thickness.value) * Density(MaterialHint(p.name, p.material)) as real
  }

  /** The weights of panels of the part at each of the widths. */
  function WidthsWeight(p: NewPart, widths: seq<int>): real
    requires p.thickness.Some?
  {
    if widths == [] then 0.0
    else WidthsWeight(p, widths[..|widths| - 1]) + PanelWeight(p, widths[|widths| - 1])
  }

  /** The count of panels beyond the listed widths, weighed at the last width. */
  function ExtraPanels(p: NewPart): int {
    Max(0, p.qty - |p.widths|)
  }

  /** The weight of a part: one panel per listed width up to the quantity, the rest at the
      last width; a part without facade widths weighs its quantity at its single width. */
  function PartWeight(p: NewPart): real {
    if !Weighed(p) then 0.0
    else if p.widths != [] then
      WidthsWeight(p, PyTake(p.widths, p.qty))
        + (if ExtraPanels(p) != 0 then PanelWeight(p, p.widths[|p.widths| - 1]) * ExtraPanels(p) as real else 0.0)
    else PanelWeight(p, p.width) * p.qty as real
  }

  function PartsWeight(parts: seq<NewPart>): real {
    if parts == [] then 0.0 else PartsWeight(parts[..|parts| - 1]) + PartWeight(parts[|parts| - 1])
  }

  /** The weight loop over the parts, with its inner loop over facade widths. */
  method CorpusWeight(parts: seq<NewPart>) returns (weight: real)
    ensures weight == PartsWeight(parts)
  {
    weight := 0.0;
    var i := 0;
    while i < |parts|
      invariant 0 <= i <= |parts|
      invariant weight == PartsWeight(parts[..i])
    {
      var w := WeighPart(parts[i]);
      weight := weight + w;
      assert parts[..i + 1][..i] == parts[..i];
      i := i + 1;
    }
    assert parts[..|parts|] == parts;
  }

  /** The weight of one part, with the loop over its facade widths. */
  method WeighPart(p: NewPart) returns (w: real)
    ensures w == PartWeight(p)
  {
    w := 0.0;
    if Weighed(p) {
      if p.widths != [] {
        var taken := PyTake(p.widths, p.qty);
        var j := 0;
        while j < |taken|
          invariant 0 <= j <= |taken|
          invariant w == WidthsWeight(p, taken[..j])
        {
          w := w + PanelWeight(p, taken[j]);
          assert taken[..j + 1][..j] == taken[..j];
          j := j + 1;
        }
        assert taken[..|taken|] == taken;
        var extra := Max(0, p.qty - |p.widths|);
        if extra != 0 {
          w := w + PanelWeight(p, p.widths[|p.widths| - 1]) * extra as real;
        }
      } else {
        w := PanelWeight(p, p.width) * p.qty as real;
      }
    }
  }

  lemma PanelWeightAdds(p: NewPart, a: int, b: int)
    requires p.thickness.Some?
    ensures PanelWeight(p, a) + PanelWeight(p, b) == PanelWeight(p, a + b)
  {
    var l, t := p.length as real / 1000.0, p.thickness.value as real / 1000.0;
    var d := Density(MaterialHint(p.name, p.material)) as real;
    calc {
      PanelWeight(p, a) + PanelWeight(p, b);
      (l * (a as real / 1000.0) * t) * d + (l * (b as real / 1000.0) * t) * d;
      { assert (a as real / 1000.0) + (b as real / 1000.0) == (a + b) as real / 1000.0; }
      (l * ((a + b) as real / 1000.0) * t) * d;
    }
  }

  /** Panels at several widths weigh as one panel as wide as all of them together. */
  lemma {:induction false} WidthsWeightIsSum(p: NewPart, widths: seq<int>)
    requires p.thickness.Some?
    ensures WidthsWeight(p, widths) == PanelWeight(p, Sum(widths))
  {
    if widths == [] {
      assert PanelWeight(p, 0) == 0.0;
    } else {
      var init, last := widths[..|widths| - 1], widths[|widths| - 1];
      WidthsWeightIsSum(p, init);
      SumAppend(init, [last]);
      assert init + [last] == widths;
      PanelWeightAdds(p, Sum(init), last);
    }
  }

  /** A weighed facade whose widths match its count weighs as one panel as wide as all its
      facades together. */
  lemma FacadeWeight(p: NewPart)
    requires Weighed(p) && p.widths != [] && |p.widths| == p.qty
    ensures PartWeight(p) == PanelWeight(p, Sum(p.widths))
  {
    assert PyTake(p.widths, p.qty) == p.widths;
    WidthsWeightIsSum(p, p.widths);
  }

  // ---------------------------------------------------------------------------
  // The whole resize

  /** Hardware lines of a resize: the recomputed count, unit and details. */
  function ResizedLines(furn: seq<FurnOut>): (r: seq<HardwareLine>)
    ensures |r| == |furn| && forall i :: 0 <= i < |furn| ==>
      r[i] == HardwareLine(furn[i].name, furn[i].code, Some(furn[i].qty as real), furn[i].unit, furn[i].meta)
  {
    seq(|furn|, i requires 0 <= i < |furn| =>
      HardwareLine(furn[i].name, furn[i].code, Some(furn[i].qty as real), furn[i].unit, furn[i].meta))
  }

  /** The hardware weighs 50 g a piece. */
  function HardwareWeight(furn: seq<FurnOut>): real {
    if furn == [] then 0.0 else HardwareWeight(furn[..|furn| - 1]) + furn[|furn| - 1].qty as real * 0.05
  }

  function AsParts(parts: seq<NewPart>): (r: seq<Part>)
    ensures |r| == |parts| && forall i :: 0 <= i < |parts| ==> r[i] == AsPart(parts[i])
  {
    seq(|parts|, i requires 0 <= i < |parts| => AsPart(parts[i]))
  }

  /** Recommendations of a resize: anti-tip hardware above 2500 mm, then the hardware notices. */
  function Recommendations(spec: ParsedSpec, furnNotices: seq<Notice>): seq<Notice> {
    (if spec.height > 2500 then [AntiTip] else []) + furnNotices
  }

  /** What a resize needs of the specification: a known facade height for the hardware, and
      every part computable. */
  predicate Resizable(spec: ParsedSpec, newWidth: int)
    requires newWidth > 0
  {
    FacadeHeightKnown(spec)
    && forall i :: 0 <= i < |spec.corpusRows| ==> Computable(CorpusCtx(spec, newWidth), spec.corpusRows[i])
  }

  function ResizedParts(spec: ParsedSpec, newWidth: int): seq<NewPart>
    requires newWidth > 0 && Resizable(spec, newWidth)
  {
    NewPartsOf(CorpusCtx(spec, newWidth), MaterialMapOf(spec.corpusRows), spec.corpusRows)
  }

  /** The result for a new width. */
  function SlowPath(spec: ParsedSpec, newWidth: int): Recalculated
    requires newWidth > 0 && Resizable(spec, newWidth)
  {
    var parts := ResizedParts(spec, newWidth);
    var fctx := FurnCtx(spec, newWidth);
    var furn := ItemsOut(fctx, spec.furnitureItems);
    Recalculated(AsParts(parts), PartsWeight(parts) + HardwareWeight(furn),
      CutWarningsOf(AsParts(parts), false),
      Recommendations(spec, FurnNotices(fctx, spec.furnitureItems)),
      ResizedLines(furn))
  }

  /** `_recalculate_corpus`. */
  method RecalculateCorpus(spec: ParsedSpec, newWidth: int) returns (r: Recalculated)
    requires newWidth > 0
    requires newWidth != spec.widthTotal ==> Resizable(spec, newWidth)
    ensures newWidth == spec.widthTotal ==> r == FastPath(spec)
    ensures newWidth != spec.widthTotal ==> r == SlowPath(spec, newWidth)
  {
    if newWidth == spec.widthTotal {
      r := KeepAsIs(spec);
    } else {
      r := Resize(spec, newWidth);
    }
  }

  /** The unchanged width: the parts and hardware as they are, with the sheet check of the
      sized parts. */
  method KeepAsIs(spec: ParsedSpec) returns (r: Recalculated)
    ensures r == FastPath(spec)
  {
    var parts := FastParts(spec.corpusRows);
    var cut := CollectCutWarnings(parts, true);
    r := Recalculated(parts, spec.totalWeight, cut, [], FastLines(spec.furnitureItems));
  }

  /** A new width: parts, weight, sheet checks, recommendations and hardware. */
  method Resize(spec: ParsedSpec, newWidth: int) returns (r: Recalculated)
    requires newWidth > 0 && Resizable(spec, newWidth)
    ensures r == SlowPath(spec, newWidth)
  {
    var ctx := CorpusCtx(spec, newWidth);
    var materialMap := BuildMaterialMap(spec.corpusRows);
    var newParts := RecalculateParts(ctx, materialMap, spec.corpusRows);
    assert newParts == ResizedParts(spec, newWidth);
    var weight := CorpusWeight(newParts);
    var furn, furnWarnings, _ := RecalculateFurniture(spec, newWidth);
    var parts := AsParts(newParts);
    var cut := CollectCutWarnings(parts, false);
    r := Recalculated(parts, weight + HardwareWeight(furn), cut, Recommendations(spec, furnWarnings), ResizedLines(furn));
  }

  // ---------------------------------------------------------------------------
  // Properties of the part rules

  /** Back panels and plinths: one per section, each a section's share of the width
      rounded down; partitions between sections, walls around them, two sides. */
  lemma SectionPartsRules(ctx: CorpusContext, m: map<string, string>, row: ParsedRow)
    requires |ctx.sections| > 0 && CoverComputable(ctx, row)
    ensures var (p, n, kind) := (NewPartOf(ctx, m, row), |ctx.sections|, KindOfRow(row));
      (kind == BackPart ==> p.qty == n && p.width * n <= ctx.newWidth < p.width * n + n)
      && (kind == PlinthPart ==> p.qty == n && p.length * n <= ctx.newWidth < p.length * n + n)
      && (kind == PartitionPart ==> p.qty == n - 1)
      && (kind == WallPart ==> p.qty == n + 1)
      && (kind == SidePart ==> p.qty == 2)
      && (kind != FacadePart ==> p.widths == [])
  {
    var n := |ctx.sections|;
    var p := NewPartOf(ctx, m, row);
    if KindOfRow(row) == BackPart {
      DivLe(ctx.newWidth, n);
    } else if KindOfRow(row) == PlinthPart {
      DivLe(ctx.newWidth, n);
    }
  }

  /** Shelves take the inherited plan when it is not empty, each as wide as a new section
      rounded up. */
  lemma ShelfRules(ctx: CorpusContext, m: map<string, string>, row: ParsedRow)
    requires |ctx.sections| > 0 && KindOfRow(row) == ShelfPart
    ensures var (p, n) := (NewPartOf(ctx, m, row), |ctx.sections|);
      (p.width - 1) * n < ctx.newWidth <= p.width * n
      && (SumR(ctx.shelvesPlan) != 0.0 ==> SumR(ctx.shelvesPlan) <= p.qty as real < SumR(ctx.shelvesPlan) + 1.0)
  {
    if SumR(ctx.shelvesPlan) != 0.0 {
      assert ctx.shelvesPlan != [];
    }
  }

  /** A whole top or bottom panel keeps its count and spans the new width; panels per
      section keep their count per section and each takes a section's width. */
  lemma CoverRules(ctx: CorpusContext, m: map<string, string>, row: ParsedRow)
    requires |ctx.sections| > 0 && CoverComputable(ctx, row) && KindOfRow(row) == CoverPart
    ensures var (p, n) := (NewPartOf(ctx, m, row), |ctx.sections|);
      (CoverIsWhole(ctx, row) ==> p.length == ctx.newWidth && p.qty == Ceil(row.qty.value))
      && (!CoverIsWhole(ctx, row) ==> p.length * n <= ctx.newWidth < p.length * n + n)
      && (!CoverIsWhole(ctx, row) && ctx.sectionsCount > 0 ==>
            var perSection := row.qty.value / ctx.sectionsCount as real;
            n as real * perSection <= p.qty as real < n as real * perSection + 1.0)
      && (!CoverIsWhole(ctx, row) && ctx.sectionsCount <= 0 ==> p.qty == 2 * n)
  {
    if !CoverIsWhole(ctx, row) {
      DivLe(ctx.newWidth, |ctx.sections|);
    }
  }

  /** Any other part scales with the width: its count times the new width over the old,
      rounded up. */
  lemma OtherRules(ctx: CorpusContext, m: map<string, string>, row: ParsedRow)
    requires |ctx.sections| > 0 && KindOfRow(row) == OtherPart && ctx.oldWidth != 0
    ensures var (p, scaled) := (NewPartOf(ctx, m, row), QtyOrZero(row.qty) * (ctx.newWidth as real / ctx.oldWidth as real));
      scaled <= p.qty as real < scaled + 1.0
  {
  }

  /** Facades: the count per old span carried over the new spans and rounded up; with a
      positive count there is one width per facade, the widest sets the part's width, none
      is wider than 600 mm, and when every span holds the same whole number of facades they
      cover the new width exactly. */
  lemma FacadeRules(ctx: CorpusContext, m: map<string, string>, row: ParsedRow)
    requires ValidContext(ctx) && KindOfRow(row) == FacadePart
    ensures var p := NewPartOf(ctx, m, row);
      p.qty == FacadeTarget(ctx, row)
      && (FacadeQty(ctx, row) != 0.0 ==> FacadeQty(ctx, row) <= p.qty as real < FacadeQty(ctx, row) + 1.0)
    ensures var p := NewPartOf(ctx, m, row);
      p.qty > 0 ==> (|p.widths| == p.qty && p.width == MaxOf(p.widths)
        && (forall j :: 0 <= j < |p.widths| ==> p.widths[j] <= MaxFacadeWidth)
        && (FacadesPerSpanInt(ctx, row) * ctx.newSpans == p.qty ==> Sum(p.widths) == ctx.newWidth))
  {
    var p := NewPartOf(ctx, m, row);
    ContextShape(ctx);
    FacadePartShape(ctx, m, row);
    if p.qty > 0 {
      FacadeWidthFacts(ctx, row);
    }
  }

  /** A facade part takes the target count, the fitted widths, and the widest of them. */
  lemma FacadePartShape(ctx: CorpusContext, m: map<string, string>, row: ParsedRow)
    requires |ctx.sections| > 0 && KindOfRow(row) == FacadePart
    ensures var p := NewPartOf(ctx, m, row);
      p.qty == FacadeTarget(ctx, row) && p.widths == FacadeWidthsOf(ctx, row)
      && (p.widths != [] ==> p.width == MaxOf(p.widths))
  {
  }

  /** With a positive target the fitted widths are one per facade, none wider than
      600 mm, and cover the new width when every span holds the same number of them. */
  lemma FacadeWidthFacts(ctx: CorpusContext, row: ParsedRow)
    requires ValidContext(ctx) && FacadeTarget(ctx, row) > 0
    ensures var w, target := FacadeWidthsOf(ctx, row), FacadeTarget(ctx, row);
      |w| == target && (forall j :: 0 <= j < |w| ==> w[j] <= MaxFacadeWidth)
      && (FacadesPerSpanInt(ctx, row) * ctx.newSpans == target ==> Sum(w) == ctx.newWidth)
  {
    var k := FacadesPerSpanInt(ctx, row);
    var target := FacadeTarget(ctx, row);
    FacadeSplitShape(ctx, row);
    var split := FacadeSplit(ctx.spanWidths, k);
    FitWidthsCount(split, target);
    forall j | 0 <= j < target
      ensures FitWidths(split, target)[j] <= MaxFacadeWidth
    {
      var v := FitWidths(split, target)[j];
      var i :| 0 <= i < |split| && split[i] == v;
    }
    if k * ctx.newSpans == target {
      assert FitWidths(split, target) == split;
    }
  }

  /** In a valid context a facade row splits every span into at least one facade: `k`
      facades per span, none wider than 600 mm, covering the new width. */
  lemma FacadeSplitShape(ctx: CorpusContext, row: ParsedRow)
    requires ValidContext(ctx)
    ensures var k := FacadesPerSpanInt(ctx, row);
      k >= 1 && FacadeSplitOf(ctx, row) == FacadeSplit(ctx.spanWidths, k) != []
      && |FacadeSplit(ctx.spanWidths, k)| == k * ctx.newSpans
      && Sum(FacadeSplit(ctx.spanWidths, k)) == ctx.newWidth
      && forall j :: 0 <= j < |FacadeSplit(ctx.spanWidths, k)| ==> FacadeSplit(ctx.spanWidths, k)[j] <= MaxFacadeWidth
  {
    ContextShape(ctx);
    var k := FacadesPerSpanInt(ctx, row);
    FacadeSplitCover(ctx.spanWidths, k);
    FacadeSplitNarrow(ctx.spanWidths, k);
    assert k * ctx.newSpans > 0 by {
      MulLe(1, k, ctx.newSpans);
    }
  }

  // ---------------------------------------------------------------------------
  // Worked examples

  /** Two 1000 mm sections with five shelves. */
  function ShelvesSpec(): ParsedSpec {
    ParsedSpec("test.xlsx", 2000, 600, 2400, 2, 1000,
      [ParsedRow("Полка", Some(16), Some(1000), Some(400), Some(5.0), Some("ЛДСП"))], [], 120.0)
  }

  lemma ShelvesSpecPlan()
    ensures ShelvesPlan(ShelvesSpec(), 3000) == [3.0, 3.0, 2.0]
  {
    var spec := ShelvesSpec();
    ShelfRow(spec.corpusRows[0]);
    assert spec.corpusRows[..0] == [];
    assert SumQtyNamed(spec.corpusRows, "полк") == 5.0;
    var types := AnalyzeSectionTypes(spec);
    assert ItemsPlan(5.0, 2) == [3.0, 2.0] by {
      assert ItemsBase(5.0, 2) == 2;
      IntRemainder(5, 2, 2);
    }
    assert types[0].shelfCount == 3.0 && types[1].shelfCount == 2.0;
    SplitExamples();
    var news := SplitSections(3000);
    assert ProportionalIndex(1, 2, 3) == 0 && ProportionalIndex(2, 2, 3) == 1;
    SectionTypeMapInherits(types, news, 0);
    SectionTypeMapInherits(types, news, 1);
    SectionTypeMapInherits(types, news, 2);
  }

  /** Resizing those sections to 3000 mm gives three sections holding 3, 3 and 2 shelves:
      eight shelves. */
  lemma ShelvesExample()
    ensures var spec := ShelvesSpec();
      NewPartOf(CorpusCtx(spec, 3000), MaterialMapOf(spec.corpusRows), spec.corpusRows[0]).qty == 8
  {
    var spec := ShelvesSpec();
    ShelvesSpecPlan();
    ShelvesTotal();
    ShelfRow(spec.corpusRows[0]);
  }

  lemma ShelvesTotal()
    ensures SumR([3.0, 3.0, 2.0]) == 8.0
  {
    assert [3.0, 3.0, 2.0][..2] == [3.0, 3.0] && [3.0, 3.0][..1] == [3.0] && [3.0][..0] == [];
  }

  /** A part named "Полка" is a shelf. */
  lemma ShelfRow(r: ParsedRow)
    requires r.name == "Полка"
    ensures NameHas(r, "полк") && KindOfRow(r) == ShelfPart
  {
    var low := Lower(r.name);
    assert low[..4] == "полк";
    assert StartsWith(low, "полк");
  }

  /** A part named "Фасад" is a facade. */
  lemma FacadeRow(r: ParsedRow)
    requires r.name == "Фасад"
    ensures KindOfRow(r) == FacadePart
  {
    var low := Lower(r.name);
    assert low == "фасад";
    NotContainsMissingChar(low, "полк", 'п');
    assert StartsWith(low, "фасад");
  }

  /** Two 1000 mm sections with eight facades. */
  function FacadesSpec(): ParsedSpec {
    ParsedSpec("test.xlsx", 2000, 600, 2400, 2, 1000,
      [ParsedRow("Фасад", Some(18), Some(2300), Some(500), Some(8.0), Some("МДФ"))], [], 120.0)
  }

  lemma FacadesSpecContext()
    ensures var ctx := CorpusCtx(FacadesSpec(), 2500);
      ctx.oldSpans == 4 && ctx.newSpans == 6 && ctx.spanWidths == SpanWidths(SplitSections(2500))
    ensures KindOfRow(FacadesSpec().corpusRows[0]) == FacadePart
  {
    var spec := FacadesSpec();
    SplitExamples();
    SpanExamples();
    OldSpansProduct(spec);
    FacadeRow(spec.corpusRows[0]);
  }

  /** Resizing them to 2500 mm (three sections, six spans) keeps two facades per span:
      twelve facades, each span split evenly in two. */
  lemma FacadesExample()
    ensures var (spec, ctx) := (FacadesSpec(), CorpusCtx(FacadesSpec(), 2500));
      var p := NewPartOf(ctx, MaterialMapOf(spec.corpusRows), spec.corpusRows[0]);
      p.qty == 12 && p.widths == FacadeSplit(SpanWidths(SplitSections(2500)), 2)
  {
    var spec := FacadesSpec();
    var ctx := CorpusCtx(spec, 2500);
    var row := spec.corpusRows[0];
    FacadesSpecContext();
    assert FacadeQty(ctx, row) == 12.0;
    assert FacadeTarget(ctx, row) == 12;
    assert FacadesPerSpanInt(ctx, row) == 2;
    ContextShape(ctx);
    FacadeSplitCover(ctx.spanWidths, 2);
  }

  /** An unchanged width keeps the side panels, the recorded 85.5 kg, no cutting warning,
      and the eight hinges. */
  lemma UnchangedExample()
    ensures var spec := ParsedSpec("test.xlsx", 2000, 600, 2400, 2, 1000,
        [ParsedRow("Боковина", Some(16), Some(2400), Some(600), Some(2.0), Some("ЛДСП"))],
        [FurnitureItem("Петля", None, Some(8.0), Some("шт"))], 85.5);
      var r := FastPath(spec);
      |r.parts| == 1 && r.parts[0].name == "Боковина" && r.weight == 85.5 && r.cutWarnings == []
      && |r.furniture| == 1 && r.furniture[0].qty == Some(8.0)
  {
    var parts := FastParts([ParsedRow("Боковина", Some(16), Some(2400), Some(600), Some(2.0), Some("ЛДСП"))]);
    SmallPanelFits("Боковина", Some("ЛДСП"), 2400, 600);
    assert parts[..0] == [];
  }
}
