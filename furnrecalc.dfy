/**
 * Hardware recalculation for a resized cabinet: hinges follow the facades and
 * their height, handles follow facades and drawers, shelf supports follow the
 * shelves, ties follow the joints between sections, rods and LED strips follow
 * the new sections and spans; the rest scales with the number of spans.
 */
module FurnitureRecalc {
  import opened Wrappers
  import opened Numeric
  import opened Text
  import opened Planner
  import opened Records

  /** `_petals_per_facade`: hinges per facade, by facade height in millimetres. */
  function PetalsPerFacade(height: int): (p: int)
    ensures 2 <= p <= 8
  {
    if height <= 900 then 2
    else if height <= 1400 then 3
    else if height <= 1900 then 4
    else if height <= 2400 then 5
    else if height <= 2800 then 7
    else 8
  }

  /** A taller facade never gets fewer hinges. */
  lemma PetalsMonotone(h1: int, h2: int)
    requires h1 <= h2
    ensures PetalsPerFacade(h1) <= PetalsPerFacade(h2)
  {
  }

  /** The original cabinet as a list of sections: `sectionsCount` sections of the section width. */
  function OriginalSections(spec: ParsedSpec): (r: seq<int>)
    ensures |r| == Max(spec.sectionsCount, 0)
  {
    Copies(spec.sectionWidth, Max(spec.sectionsCount, 0))
  }

  /** `k` sections of width `w`. */
  function Copies(w: int, k: nat): (r: seq<int>)
    ensures |r| == k && forall i :: 0 <= i < k ==> r[i] == w
  {
    seq(k, _ => w)
  }

  /** Spans of the original cabinet. */
  function OldSpans(spec: ParsedSpec): int {
    TotalSpans(OriginalSections(spec))
  }

  /** Spans of the resized cabinet. */
  function NewSpans(newWidth: int): int
    requires newWidth > 0
  {
    TotalSpans(SplitSections(newWidth))
  }

  /** Identical sections have identical spans, so the original spans are a product. */
  lemma OldSpansProduct(spec: ParsedSpec)
    ensures OldSpans(spec) == Max(spec.sectionsCount, 0) * SpansForSection(spec.sectionWidth)
  {
    SameSectionsSpans(spec.sectionWidth, Max(spec.sectionsCount, 0));
  }

  lemma {:induction false} SameSectionsSpans(w: int, k: nat)
    ensures TotalSpans(Copies(w, k)) == k * SpansForSection(w)
  {
    if k > 0 {
      assert Copies(w, k)[..k - 1] == Copies(w, k - 1);
      SameSectionsSpans(w, k - 1);
      MulSucc(k - 1, SpansForSection(w));
    }
  }

  /** The first part whose name contains `k`. */
  function FirstNamed(rows: seq<ParsedRow>, k: string): (r: Option<ParsedRow>)
    ensures r.Some? <==> exists i :: 0 <= i < |rows| && NameHas(rows[i], k)
    ensures r.Some? ==> exists i :: (0 <= i < |rows| && rows[i] == r.value && NameHas(rows[i], k)
      && forall j :: 0 <= j < i ==> !NameHas(rows[j], k))
  {
    if rows == [] then None
    else if NameHas(rows[0], k) then Some(rows[0])
    else
      var r := FirstNamed(rows[1..], k);
      assert forall j :: 1 <= j < |rows| ==> rows[j] == rows[1..][j - 1];
      if r.Some? then
        var i :| 0 <= i < |rows[1..]| && rows[1..][i] == r.value && NameHas(rows[1..][i], k)
          && forall j :: 0 <= j < i ==> !NameHas(rows[1..][j], k);
        assert rows[i + 1] == r.value;
        r
      else r
  }

  /** The first facade part has a length, or there is no facade part: the hinge count
      reads the facade height from it. */
  predicate FacadeHeightKnown(spec: ParsedSpec) {
    var f := FirstNamed(spec.corpusRows, "фасад");
    f.None? || f.value.length.Some?
  }

  /** The facades of the original cabinet: the first facade part's quantity, or one per span. */
  function OldFacades(spec: ParsedSpec): real {
    var f := FirstNamed(spec.corpusRows, "фасад");
    if f.Some? && f.value.qty.Some? then f.value.qty.value else OldSpans(spec) as real
  }

  /** Facades after the resize: the same number of facades per span, rounded up. */
  function NewFacades(spec: ParsedSpec, newWidth: int): (r: int)
    requires newWidth > 0
    ensures FacadesTarget(spec, newWidth) <= r as real < FacadesTarget(spec, newWidth) + 1.0
  {
    Ceil(FacadesTarget(spec, newWidth))
  }

  /** The old facades per old span (all of them when there were no spans), times the new spans. */
  function FacadesTarget(spec: ParsedSpec, newWidth: int): real
    requires newWidth > 0
  {
    var perSpan := if OldSpans(spec) != 0 then OldFacades(spec) / OldSpans(spec) as real else OldFacades(spec);
    perSpan * NewSpans(newWidth) as real
  }

  /** Handles needed for drawers: the drawers scaled by the section ratio, rounded up. */
  function HandlesDrawerQty(oldDrawers: real, sectionRatio: real): (r: int)
    ensures oldDrawers * sectionRatio <= r as real < oldDrawers * sectionRatio + 1.0
  {
    var recalculated := if oldDrawers != 0.0 then oldDrawers * sectionRatio else 0.0;
    if recalculated != 0.0 then Ceil(recalculated) else 0
  }

  /** Everything the per-item rules read. */
  datatype FurnContext = FurnContext(
    sections: seq<int>,
    sectionsCount: int,
    height: int,
    spanRatio: real,
    sectionRatio: real,
    oldShelves: real,
    newShelves: real,
    newFacades: int,
    petals: int,
    oldDrawers: real,
    handlesDrawerQty: int,
    spanWidth: real)

  /** The quantities `_recalculate_furniture` computes before its item loop. */
  function FurnCtx(spec: ParsedSpec, newWidth: int): (ctx: FurnContext)
    requires newWidth > 0 && FacadeHeightKnown(spec)
    ensures ctx.sections == SplitSections(newWidth)
    ensures ctx.newFacades == NewFacades(spec, newWidth)
  {
    var sections := SplitSections(newWidth);
    var oldSpans := OldSpans(spec);
    var newSpans := NewSpans(newWidth);
    var spanRatio := if oldSpans > 0 then newSpans as real / oldSpans as real else 1.0;
    var sectionRatio := if spec.sectionsCount > 0 then |sections| as real / spec.sectionsCount as real else 1.0;
    var (oldShelves, newShelves) := ShelfCounts(spec, newWidth);
    var facade := FirstNamed(spec.corpusRows, "фасад");
    var height := if facade.Some? then facade.value.length.value else 2700;
    var oldDrawers := SumQtyNamed(spec.corpusRows, "ящик");
    FurnContext(sections, spec.sectionsCount, spec.height, spanRatio, sectionRatio, oldShelves, newShelves,
      NewFacades(spec, newWidth), PetalsPerFacade(height), oldDrawers,
      HandlesDrawerQty(oldDrawers, sectionRatio),
      if newSpans != 0 then newWidth as real / newSpans as real else newWidth as real)
  }

  /** The rule a hardware line falls under: the first that matches its lower-cased name. */
  datatype HardwareKind = Hinge | Handle | ShelfSupport | SectionTie | FacadeCorrector | Screw | Rod | Light | OtherHardware

  function HardwareKindOf(nameLow: string): HardwareKind {
    if Contains(nameLow, "петл") || Contains(nameLow, "чашк")
      || (Contains(nameLow, "заглушка") && Contains(nameLow, "петл")) then Hinge
    else if Contains(nameLow, "ручк") then Handle
    else if Contains(nameLow, "полкодерж") then ShelfSupport
    else if Contains(nameLow, "стяжка межсекцион") then SectionTie
    else if Contains(nameLow, "корректор фасада") then FacadeCorrector
    else if Contains(nameLow, "винт") || Contains(nameLow, "ключ") then Screw
    else if Contains(nameLow, "штанг") then Rod
    else if Contains(nameLow, "подсветк") || Contains(nameLow, "led") || Contains(nameLow, "освещен") then Light
    else OtherHardware
  }

  function KindOf(item: FurnitureItem): HardwareKind {
    HardwareKindOf(Lower(item.name))
  }

  /** Extra data some lines carry: rod lengths, or LED power and strip length. */
  datatype Meta = NoMeta | RodMeta(lengths: seq<int>) | LedMeta(power: real, lengthMm: int)

  /** One recalculated hardware line. */
  datatype FurnOut = FurnOut(name: string, code: Option<string>, qty: int, unit: string, meta: Meta)

  /** `unit or 'шт'`. */
  function UnitOr(unit: Option<string>): (u: string)
    ensures u != ""
  {
    if unit.Some? && unit.value != "" then unit.value else "шт"
  }

  /** Rods per original section: the rods over the sections, or one when there are none. */
  function RodsPerSection(ctx: FurnContext, baseQty: real): real {
    if ctx.sectionsCount > 0 then baseQty / ctx.sectionsCount as real else 1.0
  }

  /** `rods` rods in each section, each 40 mm shorter than its section (never negative). */
  function RodLengths(sections: seq<int>, rods: nat): seq<int> {
    if sections == [] then []
    else
      var last := sections[|sections| - 1];
      RodLengths(sections[..|sections| - 1], rods) + seq(rods, _ => Max(last - 40, 0))
  }

  /** The LED strip length per span: the span width less 100 mm, truncated, never negative. */
  function LedLength(ctx: FurnContext): int {
    Max(Trunc(ctx.spanWidth - 100.0), 0)
  }

  /** The quantity of a line before rounding up. */
  function NewQty(ctx: FurnContext, item: FurnitureItem): real {
    var base := QtyOrZero(item.qty);
    match KindOf(item)
    case Hinge => (ctx.newFacades * ctx.petals) as real
    case Handle => (ctx.newFacades + ctx.handlesDrawerQty) as real
    case ShelfSupport =>
      if ctx.oldShelves > 0.0 && ctx.newShelves > 0.0 then base / ctx.oldShelves * ctx.newShelves
      else base * ctx.spanRatio
    case SectionTie =>
      var perJoint := Max(1, Ceil(ctx.height as real / 700.0));
      if |ctx.sections| > 1 then ((|ctx.sections| - 1) * perJoint) as real else 0.0
    case FacadeCorrector => ctx.newFacades as real
    case Screw => if base != 0.0 then Ceil(base) as real else 2.0
    case Rod =>
      if base > 0.0 && RodsPerSection(ctx, base) > 0.0 then (|ctx.sections| * Ceil(RodsPerSection(ctx, base))) as real
      else 0.0
    case Light => base * ctx.spanRatio
    case OtherHardware => base * ctx.spanRatio
  }

  /** LED strip metres a line adds: strip length per span times the scaled count. */
  function LedMetres(ctx: FurnContext, item: FurnitureItem): real {
    if KindOf(item) == Light then LedLength(ctx) as real / 1000.0 * NewQty(ctx, item) else 0.0
  }

  /** LED power a line adds: 10 W per metre. */
  function LedPower(ctx: FurnContext, item: FurnitureItem): real {
    LedMetres(ctx, item) * 10.0
  }

  function ItemMeta(ctx: FurnContext, item: FurnitureItem): Meta {
    var base := QtyOrZero(item.qty);
    match KindOf(item)
    case Rod =>
      if base > 0.0 then
        var rps := RodsPerSection(ctx, base);
        RodMeta(if rps > 0.0 then RodLengths(ctx.sections, Ceil(rps)) else [])
      else NoMeta
    case Light => LedMeta(LedPower(ctx, item), LedLength(ctx))
    case _ => NoMeta
  }

  /** One recalculated line: name and code kept, quantity rounded up, unit defaulted. */
  function ItemOut(ctx: FurnContext, item: FurnitureItem): FurnOut {
    FurnOut(item.name, item.code, Ceil(NewQty(ctx, item)), UnitOr(item.unit), ItemMeta(ctx, item))
  }

  function ItemsOut(ctx: FurnContext, items: seq<FurnitureItem>): (r: seq<FurnOut>)
    ensures |r| == |items| && forall j :: 0 <= j < |items| ==> r[j] == ItemOut(ctx, items[j])
  {
    seq(|items|, j requires 0 <= j < |items| => ItemOut(ctx, items[j]))
  }

  function LedPowers(ctx: FurnContext, items: seq<FurnitureItem>): (r: seq<real>)
    ensures |r| == |items| && forall j :: 0 <= j < |items| ==> r[j] == LedPower(ctx, items[j])
  {
    seq(|items|, j requires 0 <= j < |items| => LedPower(ctx, items[j]))
  }

  function LedMetresOf(ctx: FurnContext, items: seq<FurnitureItem>): (r: seq<real>)
    ensures |r| == |items| && forall j :: 0 <= j < |items| ==> r[j] == LedMetres(ctx, items[j])
  {
    seq(|items|, j requires 0 <= j < |items| => LedMetres(ctx, items[j]))
  }

  /** A recommendation or warning of the recalculation. */
  datatype Notice =
    | ShelfDataMissing
    | DrawerHandles(oldDrawers: real, handles: int, sectionRatio: real)
    | LedExtraSupply
    | LedSupply(blocks: int, power: real)
    | AntiTip

  /** The drawer note is due when there were drawers and they still need handles. */
  predicate DrawerNoticeDue(ctx: FurnContext) {
    ctx.oldDrawers != 0.0 && ctx.handlesDrawerQty != 0
  }

  predicate HasHandle(items: seq<FurnitureItem>) {
    exists j :: 0 <= j < |items| && KindOf(items[j]) == Handle
  }

  function ShelfNotices(ctx: FurnContext): seq<Notice> {
    if ctx.oldShelves == 0.0 || ctx.newShelves == 0.0 then [ShelfDataMissing] else []
  }

  function DrawerNotices(ctx: FurnContext, items: seq<FurnitureItem>): seq<Notice> {
    if DrawerNoticeDue(ctx) && HasHandle(items) then [DrawerHandles(ctx.oldDrawers, ctx.handlesDrawerQty, ctx.sectionRatio)]
    else []
  }

  /** The LED notes: an extra supply above 50 W, and one supply block per 5 m of strip. */
  function LedNotices(power: real, metres: real): seq<Notice> {
    (if power > 50.0 then [LedExtraSupply] else [])
    + (if metres > 0.0 then [LedSupply(Ceil(metres / 5.0), power * 1.2)] else [])
  }

  /** The notes of the hardware recalculation, in the order they are produced. */
  function FurnNotices(ctx: FurnContext, items: seq<FurnitureItem>): seq<Notice> {
    ShelfNotices(ctx) + DrawerNotices(ctx, items)
      + LedNotices(SumR(LedPowers(ctx, items)), SumR(LedMetresOf(ctx, items)))
  }

  /** `_recalculate_furniture`. */
  method RecalculateFurniture(spec: ParsedSpec, newWidth: int)
    returns (newFurn: seq<FurnOut>, furnWarnings: seq<Notice>, totalLedPower: real)
    requires newWidth > 0 && FacadeHeightKnown(spec)
    ensures var ctx := FurnCtx(spec, newWidth);
      newFurn == ItemsOut(ctx, spec.furnitureItems)
      && furnWarnings == FurnNotices(ctx, spec.furnitureItems)
      && totalLedPower == SumR(LedPowers(ctx, spec.furnitureItems))
  {
    var ctx := FurnCtx(spec, newWidth);
    newFurn, furnWarnings, totalLedPower := RecalculateItems(ctx, spec.furnitureItems);
  }

  /** The item loop of `_recalculate_furniture` and the LED notes after it, once the
      quantities before the loop are known. */
  method RecalculateItems(ctx: FurnContext, items: seq<FurnitureItem>)
    returns (newFurn: seq<FurnOut>, furnWarnings: seq<Notice>, totalLedPower: real)
    ensures newFurn == ItemsOut(ctx, items)
    ensures furnWarnings == FurnNotices(ctx, items)
    ensures totalLedPower == SumR(LedPowers(ctx, items))
  {
    newFurn := [];
    furnWarnings := ShelfNotices(ctx);
    totalLedPower := 0.0;
    var totalLedLength := 0.0;
    var handleWarningAdded := false;
    var i := 0;
    assert items[..0] == [];
    while i < |items|
      invariant 0 <= i <= |items|
      invariant newFurn == ItemsOut(ctx, items[..i])
      invariant totalLedPower == SumR(LedPowers(ctx, items[..i]))
      invariant totalLedLength == SumR(LedMetresOf(ctx, items[..i]))
      invariant handleWarningAdded == (DrawerNoticeDue(ctx) && HasHandle(items[..i]))
      invariant furnWarnings == ShelfNotices(ctx)
        + (if handleWarningAdded then [DrawerHandles(ctx.oldDrawers, ctx.handlesDrawerQty, ctx.sectionRatio)] else [])
    {
      var item := items[i];
      var out, power, metres := RecalculateItem(ctx, item);
      ItemsStep(ctx, items, i);
      if KindOf(item) == Handle && ctx.oldDrawers != 0.0 && ctx.handlesDrawerQty != 0 && !handleWarningAdded {
        furnWarnings := furnWarnings + [DrawerHandles(ctx.oldDrawers, ctx.handlesDrawerQty, ctx.sectionRatio)];
        handleWarningAdded := true;
      }
      if KindOf(item) == Light {
        totalLedPower := totalLedPower + power;
        totalLedLength := totalLedLength + metres;
      } else {
        assert LedPower(ctx, item) == 0.0 && LedMetres(ctx, item) == 0.0;
      }
      assert totalLedPower == SumR(LedPowers(ctx, items[..i + 1]));
      assert totalLedLength == SumR(LedMetresOf(ctx, items[..i + 1]));
      assert handleWarningAdded == (DrawerNoticeDue(ctx) && HasHandle(items[..i + 1]));
      newFurn := newFurn + [out];
      assert newFurn == ItemsOut(ctx, items[..i + 1]);
      i := i + 1;
    }
    assert items[..|items|] == items;
    assert furnWarnings == ShelfNotices(ctx) + DrawerNotices(ctx, items);
    furnWarnings := AddLedNotes(furnWarnings, totalLedPower, totalLedLength);
  }

  /** The LED notes after the item loop. */
  method AddLedNotes(warnings: seq<Notice>, power: real, metres: real) returns (w: seq<Notice>)
    ensures w == warnings + LedNotices(power, metres)
  {
    w := warnings;
    if power > 50.0 {
      w := w + [LedExtraSupply];
    }
    if metres > 0.0 {
      w := w + [LedSupply(Ceil(metres / 5.0), power * 1.2)];
    }
  }

  /** What one more line adds to each accumulator of the item loop. */
  lemma ItemsStep(ctx: FurnContext, items: seq<FurnitureItem>, i: nat)
    requires i < |items|
    ensures ItemsOut(ctx, items[..i + 1]) == ItemsOut(ctx, items[..i]) + [ItemOut(ctx, items[i])]
    ensures SumR(LedPowers(ctx, items[..i + 1])) == SumR(LedPowers(ctx, items[..i])) + LedPower(ctx, items[i])
    ensures SumR(LedMetresOf(ctx, items[..i + 1])) == SumR(LedMetresOf(ctx, items[..i])) + LedMetres(ctx, items[i])
    ensures HasHandle(items[..i + 1]) == (HasHandle(items[..i]) || KindOf(items[i]) == Handle)
  {
    ItemsOutStep(ctx, items, i);
    LedPowersStep(ctx, items, i);
    LedMetresStep(ctx, items, i);
    HasHandleStep(items, i);
  }

  lemma ItemsOutStep(ctx: FurnContext, items: seq<FurnitureItem>, i: nat)
    requires i < |items|
    ensures ItemsOut(ctx, items[..i + 1]) == ItemsOut(ctx, items[..i]) + [ItemOut(ctx, items[i])]
  {
    assert items[..i + 1][i] == items[i];
  }

  lemma LedPowersStep(ctx: FurnContext, items: seq<FurnitureItem>, i: nat)
    requires i < |items|
    ensures SumR(LedPowers(ctx, items[..i + 1])) == SumR(LedPowers(ctx, items[..i])) + LedPower(ctx, items[i])
  {
    assert LedPowers(ctx, items[..i + 1])[..i] == LedPowers(ctx, items[..i]);
  }

  lemma LedMetresStep(ctx: FurnContext, items: seq<FurnitureItem>, i: nat)
    requires i < |items|
    ensures SumR(LedMetresOf(ctx, items[..i + 1])) == SumR(LedMetresOf(ctx, items[..i])) + LedMetres(ctx, items[i])
  {
    assert LedMetresOf(ctx, items[..i + 1])[..i] == LedMetresOf(ctx, items[..i]);
  }

  lemma HasHandleStep(items: seq<FurnitureItem>, i: nat)
    requires i < |items|
    ensures HasHandle(items[..i + 1]) == (HasHandle(items[..i]) || KindOf(items[i]) == Handle)
  {
    var pre, next := items[..i], items[..i + 1];
    if KindOf(items[i]) == Handle {
      assert next[i] == items[i];
    }
    if HasHandle(next) && KindOf(items[i]) != Handle {
      var j :| 0 <= j < i + 1 && KindOf(next[j]) == Handle;
      assert pre[j] == next[j];
    }
  }

  /** The body of the item loop for one line: the line, and the LED power and metres it adds. */
  method RecalculateItem(ctx: FurnContext, item: FurnitureItem) returns (out: FurnOut, power: real, metres: real)
    ensures out == ItemOut(ctx, item)
    ensures KindOf(item) == Light ==> power == LedPower(ctx, item) && metres == LedMetres(ctx, item)
  {
    power, metres := 0.0, 0.0;
    var baseQty := QtyOrZero(item.qty);
    var newQty := baseQty;
    var meta := NoMeta;
    match KindOf(item) {
    case Hinge =>
      newQty := (ctx.newFacades * ctx.petals) as real;
    case Handle =>
      newQty := (ctx.newFacades + ctx.handlesDrawerQty) as real;
    case ShelfSupport =>
      if ctx.oldShelves > 0.0 && ctx.newShelves > 0.0 {
        var supportsPerShelf := baseQty / ctx.oldShelves;
        newQty := supportsPerShelf * ctx.newShelves;
      } else {
        newQty := newQty * ctx.spanRatio;
      }
    case SectionTie =>
      var perJoint := Max(1, Ceil(ctx.height as real / 700.0));
      newQty := if |ctx.sections| > 1 then ((|ctx.sections| - 1) * perJoint) as real else 0.0;
    case FacadeCorrector =>
      newQty := ctx.newFacades as real;
    case Screw =>
      newQty := if baseQty != 0.0 then Ceil(baseQty) as real else 2.0;
    case Rod =>
      if !(baseQty > 0.0) {
        newQty := 0.0;
      } else {
        var rps := RodsPerSection(ctx, baseQty);
        var count, lengths := PlaceRods(ctx.sections, rps);
        newQty := count as real;
        meta := RodMeta(lengths);
      }
    case Light =>
      newQty := newQty * ctx.spanRatio;
      var ledLength := LedLength(ctx);
      var totalLengthM := ledLength as real / 1000.0 * newQty;
      metres := totalLengthM;
      power := totalLengthM * 10.0;
      meta := LedMeta(power, ledLength);
    case OtherHardware =>
      newQty := newQty * ctx.spanRatio;
    }
    assert newQty == NewQty(ctx, item);
    assert meta == ItemMeta(ctx, item);
    out := FurnOut(item.name, item.code, Ceil(newQty), UnitOr(item.unit), meta);
  }

  /** The rod loop: `ceil(rps)` rods in every new section when `rps` is positive. */
  method PlaceRods(sections: seq<int>, rps: real) returns (count: int, lengths: seq<int>)
    ensures rps > 0.0 ==> count == |sections| * Ceil(rps) && lengths == RodLengths(sections, Ceil(rps))
    ensures !(rps > 0.0) ==> count == 0 && lengths == []
  {
    count := 0;
    lengths := [];
    var k := 0;
    while k < |sections|
      invariant 0 <= k <= |sections|
      invariant count == (if rps > 0.0 then k * Ceil(rps) else 0)
      invariant lengths == (if rps > 0.0 then RodLengths(sections[..k], Ceil(rps)) else [])
    {
      var w := sections[k];
      if rps > 0.0 {
        var rods := Ceil(rps);
        count := count + rods;
        lengths := lengths + seq(rods, _ => Max(w - 40, 0));
      }
      assert sections[..k + 1][..k] == sections[..k];
      k := k + 1;
    }
    assert sections[..|sections|] == sections;
  }

  // ---------------------------------------------------------------------------
  // Properties

  /** The drawer note appears at most once, and exactly when some line is a handle
      and the drawers still need handles. */
  lemma DrawerNoticeOnce(ctx: FurnContext, items: seq<FurnitureItem>)
    ensures var ws := FurnNotices(ctx, items);
      ((exists j :: 0 <= j < |ws| && ws[j].DrawerHandles?) <==> DrawerNoticeDue(ctx) && HasHandle(items))
      && forall j, k :: 0 <= j < |ws| && 0 <= k < |ws| && ws[j].DrawerHandles? && ws[k].DrawerHandles? ==> j == k
  {
    var ws := FurnNotices(ctx, items);
    var s := ShelfNotices(ctx);
    var d := DrawerNotices(ctx, items);
    var l := LedNotices(SumR(LedPowers(ctx, items)), SumR(LedMetresOf(ctx, items)));
    assert ws == s + d + l;
    assert forall j :: 0 <= j < |ws| && ws[j].DrawerHandles? ==> j == |s| && |d| == 1;
    if DrawerNoticeDue(ctx) && HasHandle(items) {
      assert ws[|s|].DrawerHandles?;
    }
  }

  /** LED power is always ten watts per metre of strip. */
  lemma {:induction false} LedPowerTenfold(ctx: FurnContext, items: seq<FurnitureItem>)
    ensures SumR(LedPowers(ctx, items)) == 10.0 * SumR(LedMetresOf(ctx, items))
  {
    if items != [] {
      var init := items[..|items| - 1];
      assert LedPowers(ctx, items)[..|items| - 1] == LedPowers(ctx, init);
      assert LedMetresOf(ctx, items)[..|items| - 1] == LedMetresOf(ctx, init);
      LedPowerTenfold(ctx, init);
    }
  }

  /** Every new section gets the same number of rods, each 40 mm shorter than its section. */
  lemma RodLengthsShape(sections: seq<int>, rods: nat)
    ensures |RodLengths(sections, rods)| == |sections| * rods
    ensures forall j :: 0 <= j < |RodLengths(sections, rods)| ==>
      RodLengths(sections, rods)[j] == Max(sections[j / rods] - 40, 0)
  {
    RodLengthsLength(sections, rods);
    forall j | 0 <= j < |RodLengths(sections, rods)|
      ensures RodLengths(sections, rods)[j] == Max(sections[j / rods] - 40, 0)
    {
      RodLengthAt(sections, rods, j);
    }
  }

  /** `rods` lengths per section. */
  lemma {:induction false} RodLengthsLength(sections: seq<int>, rods: nat)
    ensures |RodLengths(sections, rods)| == |sections| * rods
  {
    if sections != [] {
      var init := sections[..|sections| - 1];
      RodLengthsLength(init, rods);
      MulSucc(|init|, rods);
    }
  }

  /** The rod at position `j` belongs to section `j / rods`. */
  lemma {:induction false} RodLengthAt(sections: seq<int>, rods: nat, j: nat)
    requires j < |RodLengths(sections, rods)|
    ensures rods > 0 && j / rods < |sections|
    ensures RodLengths(sections, rods)[j] == Max(sections[j / rods] - 40, 0)
  {
    var init := sections[..|sections| - 1];
    var n := |RodLengths(init, rods)|;
    RodLengthsLength(init, rods);
    if j < n {
      RodLengthAt(init, rods, j);
      assert RodLengths(sections, rods)[j] == RodLengths(init, rods)[j];
      assert sections[j / rods] == init[j / rods];
    } else {
      DivModUnique(j, rods, |init|, j - n);
    }
  }

  /** A rod line lists one length per rod. */
  lemma RodsListed(ctx: FurnContext, item: FurnitureItem)
    requires KindOf(item) == Rod && QtyOrZero(item.qty) > 0.0
    ensures ItemOut(ctx, item).meta.RodMeta?
    ensures |ItemOut(ctx, item).meta.lengths| == ItemOut(ctx, item).qty
  {
    var rps := RodsPerSection(ctx, QtyOrZero(item.qty));
    if rps > 0.0 {
      RodLengthsShape(ctx.sections, Ceil(rps));
      assert Ceil((|ctx.sections| * Ceil(rps)) as real) == |ctx.sections| * Ceil(rps);
    }
  }

  /** Ties between sections: none for a single section, otherwise at least one per joint
      and at least one per 700 mm of height at every joint. */
  lemma TiesPerJoint(ctx: FurnContext, item: FurnitureItem)
    requires KindOf(item) == SectionTie
    ensures var q := ItemOut(ctx, item).qty;
      var joints := |ctx.sections| - 1;
      (joints <= 0 ==> q == 0)
      && (joints > 0 ==> q >= joints && q as real * 700.0 >= joints as real * ctx.height as real)
  {
    var joints := |ctx.sections| - 1;
    var perJoint := Max(1, Ceil(ctx.height as real / 700.0));
    if joints > 0 {
      assert NewQty(ctx, item) == (joints * perJoint) as real;
      assert perJoint as real * 700.0 >= ctx.height as real;
      TiesBound(joints, perJoint, ctx.height as real);
    } else {
      assert NewQty(ctx, item) == 0.0;
    }
  }

  /** `joints` joints of `perJoint` ties each, one tie per 700 mm of `height` or more. */
  lemma TiesBound(joints: nat, perJoint: int, height: real)
    requires joints > 0 && perJoint >= 1 && perJoint as real * 700.0 >= height
    ensures Ceil((joints * perJoint) as real) == joints * perJoint >= joints
    ensures (joints * perJoint) as real * 700.0 >= joints as real * height
  {
    MulLe(1, perJoint, joints);
    assert (joints * perJoint) as real == joints as real * perJoint as real;
    RealMulLe(height, perJoint as real * 700.0, joints as real);
  }

  /** Shelf supports keep their number per shelf when both shelf counts are known. */
  lemma SupportsPerShelfKept(ctx: FurnContext, item: FurnitureItem)
    requires KindOf(item) == ShelfSupport && ctx.oldShelves > 0.0 && ctx.newShelves > 0.0
    ensures NewQty(ctx, item) / ctx.newShelves == QtyOrZero(item.qty) / ctx.oldShelves
  {
  }

  /** Hinges: the new facades times the hinges per facade of the facade height. */
  lemma HingesFollowFacades(spec: ParsedSpec, newWidth: int, item: FurnitureItem)
    requires newWidth > 0 && FacadeHeightKnown(spec) && KindOf(item) == Hinge
    ensures var f := FirstNamed(spec.corpusRows, "фасад");
      ItemOut(FurnCtx(spec, newWidth), item).qty
        == NewFacades(spec, newWidth) * PetalsPerFacade(if f.Some? then f.value.length.value else 2700)
  {
  }

  /** The cabinet of the handle example: two 1000 mm sections with four facades and
      four drawers, and one line of handles. */
  function HandlesSpec(): ParsedSpec {
    ParsedSpec("test.xlsx", 2000, 600, 2400, 2, 1000,
      [ParsedRow("Фасад", Some(18), Some(2300), Some(500), Some(4.0), Some("МДФ")),
       ParsedRow("Ящик внутренний", Some(16), Some(500), Some(400), Some(4.0), Some("ЛДСП"))],
      [FurnitureItem("Ручка", None, Some(8.0), Some("шт"))], 120.0)
  }

  lemma HandleIsHandle()
    ensures KindOf(FurnitureItem("Ручка", None, Some(8.0), Some("шт"))) == Handle
  {
    var low := Lower("Ручка");
    assert low == "ручка";
    NotContainsMissingChar(low, "петл", 'п');
    NotContainsMissingChar(low, "чашк", 'ш');
    assert StartsWith(low, "ручк");
  }

  lemma HandlesSpecRows()
    ensures FirstNamed(HandlesSpec().corpusRows, "фасад") == Some(HandlesSpec().corpusRows[0])
    ensures SumQtyNamed(HandlesSpec().corpusRows, "ящик") == 4.0
  {
    var rows := HandlesSpec().corpusRows;
    FacadeNamed(rows[0]);
    DrawerNamed(rows, rows[0], rows[1]);
  }

  lemma FacadeNamed(r: ParsedRow)
    requires r.name == "Фасад"
    ensures NameHas(r, "фасад") && !NameHas(r, "ящик")
  {
    assert Lower(r.name) == "фасад";
    NotContainsMissingChar("фасад", "ящик", 'я');
  }

  lemma DrawerNamed(rows: seq<ParsedRow>, a: ParsedRow, b: ParsedRow)
    requires rows == [a, b] && !NameHas(a, "ящик") && b.name == "Ящик внутренний" && b.qty == Some(4.0)
    ensures SumQtyNamed(rows, "ящик") == 4.0
  {
    var low := Lower(b.name);
    assert low[..4] == "ящик";
    assert StartsWith(low, "ящик");
    assert NameHas(b, "ящик");
    assert rows[..1] == [a];
    assert [a][..0] == [];
    assert SumQtyNamed([a], "ящик") == 0.0;
  }

  lemma HandlesSpecContext()
    ensures FacadeHeightKnown(HandlesSpec())
    ensures var ctx := FurnCtx(HandlesSpec(), 3000);
      ctx.newFacades == 6 && ctx.handlesDrawerQty == 6 && ctx.oldDrawers == 4.0 && ctx.sectionRatio == 1.5
  {
    var spec := HandlesSpec();
    HandlesSpecRows();
    SplitExamples();
    SpanExamples();
    OldSpansProduct(spec);
    assert NewSpans(3000) == 6;
    assert OldSpans(spec) == 4;
    assert OldFacades(spec) == 4.0;
    assert FacadesTarget(spec, 3000) == 6.0;
    assert NewFacades(spec, 3000) == 6;
  }

  /** Four facades and four drawers in two 1000 mm sections, resized to 3000 mm: six
      facades plus six drawer handles make twelve handles, and the drawer note is given. */
  lemma HandlesExample()
    ensures FacadeHeightKnown(HandlesSpec())
    ensures ItemOut(FurnCtx(HandlesSpec(), 3000), HandlesSpec().furnitureItems[0]).qty == 12
    ensures DrawerHandles(4.0, 6, 1.5) in FurnNotices(FurnCtx(HandlesSpec(), 3000), HandlesSpec().furnitureItems)
  {
    var spec := HandlesSpec();
    HandlesSpecContext();
    HandleIsHandle();
    var ctx := FurnCtx(spec, 3000);
    assert HasHandle(spec.furnitureItems) by {
      assert KindOf(spec.furnitureItems[0]) == Handle;
    }
    DrawerNoticeGiven(ctx, spec.furnitureItems);
  }

  /** With drawers before and handles on drawers after, a list with a handle gets the note. */
  lemma DrawerNoticeGiven(ctx: FurnContext, items: seq<FurnitureItem>)
    requires DrawerNoticeDue(ctx) && HasHandle(items)
    ensures DrawerHandles(ctx.oldDrawers, ctx.handlesDrawerQty, ctx.sectionRatio) in FurnNotices(ctx, items)
  {
    assert FurnNotices(ctx, items)[|ShelfNotices(ctx)|] == DrawerHandles(ctx.oldDrawers, ctx.handlesDrawerQty, ctx.sectionRatio);
  }
}
