/**
 * The records the engine passes around (`ParsedRow`, `FurnitureItem`,
 * `ParsedSpec`, `SectionType`) and the section analysis built on them:
 * how the original sections are typed, how new sections inherit those types
 * by proportional index, and the shelf counts before and after a resize.
 */
module Records {
  import opened Wrappers
  import opened Numeric
  import opened Text
  import opened Planner

  /** One corpus part: a panel with its sizes in millimetres and its quantity. */
  datatype ParsedRow = ParsedRow(
    name: string,
    thickness: Option<int>,
    length: Option<int>,
    width: Option<int>,
    qty: Option<real>,
    material: Option<string>)

  /** One hardware line. */
  datatype FurnitureItem = FurnitureItem(name: string, code: Option<string>, qty: Option<real>, unit: Option<string>)

  /** A parsed cabinet specification. */
  datatype ParsedSpec = ParsedSpec(
    sourceFilename: string,
    widthTotal: int,
    depth: int,
    height: int,
    sectionsCount: int,
    sectionWidth: int,
    corpusRows: seq<ParsedRow>,
    furnitureItems: seq<FurnitureItem>,
    totalWeight: real)

  /** What a section holds. */
  datatype SectionType = SectionType(width: int, hasRod: bool, hasShelves: bool, hasLighting: bool, shelfCount: real)

  /** `q or 0` for an optional quantity. */
  function QtyOrZero(q: Option<real>): real {
    if q.Some? then q.value else 0.0
  }

  /** The lower-cased name of a part contains `k`. */
  predicate NameHas(row: ParsedRow, k: string) {
    Contains(Lower(row.name), k)
  }

  /** The total quantity of the parts whose lower-cased name contains `k`; a part
      without a quantity adds nothing. */
  function SumQtyNamed(rows: seq<ParsedRow>, k: string): real {
    if rows == [] then 0.0
    else
      var last := rows[|rows| - 1];
      SumQtyNamed(rows[..|rows| - 1], k) + (if NameHas(last, k) then QtyOrZero(last.qty) else 0.0)
  }

  /** Only parts named with `k` count, and each counts with its quantity. */
  lemma {:induction false} SumQtyNamedAppend(rows: seq<ParsedRow>, more: seq<ParsedRow>, k: string)
    ensures SumQtyNamed(rows + more, k) == SumQtyNamed(rows, k) + SumQtyNamed(more, k)
  {
    if more == [] {
      assert rows + more == rows;
    } else {
      assert (rows + more)[..|rows + more| - 1] == rows + more[..|more| - 1];
      SumQtyNamedAppend(rows, more[..|more| - 1], k);
    }
  }

  /** Parts none of which is named with `k` add up to nothing. */
  lemma {:induction false} SumQtyNamedNone(rows: seq<ParsedRow>, k: string)
    requires forall i :: 0 <= i < |rows| ==> !NameHas(rows[i], k)
    ensures SumQtyNamed(rows, k) == 0.0
  {
    if rows != [] {
      SumQtyNamedNone(rows[..|rows| - 1], k);
    }
  }

  /** Some hardware line is a light (подсвет, led, освещ). */
  predicate HasLighting(items: seq<FurnitureItem>) {
    exists i :: 0 <= i < |items| && ContainsAny(Lower(items[i].name), ["подсвет", "led", "освещ"])
  }

  /** The density assumed for chipboard, kg/m³. */
  const MaterialDensity := 750

  /** The lower-cased "name material" text a density is read from. */
  function MaterialHint(name: string, material: Option<string>): string {
    Lower(name + " " + (if material.Some? then material.value else ""))
  }

  /** The density of a part, kg/m³: plywood, then MDF, else chipboard. */
  function Density(hint: string): int {
    if Contains(hint, "фанер") then 600
    else if Contains(hint, "мдф") then 800
    else MaterialDensity
  }

  /** Plywood is the lightest and wins over MDF; everything else weighs as chipboard. */
  lemma DensityRule(hint: string)
    ensures Density(hint) == 600 <==> Contains(hint, "фанер")
    ensures Density(hint) == 800 <==> !Contains(hint, "фанер") && Contains(hint, "мдф")
    ensures Density(hint) == MaterialDensity <==> !Contains(hint, "фанер") && !Contains(hint, "мдф")
  {
  }

  /** An optional integer that Python would find truthy. */
  predicate Truthy(x: Option<int>) {
    x.Some? && x.value != 0
  }

  /** An optional quantity that Python would find truthy. */
  predicate TruthyQty(x: Option<real>) {
    x.Some? && x.value != 0.0
  }

  /** The volume in m³ of a panel given in millimetres. */
  function Volume(length: int, width: int, thickness: int): real {
    (length as real / 1000.0) * (width as real / 1000.0) * (thickness as real / 1000.0)
  }

  /** `_analyze_section_types`: one type per original section, all of the original
      width; shelves are spread with the exact-sum item distribution. */
  function AnalyzeSectionTypes(spec: ParsedSpec): (r: seq<SectionType>)
    ensures |r| == Max(spec.sectionsCount, 0)
    ensures forall i :: 0 <= i < |r| ==>
      r[i].width == spec.sectionWidth && r[i].hasLighting == HasLighting(spec.furnitureItems)
      && r[i].hasRod == (SumQtyNamed(spec.corpusRows, "штанг") / spec.sectionsCount as real > 0.0)
      && r[i].hasShelves == (SumQtyNamed(spec.corpusRows, "полк") / spec.sectionsCount as real > 0.0)
    ensures forall i :: 0 <= i < |r| ==>
      r[i].shelfCount == (if SumQtyNamed(spec.corpusRows, "полк") != 0.0
                          then ItemsPlan(SumQtyNamed(spec.corpusRows, "полк"), spec.sectionsCount)[i] else 0.0)
  {
    var n := spec.sectionsCount;
    var totalRods := SumQtyNamed(spec.corpusRows, "штанг");
    var totalShelves := SumQtyNamed(spec.corpusRows, "полк");
    var lighting := HasLighting(spec.furnitureItems);
    var rodsPerSection := if n > 0 then totalRods / n as real else 0.0;
    var distribution := if totalShelves != 0.0 then ItemsPlan(totalShelves, n) else [];
    var shelvesPerSection := if n > 0 then totalShelves / n as real else 0.0;
    seq(Max(n, 0), idx requires 0 <= idx < Max(n, 0) =>
      SectionType(spec.sectionWidth, rodsPerSection > 0.0, shelvesPerSection > 0.0, lighting,
        if idx < |distribution| then distribution[idx] else shelvesPerSection))
  }

  /** A whole number of shelves is spread over the original sections without loss. */
  lemma ShelvesKept(spec: ParsedSpec, t: int)
    requires spec.sectionsCount > 0 && SumQtyNamed(spec.corpusRows, "полк") == t as real
    ensures SumR(ShelfCountsOf(AnalyzeSectionTypes(spec))) == t as real
  {
    var n := spec.sectionsCount;
    if t == 0 {
      ZeroPlan(AnalyzeSectionTypes(spec));
    } else {
      ItemsPlanExact(t, n);
      ItemsPlanBalanced(t as real, n);
      assert ShelfCountsOf(AnalyzeSectionTypes(spec)) == ItemsPlan(t as real, n);
    }
  }

  lemma {:induction false} ZeroPlan(types: seq<SectionType>)
    requires forall i :: 0 <= i < |types| ==> types[i].shelfCount == 0.0
    ensures SumR(ShelfCountsOf(types)) == 0.0
  {
    if types != [] {
      assert ShelfCountsOf(types)[..|types| - 1] == ShelfCountsOf(types[..|types| - 1]);
      ZeroPlan(types[..|types| - 1]);
    }
  }

  /** The shelf counts of a list of sections. */
  function ShelfCountsOf(types: seq<SectionType>): (r: seq<real>)
    ensures |r| == |types| && forall i :: 0 <= i < |r| ==> r[i] == types[i].shelfCount
  {
    seq(|types|, i requires 0 <= i < |types| => types[i].shelfCount)
  }

  /** `int(i * L / N)`: the original section a new section `i` of `N` takes its type from. */
  function ProportionalIndex(i: nat, l: nat, n: nat): nat
    requires n > 0
  {
    (i * l) / n
  }

  /** The proportional index stays inside the original sections and never goes back. */
  lemma ProportionalIndexInRange(i: nat, j: nat, l: nat, n: nat)
    requires i <= j < n && l > 0
    ensures ProportionalIndex(i, l, n) <= ProportionalIndex(j, l, n) < l
  {
    MulLe(i, j, l);
    DivMono(i * l, j * l, n);
    DivLe(j * l, n);
    MulLe(j, n - 1, l);
    assert (j * l) / n * n < n * l;
    MulCancelLt((j * l) / n, l, n);
  }

  /** When there are at least as many new sections as old ones, every old section
      passes its type on to some new section. */
  lemma ProportionalIndexCovers(k: nat, l: nat, n: nat) returns (i: nat)
    requires k < l <= n
    ensures i < n && ProportionalIndex(i, l, n) == k
  {
    i := (k * n + l - 1) / l;
    DivLe(k * n + l - 1, l);
    assert i * l >= k * n;
    MulLe(l, n, 1);
    assert i * l < (k + 1) * n;
    MulLe(k, l - 1, n);
    assert i * l < n * l;
    MulCancelLt(i, n, l);
    DivModUnique(i * l, n, k, i * l - k * n);
  }

  /** With as many new sections as old ones, section `i` keeps the type of section `i`. */
  lemma ProportionalIndexSame(i: nat, n: nat)
    requires i < n
    ensures ProportionalIndex(i, n, n) == i
  {
    DivModUnique(i * n, n, i, 0);
  }

  /** The type new section `i` inherits: the proportional original, or a plain type
      of its own width when there are no original sections. */
  function InheritedType(types: seq<SectionType>, newSections: seq<int>, i: nat): SectionType
    requires i < |newSections|
  {
    if |types| > 0 then
      ProportionalIndexInRange(i, i, |types|, |newSections|);
      types[Min(ProportionalIndex(i, |types|, |newSections|), |types| - 1)]
    else SectionType(newSections[i], false, false, false, 0.0)
  }

  /** `section_type_map`: each new section with its own width and the inherited contents. */
  function SectionTypeMap(types: seq<SectionType>, newSections: seq<int>): (r: seq<SectionType>)
    ensures |r| == |newSections|
    ensures forall i :: 0 <= i < |r| ==> r[i].width == newSections[i]
    ensures forall i :: 0 <= i < |r| ==> r[i] == InheritedType(types, newSections, i).(width := newSections[i])
  {
    seq(|newSections|, i requires 0 <= i < |newSections| => InheritedType(types, newSections, i).(width := newSections[i]))
  }

  /** New section `i` takes everything but its width from the original section at its
      proportional index; with no original sections it holds nothing. */
  lemma SectionTypeMapInherits(types: seq<SectionType>, newSections: seq<int>, i: nat)
    requires i < |newSections|
    ensures var r := SectionTypeMap(types, newSections)[i];
      |types| > 0 ==>
        var k := ProportionalIndex(i, |types|, |newSections|);
        k < |types| && r == types[k].(width := newSections[i])
    ensures var r := SectionTypeMap(types, newSections)[i];
      |types| == 0 ==> r == SectionType(newSections[i], false, false, false, 0.0)
  {
    if |types| > 0 {
      ProportionalIndexInRange(i, i, |types|, |newSections|);
      var k := ProportionalIndex(i, |types|, |newSections|);
      assert Min(k, |types| - 1) == k;
      assert SectionTypeMap(types, newSections)[i] == types[k].(width := newSections[i]);
    }
  }

  /** The shelf plan of a resize: the shelf count each new section inherits. */
  function ShelvesPlan(spec: ParsedSpec, newWidth: int): seq<real>
    requires newWidth > 0
  {
    ShelfCountsOf(SectionTypeMap(AnalyzeSectionTypes(spec), SplitSections(newWidth)))
  }

  /** Resizing to the same number of sections keeps every section's shelves in place. */
  lemma ShelvesPlanSameCount(spec: ParsedSpec, newWidth: int)
    requires newWidth > 0 && |SplitSections(newWidth)| == spec.sectionsCount
    ensures ShelvesPlan(spec, newWidth) == ShelfCountsOf(AnalyzeSectionTypes(spec))
  {
    var types := AnalyzeSectionTypes(spec);
    var n := |SplitSections(newWidth)|;
    forall i | 0 <= i < n
      ensures ShelvesPlan(spec, newWidth)[i] == types[i].shelfCount
    {
      ProportionalIndexSame(i, n);
      SectionTypeMapInherits(types, SplitSections(newWidth), i);
    }
  }

  /** `_calculate_shelf_counts`: the shelves before, and the planned shelves after,
      falling back to the per-section average when the plan is empty. */
  function ShelfCounts(spec: ParsedSpec, newWidth: int): (r: (real, real))
    requires newWidth > 0
    ensures r.0 == SumQtyNamed(spec.corpusRows, "полк")
    ensures SumR(ShelvesPlan(spec, newWidth)) != 0.0 ==> r.1 == SumR(ShelvesPlan(spec, newWidth))
    ensures SumR(ShelvesPlan(spec, newWidth)) == 0.0 ==>
              r.1 == NewShelves(r.0, 0.0, spec.sectionsCount, |SplitSections(newWidth)|)
  {
    var before := SumQtyNamed(spec.corpusRows, "полк");
    var planned := SumR(ShelvesPlan(spec, newWidth));
    var sections := |SplitSections(newWidth)|;
    (before, NewShelves(before, planned, spec.sectionsCount, sections))
  }

  /** An empty shelf plan falls back to the old shelves per old section times the new
      sections when there were shelves and sections, and to no shelves otherwise. */
  lemma ShelfCountsFallback(spec: ParsedSpec, newWidth: int)
    requires newWidth > 0 && SumR(ShelvesPlan(spec, newWidth)) == 0.0
    ensures var (before, after) := ShelfCounts(spec, newWidth);
      var n := |SplitSections(newWidth)|;
      (before != 0.0 && spec.sectionsCount != 0 ==> after == PerSectionShelves(before, spec.sectionsCount, n))
      && (before == 0.0 || spec.sectionsCount == 0 ==> after == 0.0)
  {
    var before := SumQtyNamed(spec.corpusRows, "полк");
    var n := |SplitSections(newWidth)|;
    assert ShelfCounts(spec, newWidth) == (before, NewShelves(before, 0.0, spec.sectionsCount, n));
    NewShelvesFallback(before, spec.sectionsCount, n);
  }

  /** The planned shelves, or the old shelves per old section times the new sections when
      the plan is empty and there were shelves and sections. */
  function NewShelves(before: real, planned: real, oldSections: int, newSections: nat): (r: real)
    ensures planned != 0.0 ==> r == planned
  {
    if planned == 0.0 && before != 0.0 && oldSections != 0 then PerSectionShelves(before, oldSections, newSections)
    else planned
  }

  /** `(old_shelves / sections_count) * len(new_sections)`. */
  function PerSectionShelves(before: real, oldSections: int, newSections: nat): real
    requires oldSections != 0
  {
    before / oldSections as real * newSections as real
  }

  lemma NewShelvesFallback(before: real, oldSections: int, newSections: nat)
    ensures before != 0.0 && oldSections != 0 ==>
              NewShelves(before, 0.0, oldSections, newSections) == PerSectionShelves(before, oldSections, newSections)
    ensures before == 0.0 || oldSections == 0 ==> NewShelves(before, 0.0, oldSections, newSections) == 0.0
  {
  }

  /** Keeping the number of sections keeps a whole number of shelves. */
  lemma ShelfCountsSameSections(spec: ParsedSpec, newWidth: int, t: int)
    requires newWidth > 0 && |SplitSections(newWidth)| == spec.sectionsCount
    requires SumQtyNamed(spec.corpusRows, "полк") == t as real
    ensures ShelfCounts(spec, newWidth) == (t as real, t as real)
  {
    ShelvesPlanSameCount(spec, newWidth);
    ShelvesKept(spec, t);
  }
}
