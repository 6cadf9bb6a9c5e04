/**
 * The browser side's scaling helpers (`app-scaling.js`): its own section split,
 * the part-type classifier, the section count read off a specification, the base
 * structure, densities, weight, panel price and hardware cost.
 *
 * JavaScript numbers are modelled as exact reals. A missing number (`undefined`,
 * `null`) is modelled as 0 where the code reads it through `!x` or `x || 0`; the price
 * of a listed material, which the code multiplies as it is, is an `Option`, and the
 * NaN its absence brings into the sum is `None`.
 */
module Scaling {
  import opened Wrappers
  import opened Numeric
  import opened Text
  import opened Planner
  import Geometry

  const JsMaterialDensity := 730
  const JsMaxSectionWidth := 1200
  const JsPartitionThreshold := 800

  /** A panel of the browser's specification (`spec.corpus[i]`). */
  datatype JsPart = JsPart(name: string, thickness: real, length: real, width: real, qty: real, materialId: string)

  /** A panel material of the price list: price per m² and waste percentage. The price is
      `None` when the entry has none (`undefined`, which multiplies to NaN); a `null` price
      multiplies as 0 and is `Some(0.0)`. */
  datatype JsMaterial = JsMaterial(price: Option<real>, waste: real)

  /** A hardware line with its price; `unit` is absent when the line has none. */
  datatype JsFurniture = JsFurniture(price: real, qty: real, unit: Option<string>)

  /** The parts of the specification the helpers read: the panels, the total width and
      the recorded weight (`None` where `Number(...)` is not finite). */
  datatype JsSpec = JsSpec(corpus: seq<JsPart>, width: int, baseWeight: Option<real>)

  // ---------------------------------------------------------------------------
  // Keyword rules

  /** The first rule, from `i` on, with a keyword contained in `s`; `default` when none has. */
  function Classify<T>(rules: seq<(seq<string>, T)>, s: string, i: nat, default: T): (t: T)
    decreases |rules| - i
    ensures forall k :: (i <= k < |rules| && ContainsAny(s, rules[k].0)
                         && (forall j :: i <= j < k ==> !ContainsAny(s, rules[j].0))) ==> t == rules[k].1
    ensures (forall k :: i <= k < |rules| ==> !ContainsAny(s, rules[k].0)) ==> t == default
  {
    if i >= |rules| then default
    else if ContainsAny(s, rules[i].0) then rules[i].1
    else Classify(rules, s, i + 1, default)
  }

  /** The part types, in the order `inferPartType` tests them. */
  datatype PartType = Side | Base | Back | Partition | Facade | Shelf | Drawer | Rod | OtherType

  const PartTypeRules: seq<(seq<string>, PartType)> := [
    (["бок"], Side), (["дно", "крыш"], Base), (["зад", "двп"], Back), (["перегород"], Partition),
    (["фасад", "двер"], Facade), (["полк"], Shelf), (["ящик"], Drawer), (["штанг"], Rod)]

  /** `inferPartType`: the first rule whose keyword the lower-cased name contains. */
  function InferPartType(name: string): (t: PartType)
    ensures t == Classify(PartTypeRules, Lower(name), 0, OtherType)
  {
    var n := Lower(name);
    ClassifyUnfold(PartTypeRules, n, OtherType);
    if Contains(n, "бок") then Side
    else if Contains(n, "дно") || Contains(n, "крыш") then Base
    else if Contains(n, "зад") || Contains(n, "двп") then Back
    else if Contains(n, "перегород") then Partition
    else if Contains(n, "фасад") || Contains(n, "двер") then Facade
    else if Contains(n, "полк") then Shelf
    else if Contains(n, "ящик") then Drawer
    else if Contains(n, "штанг") then Rod
    else OtherType
  }

  /** One step of the rule search, written out. */
  lemma ClassifyStep<T>(rules: seq<(seq<string>, T)>, s: string, i: nat, default: T)
    requires i < |rules|
    ensures Classify(rules, s, i, default) ==
      (if ContainsAny(s, rules[i].0) then rules[i].1 else Classify(rules, s, i + 1, default))
  {
  }

  /** The part-type rules searched one by one. */
  lemma ClassifyUnfold(rules: seq<(seq<string>, PartType)>, n: string, default: PartType)
    requires rules == PartTypeRules
    ensures Classify(rules, n, 0, default) ==
      if Contains(n, "бок") then Side
      else if Contains(n, "дно") || Contains(n, "крыш") then Base
      else if Contains(n, "зад") || Contains(n, "двп") then Back
      else if Contains(n, "перегород") then Partition
      else if Contains(n, "фасад") || Contains(n, "двер") then Facade
      else if Contains(n, "полк") then Shelf
      else if Contains(n, "ящик") then Drawer
      else if Contains(n, "штанг") then Rod
      else default
  {
    ContainsAnyOne(n, "бок");
    ContainsAnyTwo(n, "дно", "крыш");
    ContainsAnyTwo(n, "зад", "двп");
    ContainsAnyOne(n, "перегород");
    ContainsAnyTwo(n, "фасад", "двер");
    ContainsAnyOne(n, "полк");
    ContainsAnyOne(n, "ящик");
    ContainsAnyOne(n, "штанг");
    ClassifyStep(rules, n, 0, default);
    ClassifyStep(rules, n, 1, default);
    ClassifyStep(rules, n, 2, default);
    ClassifyStep(rules, n, 3, default);
    ClassifyStep(rules, n, 4, default);
    ClassifyStep(rules, n, 5, default);
    ClassifyStep(rules, n, 6, default);
    ClassifyStep(rules, n, 7, default);
  }

  lemma ContainsAnyOne(s: string, a: string)
    ensures ContainsAny(s, [a]) <==> Contains(s, a)
  {
    if Contains(s, a) {
      assert [a][0] == a;
    }
  }

  lemma ContainsAnyTwo(s: string, a: string, b: string)
    ensures ContainsAny(s, [a, b]) <==> Contains(s, a) || Contains(s, b)
  {
    var ks := [a, b];
    if ContainsAny(s, ks) {
      var i :| 0 <= i < |ks| && Contains(s, ks[i]);
      assert i == 0 || i == 1;
    }
    if Contains(s, a) {
      assert ks[0] == a;
    }
    if Contains(s, b) {
      assert ks[1] == b;
    }
  }

  const DensityRules: seq<(seq<string>, int)> := [
    (["лдсп", "дсп"], 730), (["мдф"], 750), (["фанер"], 650), (["двп", "оргалит"], 850), (["стекл"], 2500)]

  /** `getMaterialDensity`, kg/m³: the first rule whose keyword the lower-cased material
      name contains, else 730. */
  function MaterialDensity(material: string): (d: int)
    ensures d == Classify(DensityRules, Lower(material), 0, JsMaterialDensity)
  {
    var m := Lower(material);
    DensityUnfold(DensityRules, m);
    if Contains(m, "лдсп") || Contains(m, "дсп") then 730
    else if Contains(m, "мдф") then 750
    else if Contains(m, "фанер") then 650
    else if Contains(m, "двп") || Contains(m, "оргалит") then 850
    else if Contains(m, "стекл") then 2500
    else JsMaterialDensity
  }

  lemma DensityUnfold(rules: seq<(seq<string>, int)>, m: string)
    requires rules == DensityRules
    ensures Classify(rules, m, 0, JsMaterialDensity) ==
      if Contains(m, "лдсп") || Contains(m, "дсп") then 730
      else if Contains(m, "мдф") then 750
      else if Contains(m, "фанер") then 650
      else if Contains(m, "двп") || Contains(m, "оргалит") then 850
      else if Contains(m, "стекл") then 2500
      else JsMaterialDensity
  {
    ContainsAnyTwo(m, "лдсп", "дсп");
    ContainsAnyOne(m, "мдф");
    ContainsAnyOne(m, "фанер");
    ContainsAnyTwo(m, "двп", "оргалит");
    ContainsAnyOne(m, "стекл");
    ClassifyStep(rules, m, 0, JsMaterialDensity);
    ClassifyStep(rules, m, 1, JsMaterialDensity);
    ClassifyStep(rules, m, 2, JsMaterialDensity);
    ClassifyStep(rules, m, 3, JsMaterialDensity);
    ClassifyStep(rules, m, 4, JsMaterialDensity);
  }

  /** Every density is one of the listed ones, and positive. */
  lemma DensityListed(material: string)
    ensures MaterialDensity(material) in {730, 750, 650, 850, 2500}
  {
  }

  /** The "лдсп" keyword adds nothing: every name containing it contains "дсп". */
  lemma ChipboardKeywordRedundant(s: string)
    requires Contains(s, "лдсп")
    ensures Contains(s, "дсп")
  {
    ContainsIff(s, "лдсп");
    var i :| OccursAt(s, "лдсп", i);
    assert s[i + 1..i + 4] == s[i..i + 4][1..];
    assert OccursAt(s, "дсп", i + 1);
    ContainsIff(s, "дсп");
  }

  // ---------------------------------------------------------------------------
  // Sections

  /** The number of sections `splitSections` makes: one below 800 mm, else enough to keep
      each within 1200 mm and at least two. */
  function JsSectionCount(totalWidth: int): (n: int)
    ensures n >= 1
    ensures totalWidth >= JsPartitionThreshold ==> n >= 2 && n <= totalWidth
  {
    if totalWidth < JsPartitionThreshold then 1
    else Max(CeilDiv(totalWidth, JsMaxSectionWidth), 2)
  }

  /** `splitSections`: the whole width below 800 mm, else the even split over the count. */
  function JsSplitSections(totalWidth: int): (r: seq<int>)
    ensures |r| == JsSectionCount(totalWidth) && Sum(r) == totalWidth && Balanced(r)
    ensures totalWidth >= JsPartitionThreshold ==>
      forall i :: 0 <= i < |r| ==> 0 < r[i] <= JsMaxSectionWidth
  {
    if totalWidth < JsPartitionThreshold then
      assert Sum([totalWidth]) == totalWidth;
      [totalWidth]
    else
      var n := JsSectionCount(totalWidth);
      EvenWithinBound(totalWidth, n, JsMaxSectionWidth);
      DistributeWidthEvenly(totalWidth, n)
  }

  /** `splitSections`: fill an array with the floor of the share, then add one to each
      of the first `remainder` cells. */
  method SplitSectionsJs(totalWidth: int) returns (widths: seq<int>)
    ensures widths == JsSplitSections(totalWidth)
  {
    var minSections := if totalWidth >= JsPartitionThreshold then 2 else 1;
    if totalWidth <= JsMaxSectionWidth && minSections == 1 {
      return [totalWidth];
    }
    var n := Max(CeilDiv(totalWidth, JsMaxSectionWidth), minSections);
    var base := totalWidth / n;
    var remainder := totalWidth - base * n;
    assert n == JsSectionCount(totalWidth) && remainder == totalWidth % n;
    var sections := new int[n](_ => base);
    var i := 0;
    while i < remainder
      invariant 0 <= i <= remainder < n == sections.Length
      invariant forall k :: 0 <= k < n ==> sections[k] == base + (if k < i then 1 else 0)
    {
      sections[i] := sections[i] + 1;
      i := i + 1;
    }
    widths := sections[..];
    assert widths == Steps(base, remainder, n);
  }

  /** The browser and the engine split 1000 mm differently: two sections here, one there. */
  lemma SplitsDiffer()
    ensures JsSplitSections(1000) == [500, 500]
    ensures SplitSections(1000) == [1000]
  {
    var r := SplitSections(1000);
    assert |r| == 1 && Sum(r) == 1000;
    assert Sum(r) == Sum(r[..0]) + r[0];
    var j := JsSplitSections(1000);
    assert |j| == 2 && Balanced(j) && Sum(j) == 1000;
    assert Sum(j) == Sum(j[..1]) + j[1] && Sum(j[..1]) == Sum(j[..0]) + j[0];
  }

  /** Where both split into at least two sections, they split alike. */
  lemma SplitsAgreeAboveOneSection(totalWidth: int)
    requires totalWidth > JsMaxSectionWidth
    ensures JsSplitSections(totalWidth) == SplitSections(totalWidth)
  {
    BalancedIsEven(SplitSections(totalWidth));
  }

  // ---------------------------------------------------------------------------
  // Section count

  /** `Math.round(p.qty || 0)` of the back panels with a positive quantity, with the
      zeros the rounding gives filtered out. */
  function BackQtys(corpus: seq<JsPart>): (q: seq<int>)
    ensures forall i :: 0 <= i < |q| ==> q[i] > 0
  {
    if corpus == [] then []
    else
      var p := corpus[|corpus| - 1];
      BackQtys(corpus[..|corpus| - 1])
        + (if InferPartType(p.name) == Back && p.qty > 0.0 && RoundHalfUp(p.qty) > 0 then [RoundHalfUp(p.qty)] else [])
  }

  /** The back panels have a positive quantity. */
  predicate HasBacks(corpus: seq<JsPart>) {
    exists i :: 0 <= i < |corpus| && InferPartType(corpus[i].name) == Back && corpus[i].qty > 0.0
  }

  /** The summed `qty || 0` of the parts of one type. */
  function QtyOfType(corpus: seq<JsPart>, t: PartType): real {
    if corpus == [] then 0.0
    else
      var p := corpus[|corpus| - 1];
      QtyOfType(corpus[..|corpus| - 1], t) + (if InferPartType(p.name) == t then p.qty else 0.0)
  }

  /** The first index of `x` in `s`. */
  function FirstIndex(s: seq<int>, x: int): (k: nat)
    requires x in s
    ensures k < |s| && s[k] == x && x !in s[..k]
  {
    if s[0] == x then 0
    else
      var k := FirstIndex(s[1..], x);
      assert s[1..][..k] == s[1..k + 1];
      k + 1
  }

  /** The result of the frequency loop of `inferSectionCount`: the most frequent value,
      the one seen first among equally frequent ones; 0 for no values. */
  predicate FirstMostFrequent(qtys: seq<int>, best: int) {
    if qtys == [] then best == 0
    else
      best in qtys
      && (forall x :: x in qtys ==> Geometry.Count(qtys, x) <= Geometry.Count(qtys, best))
      && (forall x :: x in qtys && Geometry.Count(qtys, x) == Geometry.Count(qtys, best) ==>
            FirstIndex(qtys, best) <= FirstIndex(qtys, x))
  }

  /** The first most frequent value is unique. */
  lemma FirstMostFrequentUnique(qtys: seq<int>, a: int, b: int)
    requires FirstMostFrequent(qtys, a) && FirstMostFrequent(qtys, b)
    ensures a == b
  {
    if qtys != [] {
      assert FirstIndex(qtys, a) == FirstIndex(qtys, b);
    }
  }

  /** The frequency map of `inferSectionCount`, filled in order of first appearance, and
      the loop over its entries that keeps the first strictly more frequent one. */
  method MostFrequentQty(qtys: seq<int>) returns (best: int)
    ensures FirstMostFrequent(qtys, best)
  {
    var freq: map<int, nat> := map[];
    var order: seq<int> := [];
    var i := 0;
    while i < |qtys|
      invariant 0 <= i <= |qtys|
      invariant freq == Frequencies(qtys[..i])
      invariant order == FirstSeen(qtys[..i])
    {
      var n := qtys[i];
      FreqStep(qtys, i, freq);
      ghost var next := Frequencies(qtys[..i + 1]);
      assert qtys[..i + 1][..i] == qtys[..i];
      if n in freq {
        freq := freq[n := freq[n] + 1];
      } else {
        order := order + [n];
        freq := freq[n := 1];
      }
      assert freq == next;
      i := i + 1;
    }
    assert qtys[..i] == qtys;
    best := PickFirstMostFrequent(qtys, freq, order);
  }

  /** The distinct values of `s` in the order of their first appearance: the order in
      which a `Map` keeps its keys. */
  function FirstSeen(s: seq<int>): (r: seq<int>)
    ensures forall x :: x in r <==> x in s
  {
    if s == [] then []
    else
      var p := FirstSeen(s[..|s| - 1]);
      var x := s[|s| - 1];
      assert s == s[..|s| - 1] + [x];
      if x in p then p else p + [x]
  }

  /** Where a value first appears in a prefix is where it first appears in the whole. */
  lemma FirstIndexPrefix(s: seq<int>, i: nat, x: int)
    requires i <= |s| && x in s[..i]
    ensures FirstIndex(s[..i], x) == FirstIndex(s, x)
  {
    var (k, m) := (FirstIndex(s[..i], x), FirstIndex(s, x));
    forall j | 0 <= j < k ensures s[j] != x {
      assert s[..i][..k][j] == s[j];
    }
    forall j | 0 <= j < m ensures s[j] != x {
      assert s[..m][j] == s[j];
    }
  }

  /** The values of `FirstSeen(s)` come in the order of their first appearance in `s`. */
  lemma {:induction false} FirstSeenSorted(s: seq<int>)
    ensures forall a, b :: 0 <= a < b < |FirstSeen(s)| ==>
      FirstIndex(s, FirstSeen(s)[a]) < FirstIndex(s, FirstSeen(s)[b])
  {
    if s != [] {
      var init := s[..|s| - 1];
      var x := s[|s| - 1];
      var p := FirstSeen(init);
      FirstSeenSorted(init);
      assert s == init + [x];
      assert FirstSeen(s) == if x in p then p else p + [x];
      var r := FirstSeen(s);
      if x !in p {
        assert FirstIndex(s, x) == |s| - 1 by {
          forall j | 0 <= j < |s| - 1 ensures s[j] != x {
            assert init[j] == s[j];
          }
        }
      }
      forall a, b | 0 <= a < b < |r| ensures FirstIndex(s, r[a]) < FirstIndex(s, r[b]) {
        assert r[a] == p[a];
        FirstIndexPrefix(s, |s| - 1, p[a]);
        if b < |p| {
          assert r[b] == p[b];
          FirstIndexPrefix(s, |s| - 1, p[b]);
          assert FirstIndex(init, p[a]) < FirstIndex(init, p[b]);
        } else {
          assert r[b] == x && x !in p;
        }
      }
    }
  }

  /** The frequency map of a list: each value present to the number of its occurrences. */
  ghost function Frequencies(s: seq<int>): (m: map<int, nat>)
    ensures forall x :: x in m <==> x in s
  {
    map x | x in s :: Geometry.Count(s, x)
  }

  /** Counting one more value of the list updates its entry of the frequency map. */
  lemma FreqStep(qtys: seq<int>, i: nat, f: map<int, nat>)
    requires i < |qtys| && f == Frequencies(qtys[..i])
    ensures Frequencies(qtys[..i + 1]) == if qtys[i] in f then f[qtys[i] := f[qtys[i]] + 1] else f[qtys[i] := 1]
  {
    var n := qtys[i];
    var g := Frequencies(qtys[..i + 1]);
    assert qtys[..i + 1] == qtys[..i] + [n];
    forall x ensures Geometry.Count(qtys[..i + 1], x) == Geometry.Count(qtys[..i], x) + (if n == x then 1 else 0) {
      CountStep(qtys, i, x);
    }
    if n !in f {
      CountAbsent(qtys[..i], n);
    }
  }

  /** A value absent from a list is counted zero times. */
  lemma {:induction false} CountAbsent(s: seq<int>, x: int)
    requires forall j :: 0 <= j < |s| ==> s[j] != x
    ensures Geometry.Count(s, x) == 0
  {
    if s != [] {
      CountAbsent(s[..|s| - 1], x);
    }
  }

  lemma CountStep(s: seq<int>, i: nat, x: int)
    requires i < |s|
    ensures Geometry.Count(s[..i + 1], x) == Geometry.Count(s[..i], x) + (if s[i] == x then 1 else 0)
  {
    assert s[..i + 1][..i] == s[..i];
  }

  /** The loop over the map entries in insertion order. */
  method PickFirstMostFrequent(qtys: seq<int>, freq: map<int, nat>, order: seq<int>) returns (best: int)
    requires order == FirstSeen(qtys)
    requires forall x :: x in order ==> x in freq && freq[x] == Geometry.Count(qtys, x)
    ensures FirstMostFrequent(qtys, best)
  {
    best := 0;
    var bestCnt: int := -1;
    ghost var bk := 0;
    var j := 0;
    while j < |order|
      invariant 0 <= j <= |order|
      invariant j == 0 ==> best == 0 && bestCnt == -1
      invariant j > 0 ==> 0 <= bk < j && best == order[bk] && bestCnt == Geometry.Count(qtys, best)
      invariant forall k :: 0 <= k < j ==> Geometry.Count(qtys, order[k]) <= bestCnt
      invariant forall k :: 0 <= k < j && Geometry.Count(qtys, order[k]) == bestCnt ==> bk <= k
    {
      var n := order[j];
      var c := freq[n];
      if c > bestCnt {
        best := n;
        bestCnt := c;
        bk := j;
      }
      j := j + 1;
    }
    if qtys != [] {
      assert qtys[0] in order;
      FirstOfMaximal(qtys, order, bk);
    }
  }

  /** The entry kept by the loop over the keys is the first most frequent value. */
  lemma FirstOfMaximal(qtys: seq<int>, order: seq<int>, bk: nat)
    requires order == FirstSeen(qtys) && bk < |order|
    requires forall k :: 0 <= k < |order| ==> Geometry.Count(qtys, order[k]) <= Geometry.Count(qtys, order[bk])
    requires forall k :: 0 <= k < |order| && Geometry.Count(qtys, order[k]) == Geometry.Count(qtys, order[bk]) ==> bk <= k
    ensures FirstMostFrequent(qtys, order[bk])
  {
    var best := order[bk];
    assert best in qtys;
    forall x | x in qtys ensures Geometry.Count(qtys, x) <= Geometry.Count(qtys, best) {
      assert x in order;
      var k :| 0 <= k < |order| && order[k] == x;
    }
    forall x | x in qtys && Geometry.Count(qtys, x) == Geometry.Count(qtys, best)
      ensures FirstIndex(qtys, best) <= FirstIndex(qtys, x)
    {
      assert x in order;
      var k :| 0 <= k < |order| && order[k] == x;
      assert bk <= k;
      if bk < k {
        FirstSeenSorted(qtys);
        assert FirstIndex(qtys, order[bk]) < FirstIndex(qtys, order[k]);
      }
    }
  }

  /** The partition rule of `inferSectionCount`: one section more than partitions. */
  function PartitionSections(partitionsQty: real): int
    requires partitionsQty > 0.0
  {
    Max(1, RoundHalfUp(partitionsQty) + 1)
  }

  /** `inferSectionCount`: from the back panels, else the partitions, else the split of
      the width. */
  method InferSectionCount(spec: JsSpec) returns (n: int)
    ensures n >= 1
    ensures HasBacks(spec.corpus) && BackQtys(spec.corpus) != [] ==> FirstMostFrequent(BackQtys(spec.corpus), n)
    ensures HasBacks(spec.corpus) && BackQtys(spec.corpus) == [] ==> n == 1
    ensures !HasBacks(spec.corpus) && QtyOfType(spec.corpus, Partition) > 0.0 ==>
      n == PartitionSections(QtyOfType(spec.corpus, Partition))
    ensures !HasBacks(spec.corpus) && QtyOfType(spec.corpus, Partition) <= 0.0 ==>
      n == JsSectionCount(spec.width)
  {
    if HasBacks(spec.corpus) {
      var qtys := BackQtys(spec.corpus);
      var best := MostFrequentQty(qtys);
      if best > 0 {
        return best;
      }
      PositiveMostFrequent(qtys, best);
      return 1;
    }
    var partitionsQty := QtyOfType(spec.corpus, Partition);
    if partitionsQty > 0.0 {
      return PartitionSections(partitionsQty);
    }
    var fallback := SplitSectionsJs(spec.width);
    return |fallback|;
  }

  /** The frequency loop finds a positive value whenever there is a value: zeros are
      filtered out before it. */
  lemma PositiveMostFrequent(qtys: seq<int>, best: int)
    requires FirstMostFrequent(qtys, best) && best <= 0
    requires forall i :: 0 <= i < |qtys| ==> qtys[i] > 0
    ensures qtys == []
  {
  }

  // ---------------------------------------------------------------------------
  // Base structure

  /** `getBaseStructure`'s result. */
  datatype Structure = Structure(sections: int, partitions: int, shelves: real)

  /** `getBaseStructure`: the section count, a partition between each two sections, and
      the summed shelf quantity. */
  method BaseStructure(spec: JsSpec) returns (s: Structure)
    ensures s.sections >= 1 && s.partitions == s.sections - 1
    ensures s.shelves == QtyOfType(spec.corpus, Shelf)
  {
    var sections := InferSectionCount(spec);
    s := Structure(sections, Max(sections - 1, 0), QtyOfType(spec.corpus, Shelf));
  }

  /** Quantities of one type add up over two runs of parts. */
  lemma {:induction false} QtyOfTypeAppend(a: seq<JsPart>, b: seq<JsPart>, t: PartType)
    ensures QtyOfType(a + b, t) == QtyOfType(a, t) + QtyOfType(b, t)
    decreases |b|
  {
    if b == [] {
      assert a + b == a;
    } else {
      assert (a + b)[..|a + b| - 1] == a + b[..|b| - 1];
      QtyOfTypeAppend(a, b[..|b| - 1], t);
    }
  }

  // ---------------------------------------------------------------------------
  // Weight and density

  /** A part with a thickness, a length, a width and a quantity. */
  predicate Complete(p: JsPart) {
    p.thickness != 0.0 && p.length != 0.0 && p.width != 0.0 && p.qty != 0.0
  }

  /** The volume of all panels of a part, m³. */
  function PartVolume(p: JsPart): real {
    (p.length / 1000.0) * (p.width / 1000.0) * (p.thickness / 1000.0) * p.qty
  }

  /** The summed volume of the complete parts, as `inferDensityFromSpec` reduces it. */
  function CorpusVolume(parts: seq<JsPart>): real {
    if parts == [] then 0.0
    else
      var p := parts[|parts| - 1];
      CorpusVolume(parts[..|parts| - 1]) + (if Complete(p) then PartVolume(p) else 0.0)
  }

  /** The weight `calculateWeight` sums before rounding, kg. */
  function RawWeight(parts: seq<JsPart>, density: real): real {
    if parts == [] then 0.0
    else
      var p := parts[|parts| - 1];
      var (area, t) := ((p.length / 1000.0) * (p.width / 1000.0), p.thickness / 1000.0);
      RawWeight(parts[..|parts| - 1], density) + (if Complete(p) then density * area * t * p.qty else 0.0)
  }

  /** The weight is the density times the volume. */
  lemma {:induction false} RawWeightIsDensityTimesVolume(parts: seq<JsPart>, density: real)
    ensures RawWeight(parts, density) == density * CorpusVolume(parts)
  {
    if parts != [] {
      RawWeightIsDensityTimesVolume(parts[..|parts| - 1], density);
    }
  }

  /** `Math.round(x * 100) / 100`: to the cent, halves upward. */
  function Cents(x: real): (c: real)
    ensures x - 0.005 < c <= x + 0.005
  {
    RoundHalfUp(x * 100.0) as real / 100.0
  }

  /** Rounding to the cent twice is rounding once. */
  lemma CentsIdempotent(x: real)
    ensures Cents(Cents(x)) == Cents(x)
  {
    var k := RoundHalfUp(x * 100.0);
    assert Cents(x) * 100.0 == k as real;
    assert RoundHalfUp(k as real) == k;
  }

  /** `calculateWeight`: the loop over the parts, then the rounding to the cent. */
  method CalculateWeight(parts: seq<JsPart>, density: real) returns (kg: real)
    ensures kg == Cents(RawWeight(parts, density))
  {
    var total := 0.0;
    var i := 0;
    while i < |parts|
      invariant 0 <= i <= |parts|
      invariant total == RawWeight(parts[..i], density)
    {
      var p := parts[i];
      assert parts[..i + 1][..i] == parts[..i];
      if Complete(p) {
        var area := (p.length / 1000.0) * (p.width / 1000.0);
        var t := p.thickness / 1000.0;
        total := total + density * area * t * p.qty;
      }
      i := i + 1;
    }
    assert parts[..i] == parts;
    kg := Cents(total);
  }

  /** `inferDensityFromSpec`: the recorded weight over the volume of the panels, kg/m³,
      when that is a positive number; 730 otherwise. */
  function InferDensity(spec: JsSpec): (d: real)
    ensures d > 0.0
    ensures d != JsMaterialDensity as real ==>
      spec.baseWeight.Some? && spec.baseWeight.value > 0.0 && CorpusVolume(spec.corpus) != 0.0
  {
    if spec.baseWeight.None? || spec.baseWeight.value <= 0.0 then JsMaterialDensity as real
    else
      var volume := CorpusVolume(spec.corpus);
      if volume == 0.0 then JsMaterialDensity as real
      else
        var density := spec.baseWeight.value / volume;
        if density > 0.0 then density else JsMaterialDensity as real
  }

  /** The inferred density gives back the recorded weight: weighing the panels of the
      specification at it yields the weight the specification states. */
  lemma InferredDensityRoundTrip(spec: JsSpec)
    requires spec.baseWeight.Some? && spec.baseWeight.value > 0.0 && CorpusVolume(spec.corpus) > 0.0
    ensures RawWeight(spec.corpus, InferDensity(spec)) == spec.baseWeight.value
  {
    var v := CorpusVolume(spec.corpus);
    var d := spec.baseWeight.value / v;
    assert d > 0.0;
    RawWeightIsDensityTimesVolume(spec.corpus, d);
  }

  // ---------------------------------------------------------------------------
  // Price

  /** A part that is priced: a length, a width and a quantity. */
  predicate Priced(p: JsPart) {
    p.length != 0.0 && p.width != 0.0 && p.qty != 0.0
  }

  /** The cost of one part's panels: the area times the price, plus the waste percentage. */
  function PartPrice(p: JsPart, price: real, waste: real): real {
    (p.length / 1000.0) * (p.width / 1000.0) * p.qty * price * (1.0 + waste / 100.0)
  }

  /** A part that enters the sum: priced, with its material in the price list. */
  predicate Listed(p: JsPart, materials: map<string, JsMaterial>) {
    Priced(p) && p.materialId in materials
  }

  /** The sum after one more part: unchanged for a part that is not listed, NaN (`None`)
      once a listed material has no price or the sum is already NaN. */
  function AddPart(total: Option<real>, p: JsPart, materials: map<string, JsMaterial>): Option<real> {
    if !Listed(p, materials) then total
    else
      var m := materials[p.materialId];
      if total.None? || m.price.None? then None
      else Some(total.value + PartPrice(p, m.price.value, m.waste))
  }

  /** The price `calculatePrice` sums before rounding: priced parts whose material is in
      the price list; `None` for NaN. */
  function RawPrice(parts: seq<JsPart>, materials: map<string, JsMaterial>): Option<real> {
    if parts == [] then Some(0.0)
    else AddPart(RawPrice(parts[..|parts| - 1], materials), parts[|parts| - 1], materials)
  }

  /** Every listed material of a priced part has a price. */
  predicate PricesKnown(parts: seq<JsPart>, materials: map<string, JsMaterial>) {
    forall i :: 0 <= i < |parts| && Listed(parts[i], materials) ==> materials[parts[i].materialId].price.Some?
  }

  /** `Math.round` of the sum, NaN staying NaN. */
  function RoundPrice(total: Option<real>): Option<int> {
    if total.None? then None else Some(RoundHalfUp(total.value))
  }

  /** `calculatePrice`: the loop over the parts, rounded to a whole number; NaN (`None`)
      exactly when a listed material of a priced part has no price. */
  method CalculatePrice(parts: seq<JsPart>, materials: map<string, JsMaterial>) returns (price: Option<int>)
    ensures price == RoundPrice(RawPrice(parts, materials))
    ensures price.Some? <==> PricesKnown(parts, materials)
  {
    var total: Option<real> := Some(0.0);
    var i := 0;
    while i < |parts|
      invariant 0 <= i <= |parts|
      invariant total == RawPrice(parts[..i], materials)
    {
      var p := parts[i];
      assert parts[..i + 1][..i] == parts[..i] && parts[..i + 1][i] == p;
      if Priced(p) && p.materialId in materials {
        var m := materials[p.materialId];
        if total.None? || m.price.None? {
          total := None;
        } else {
          total := Some(total.value + PartPrice(p, m.price.value, m.waste));
        }
      }
      i := i + 1;
    }
    assert parts[..i] == parts;
    price := RoundPrice(total);
    PriceDefinedIff(parts, materials);
  }

  /** The sum is a number exactly when every listed material of a priced part has a price. */
  lemma {:induction false} PriceDefinedIff(parts: seq<JsPart>, materials: map<string, JsMaterial>)
    ensures RawPrice(parts, materials).Some? <==> PricesKnown(parts, materials)
  {
    if parts != [] {
      var init, p := parts[..|parts| - 1], parts[|parts| - 1];
      PriceDefinedIff(init, materials);
      assert forall i :: 0 <= i < |init| ==> init[i] == parts[i];
      if PricesKnown(parts, materials) {
        assert PricesKnown(init, materials);
      }
      if !PricesKnown(init, materials) {
        var k :| 0 <= k < |init| && Listed(init[k], materials) && materials[init[k].materialId].price.None?;
        assert parts[k] == init[k];
      }
    }
  }

  /** Parts whose material is not in the price list cost nothing. */
  lemma {:induction false} UnlistedPartsFree(parts: seq<JsPart>, materials: map<string, JsMaterial>)
    requires forall i :: 0 <= i < |parts| ==> parts[i].materialId !in materials
    ensures RawPrice(parts, materials) == Some(0.0)
  {
    if parts != [] {
      UnlistedPartsFree(parts[..|parts| - 1], materials);
    }
  }

  /** Prices add up over two runs of parts, and NaN in either run is NaN in both. */
  lemma {:induction false} RawPriceAppend(a: seq<JsPart>, b: seq<JsPart>, materials: map<string, JsMaterial>)
    ensures RawPrice(a + b, materials) ==
      if RawPrice(a, materials).None? || RawPrice(b, materials).None? then None
      else Some(RawPrice(a, materials).value + RawPrice(b, materials).value)
    decreases |b|
  {
    if b == [] {
      assert a + b == a;
    } else {
      assert (a + b)[..|a + b| - 1] == a + b[..|b| - 1];
      assert (a + b)[|a + b| - 1] == b[|b| - 1];
      RawPriceAppend(a, b[..|b| - 1], materials);
    }
  }

  // ---------------------------------------------------------------------------
  // Hardware cost

  /** A hardware line is charged when it has a price and its unit is not a percentage. */
  predicate Charged(f: JsFurniture) {
    f.price != 0.0 && f.unit != Some("%")
  }

  /** No line of the list is charged. */
  predicate NoneCharged(items: seq<JsFurniture>) {
    forall i :: 0 <= i < |items| ==> !Charged(items[i])
  }

  /** What one line adds: quantity times price when it is charged. */
  function LineCost(f: JsFurniture): real {
    if Charged(f) then f.qty * f.price else 0.0
  }

  /** `calculateFurnitureCost`: quantity times price over the charged lines. */
  function FurnitureCost(items: seq<JsFurniture>): (r: real)
    ensures NoneCharged(items) ==> r == 0.0
  {
    if items == [] then 0.0
    else
      var f := items[|items| - 1];
      FurnitureCost(items[..|items| - 1]) + LineCost(f)
  }

  /** The charged lines of a list. */
  function ChargedLines(items: seq<JsFurniture>): (r: seq<JsFurniture>)
    ensures forall i :: 0 <= i < |r| ==> Charged(r[i]) && r[i] in items
  {
    if items == [] then []
    else
      var f := items[|items| - 1];
      ChargedLines(items[..|items| - 1]) + (if Charged(f) then [f] else [])
  }

  /** Lines without a price, and percentage lines, change nothing: the cost of a list is
      the cost of its charged lines. */
  lemma {:induction false} CostOfChargedLines(items: seq<JsFurniture>)
    ensures FurnitureCost(items) == FurnitureCost(ChargedLines(items))
  {
    if items != [] {
      var init := items[..|items| - 1];
      var f := items[|items| - 1];
      CostOfChargedLines(init);
      var c := ChargedLines(init);
      if Charged(f) {
        assert ChargedLines(items) == c + [f];
        CostOfChargedLine(c, f);
      } else {
        assert ChargedLines(items) == c;
      }
    }
  }

  lemma CostOfChargedLine(c: seq<JsFurniture>, f: JsFurniture)
    requires Charged(f)
    ensures FurnitureCost(c + [f]) == FurnitureCost(c) + LineCost(f)
  {
    assert (c + [f])[..|c + [f]| - 1] == c;
  }

  /** With non-negative prices and quantities the cost is non-negative. */
  lemma {:induction false} FurnitureCostNonNegative(items: seq<JsFurniture>)
    requires forall i :: 0 <= i < |items| ==> items[i].price >= 0.0 && items[i].qty >= 0.0
    ensures FurnitureCost(items) >= 0.0
  {
    if items != [] {
      FurnitureCostNonNegative(items[..|items| - 1]);
      var f := items[|items| - 1];
      assert f.qty * f.price >= 0.0;
      assert LineCost(f) >= 0.0;
    }
  }
}
