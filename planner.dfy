/**
 * The section and span planner of the Python engine: how a total width is
 * cut into sections of at most 1200 mm, how a section is cut into spans
 * (shelf span at most 800 mm, facade at most 600 mm, two spans from 800 mm),
 * and the exact-sum even distribution both rely on.
 */
module Planner {
  import opened Numeric

  const MaxSectionWidth := 1200
  const MaxShelfSpan := 800
  const MaxFacadeWidth := 600
  const PartitionThreshold := 800

  /** `n` values: `base + 1` at the first `rem` positions, `base` after them. */
  function Steps(base: int, rem: int, n: nat): (r: seq<int>)
    ensures |r| == n
    ensures forall i :: 0 <= i < n ==> r[i] == base + (if i < rem then 1 else 0)
  {
    seq(n, i => base + (if i < rem then 1 else 0))
  }

  lemma {:induction false} StepsSum(base: int, rem: int, n: nat)
    ensures Sum(Steps(base, rem, n)) == n * base + Min(Max(rem, 0), n)
  {
    if n > 0 {
      assert Steps(base, rem, n)[..n - 1] == Steps(base, rem, n - 1);
      StepsSum(base, rem, n - 1);
    }
  }

  /** A sequence whose values never grow and never differ by more than one. */
  predicate Balanced(r: seq<int>) {
    (forall i, j :: 0 <= i <= j < |r| ==> r[j] <= r[i])
    && (forall i, j :: 0 <= i < |r| && 0 <= j < |r| ==> r[i] - r[j] <= 1)
  }

  /** `_distribute_width_evenly`: `parts` values summing to `total`, as equal as
      integers allow, the larger ones first; no values when `parts <= 0`. */
  function DistributeWidthEvenly(total: int, parts: int): (r: seq<int>)
    ensures parts <= 0 ==> r == []
    ensures parts > 0 ==> |r| == parts && Sum(r) == total
    ensures Balanced(r)
  {
    if parts <= 0 then []
    else
      StepsSum(total / parts, total % parts, parts);
      Steps(total / parts, total % parts, parts)
  }

  /** A balanced sequence with a given length and sum is the even distribution:
      the even distribution is the only one of its kind. */
  lemma {:induction false} BalancedIsEven(r: seq<int>)
    requires |r| > 0 && Balanced(r)
    ensures r == DistributeWidthEvenly(Sum(r), |r|)
  {
    var p := |r|;
    var lo := r[p - 1];
    var k := CountAbove(r, lo);
    CountAboveSum(r, lo);
    assert Sum(r) == p * lo + k;
    var e := DistributeWidthEvenly(Sum(r), p);
    assert Sum(r) / p == lo && Sum(r) % p == k by {
      assert 0 <= k < p;
      DivModUnique(Sum(r), p, lo, k);
    }
    forall i | 0 <= i < p ensures r[i] == e[i] {
      CountAboveSplit(r, lo, i);
    }
  }

  /** Number of leading values of `r` above `lo`. */
  function CountAbove(r: seq<int>, lo: int): (k: nat)
    ensures k <= |r|
  {
    if r == [] || r[0] <= lo then 0 else 1 + CountAbove(r[1..], lo)
  }

  lemma {:induction false} CountAboveSum(r: seq<int>, lo: int)
    requires |r| > 0 && Balanced(r) && lo == r[|r| - 1]
    ensures CountAbove(r, lo) < |r|
    ensures Sum(r) == |r| * lo + CountAbove(r, lo)
  {
    var p := |r|;
    var k := CountAbove(r, lo);
    CountAboveSplitAll(r, lo);
    assert r == Steps(lo, k, p) by {
      forall i | 0 <= i < p ensures r[i] == Steps(lo, k, p)[i] {
        CountAboveSplit(r, lo, i);
      }
    }
    StepsSum(lo, k, p);
  }

  lemma {:induction false} CountAboveSplitAll(r: seq<int>, lo: int)
    requires |r| > 0 && Balanced(r) && lo == r[|r| - 1]
    ensures CountAbove(r, lo) < |r|
  {
    if r[0] > lo {
      assert Balanced(r[1..]);
      CountAboveSplitAll(r[1..], lo);
    }
  }

  lemma {:induction false} CountAboveSplit(r: seq<int>, lo: int, i: nat)
    requires |r| > 0 && Balanced(r) && lo == r[|r| - 1] && i < |r|
    ensures r[i] == lo + (if i < CountAbove(r, lo) then 1 else 0)
  {
    if r[0] > lo && i > 0 {
      assert Balanced(r[1..]);
      CountAboveSplit(r[1..], lo, i - 1);
    }
  }

  /** `_split_sections`: the number of sections is the least that keeps every
      section within 1200 mm, and the widths add up to the total. */
  function SplitSections(totalWidth: int): (r: seq<int>)
    requires totalWidth > 0
    ensures |r| == CeilDiv(totalWidth, MaxSectionWidth)
    ensures Sum(r) == totalWidth && Balanced(r)
    ensures forall i :: 0 <= i < |r| ==> 0 < r[i] <= MaxSectionWidth
  {
    var n := CeilDiv(totalWidth, MaxSectionWidth);
    var r := DistributeWidthEvenly(totalWidth, n);
    EvenWithinBound(totalWidth, n, MaxSectionWidth);
    r
  }

  /** Cutting `total` into `n >= ceil(total / bound)` even parts keeps each in (0, bound]. */
  lemma EvenWithinBound(total: int, n: int, bound: int)
    requires total > 0 && bound > 0 && n > 0 && total <= n * bound && n <= total
    ensures forall i :: 0 <= i < n ==> 0 < DistributeWidthEvenly(total, n)[i] <= bound
  {
    var q, m := total / n, total % n;
    assert total == n * q + m;
  }

  /** `_calc_spans_for_section`. */
  function SpansForSection(sectionWidth: int): (n: int)
    ensures sectionWidth > 0 ==> 1 <= n <= sectionWidth
    ensures sectionWidth >= PartitionThreshold ==> n >= 2
    ensures sectionWidth >= 0 ==> n * MaxFacadeWidth >= sectionWidth && n * MaxShelfSpan >= sectionWidth
    ensures sectionWidth >= 0 ==>
      n == Max(CeilDiv(sectionWidth, MaxFacadeWidth), if sectionWidth >= PartitionThreshold then 2 else 0)
  {
    var byShelf := CeilDiv(sectionWidth, MaxShelfSpan);
    var byFacade := CeilDiv(sectionWidth, MaxFacadeWidth);
    var spans := Max(byShelf, byFacade);
    if sectionWidth >= PartitionThreshold then Max(spans, 2) else spans
  }

  /** The spans of one section: each at most 600 mm wide, none empty, summing to the section. */
  lemma SpansOfSection(w: int)
    requires w > 0
    ensures var s := DistributeWidthEvenly(w, SpansForSection(w));
      |s| == SpansForSection(w) && Sum(s) == w && forall i :: 0 <= i < |s| ==> 0 < s[i] <= MaxFacadeWidth
  {
    EvenWithinBound(w, SpansForSection(w), MaxFacadeWidth);
  }

  /** The span widths of a list of sections, section by section. */
  function SpanWidths(sections: seq<int>): seq<int> {
    if sections == [] then []
    else
      var last := sections[|sections| - 1];
      SpanWidths(sections[..|sections| - 1]) + DistributeWidthEvenly(last, SpansForSection(last))
  }

  /** Total number of spans of a list of sections. */
  function TotalSpans(sections: seq<int>): int {
    if sections == [] then 0
    else TotalSpans(sections[..|sections| - 1]) + SpansForSection(sections[|sections| - 1])
  }

  /** Spans of positive sections cover the sections exactly, one width per span, each within 600 mm. */
  lemma {:induction false} SpanWidthsCover(sections: seq<int>)
    requires forall i :: 0 <= i < |sections| ==> sections[i] > 0
    ensures var s := SpanWidths(sections);
      Sum(s) == Sum(sections) && |s| == TotalSpans(sections)
      && forall i :: 0 <= i < |s| ==> 0 < s[i] <= MaxFacadeWidth
  {
    if sections != [] {
      var init := sections[..|sections| - 1];
      var last := sections[|sections| - 1];
      SpanWidthsCover(init);
      SpansOfSection(last);
      SumAppend(SpanWidths(init), DistributeWidthEvenly(last, SpansForSection(last)));
    }
  }

  /** `_calculate_span_widths`: extends a list with the span widths of each section in turn. */
  method CalculateSpanWidths(sections: seq<int>) returns (spanWidths: seq<int>)
    ensures spanWidths == SpanWidths(sections)
  {
    spanWidths := [];
    var i := 0;
    while i < |sections|
      invariant 0 <= i <= |sections|
      invariant spanWidths == SpanWidths(sections[..i])
    {
      var w := sections[i];
      spanWidths := spanWidths + DistributeWidthEvenly(w, SpansForSection(w));
      assert sections[..i + 1][..i] == sections[..i];
      i := i + 1;
    }
    assert sections[..|sections|] == sections;
  }

  /** The base count every section receives: `floor(total / n)`. */
  function ItemsBase(total: real, n: int): (base: int)
    requires n > 0
    ensures base as real * n as real <= total < base as real * n as real + n as real
  {
    FloorRatio(total, n);
    Floor(total / n as real)
  }

  /** How many sections get one item more: Python's `round(total - base * n)`. */
  function ItemsRemainder(total: real, n: int): (rem: int)
    requires n > 0
    ensures 0 <= rem <= n
  {
    var base := ItemsBase(total, n);
    RoundHalfEven(total - base as real * n as real)
  }

  /** What `_distribute_items_per_section` computes: the base count everywhere,
      plus one for the first `ItemsRemainder` sections. */
  function ItemsPlan(total: real, n: int): seq<real> {
    if n <= 0 then []
    else
      var base := ItemsBase(total, n);
      var rem := ItemsRemainder(total, n);
      StepsR(base as real, rem, n)
  }

  /** `n` reals: `base + 1` at the first `rem` positions, `base` after them. */
  function StepsR(base: real, rem: int, n: nat): (r: seq<real>)
    ensures |r| == n
    ensures forall i :: 0 <= i < n ==> r[i] == base + (if i < rem then 1.0 else 0.0)
  {
    seq(n, i => base + (if i < rem then 1.0 else 0.0))
  }

  /** The plan has one entry per section; its entries never grow and differ by at most one. */
  lemma ItemsPlanBalanced(total: real, n: int)
    requires n > 0
    ensures var plan := ItemsPlan(total, n);
      |plan| == n
      && (forall i, j :: 0 <= i < n && 0 <= j < n ==> plan[i] - plan[j] <= 1.0)
      && (forall i, j :: 0 <= i <= j < n ==> plan[j] <= plan[i])
  {
  }

  /** A whole number of items is handed out exactly: the plan adds up to it. */
  lemma ItemsPlanExact(t: int, n: int)
    requires n > 0
    ensures SumR(ItemsPlan(t as real, n)) == t as real
  {
    var base, rem := t / n, t % n;
    calc {
      SumR(ItemsPlan(t as real, n));
      { ItemsOfInt(t, n); }
      SumR(StepsR(base as real, rem, n));
      { ItemsSum(base as real, rem, n); }
      n as real * base as real + rem as real;
      { IntSplitReal(t, n, base, rem); }
      t as real;
    }
  }

  /** For a whole total the base count is `t / n` and the remainder `t % n`, so the
      plan is the base count with one more for the first `t % n` sections. */
  lemma ItemsOfInt(t: int, n: int)
    requires n > 0
    ensures ItemsPlan(t as real, n) == StepsR((t / n) as real, t % n, n)
  {
    var base := ItemsBase(t as real, n);
    FloorOfIntRatio(t, n);
    IntRemainder(t, n, base);
  }

  /** `t == n * (t / n) + t % n`, read in the reals. */
  lemma IntSplitReal(t: int, n: int, base: int, rem: int)
    requires n > 0 && base == t / n && rem == t % n
    ensures n as real * base as real + rem as real == t as real
  {
    assert (n * base) as real == n as real * base as real;
  }

  /** For a whole total the remainder left after the base count is `t % n`. */
  lemma IntRemainder(t: int, n: int, base: int)
    requires n > 0 && base == t / n
    ensures RoundHalfEven(t as real - base as real * n as real) == t % n
  {
    assert t as real - base as real * n as real == (t - base * n) as real;
  }

  lemma {:induction false} ItemsSum(base: real, rem: int, n: nat)
    requires 0 <= rem <= n
    ensures SumR(StepsR(base, rem, n)) == n as real * base + rem as real
  {
    var s := StepsR(base, rem, n);
    if n > 0 {
      var rem' := Min(rem, n - 1);
      assert s[..n - 1] == StepsR(base, rem', n - 1);
      ItemsSum(base, rem', n - 1);
    }
  }

  /** `_distribute_items_per_section`: fills a list with the base count and adds one,
      in place, to the first `remainder` sections (wrapping around modulo n). */
  method DistributeItemsPerSection(totalQty: real, sectionsCount: int) returns (distribution: seq<real>)
    ensures distribution == ItemsPlan(totalQty, sectionsCount)
  {
    if sectionsCount <= 0 {
      return [];
    }
    var n := sectionsCount;
    var base := ItemsBase(totalQty, n);
    var remainder := ItemsRemainder(totalQty, n);
    var a := new real[n](_ => base as real);
    var i := 0;
    while i < remainder
      invariant 0 <= i <= remainder <= n
      invariant forall k :: 0 <= k < n ==> a[k] == base as real + (if k < i then 1.0 else 0.0)
    {
      assert i % n == i by { DivModUnique(i, n, 0, i); }
      a[i % n] := a[i % n] + 1.0;
      i := i + 1;
    }
    assert a[..] == StepsR(base as real, remainder, n);
    distribution := a[..];
  }

  // ---------------------------------------------------------------------------
  // Worked examples

  /** 3000 mm becomes three 1000 mm sections; 2000 mm two. */
  lemma SplitExamples()
    ensures SplitSections(3000) == [1000, 1000, 1000]
    ensures SplitSections(2000) == [1000, 1000]
    ensures SplitSections(2500) == [834, 833, 833]
    ensures SplitSections(1000) == [1000]
  {
    assert CeilDiv(3000, MaxSectionWidth) == 3;
    assert CeilDiv(2000, MaxSectionWidth) == 2;
    assert CeilDiv(2500, MaxSectionWidth) == 3;
    assert CeilDiv(1000, MaxSectionWidth) == 1;
    assert DistributeWidthEvenly(2500, 3) == Steps(833, 1, 3);
  }

  /** Sections of 1000, 834 and 833 mm have two spans each; 2000 mm of two sections has four. */
  lemma SpanExamples()
    ensures SpansForSection(1000) == 2 && SpansForSection(834) == 2 && SpansForSection(833) == 2
    ensures TotalSpans([1000, 1000, 1000]) == 6 && TotalSpans([834, 833, 833]) == 6
  {
    assert CeilDiv(1000, MaxFacadeWidth) == 2 && CeilDiv(1000, MaxShelfSpan) == 2;
    assert CeilDiv(834, MaxFacadeWidth) == 2 && CeilDiv(834, MaxShelfSpan) == 2;
    assert CeilDiv(833, MaxFacadeWidth) == 2 && CeilDiv(833, MaxShelfSpan) == 2;
    assert [1000, 1000, 1000][..2] == [1000, 1000] && [1000, 1000][..1] == [1000];
    assert [834, 833, 833][..2] == [834, 833] && [834, 833][..1] == [834];
  }

  /** Five shelves over three sections: two, two and one. */
  lemma DistributeExample()
    ensures ItemsPlan(5.0, 3) == [2.0, 2.0, 1.0]
  {
    assert Floor(5.0 / 3.0) == 1;
  }
}
