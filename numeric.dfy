/**
 * Python and JavaScript number operations written out over Dafny's
 * unbounded integers and exact reals.
 */
module Numeric {

  /** `math.floor` of a real. */
  function Floor(x: real): (r: int)
    ensures r as real <= x < r as real + 1.0
  {
    x.Floor
  }

  /** `math.ceil` of a real. */
  function Ceil(x: real): (r: int)
    ensures x <= r as real < x + 1.0
  {
    -((-x).Floor)
  }

  /** Python's `int(x)` and JavaScript's `Math.trunc`: truncation toward zero. */
  function Trunc(x: real): (r: int)
    ensures 0.0 <= x ==> 0 <= r && r as real <= x < r as real + 1.0
    ensures x < 0.0 ==> r <= 0 && x <= r as real < x + 1.0
  {
    if x >= 0.0 then x.Floor else -((-x).Floor)
  }

  /** `math.ceil(a / b)` for integers, computed without leaving the integers. */
  function CeilDiv(a: int, b: int): (r: int)
    requires b > 0
    ensures (r - 1) * b < a <= r * b
  {
    -((-a) / b)
  }

  /** Python's `a // b`: division rounding toward minus infinity. */
  function FloorDiv(a: int, b: int): (r: int)
    requires b != 0
    ensures b > 0 ==> r * b <= a < r * b + b
    ensures b < 0 ==> r * b >= a > r * b + b
  {
    if b > 0 then a / b else (-a) / (-b)
  }

  /** Python's `round(x)`: to the nearest integer, halves to the even one. */
  function RoundHalfEven(x: real): (r: int)
    ensures x - 0.5 <= r as real <= x + 0.5
  {
    var f := x.Floor;
    var d := x - f as real;
    if d < 0.5 then f
    else if d > 0.5 then f + 1
    else if f % 2 == 0 then f
    else f + 1
  }

  /** JavaScript's `Math.round(x)`: to the nearest integer, halves upward. */
  function RoundHalfUp(x: real): (r: int)
    ensures x - 0.5 < r as real <= x + 0.5
  {
    (x + 0.5).Floor
  }

  lemma MulSmallZero(b: int, d: int)
    requires b > 0 && -b < b * d < b
    ensures d == 0
  {
  }

  /** Quotient and remainder are determined by `a == b * q + m` with `0 <= m < b`. */
  lemma DivModUnique(a: int, b: int, q: int, m: int)
    requires b > 0 && 0 <= m < b && a == b * q + m
    ensures a / b == q && a % b == m
  {
    var q', m' := a / b, a % b;
    assert a == b * q' + m';
    assert b * (q' - q) == m - m';
    MulSmallZero(b, q' - q);
  }

  lemma RealMulLe(a: real, b: real, c: real)
    requires a <= b && c >= 0.0
    ensures a * c <= b * c
  {
  }

  lemma RealMulLt(a: real, b: real, c: real)
    requires a < b && c > 0.0
    ensures a * c < b * c
  {
  }

  lemma RealDivMul(x: real, n: real)
    requires n > 0.0
    ensures (x / n) * n == x
  {
  }

  lemma Bracket(total: real, nr: real, b: real)
    requires nr > 0.0 && b <= total / nr < b + 1.0
    ensures b * nr <= total < b * nr + nr
  {
    var q := total / nr;
    RealDivMul(total, nr);
    assert q * nr == total;
    RealMulLt(q, b + 1.0, nr);
    assert (b + 1.0) * nr == b * nr + nr;
    assert total < (b + 1.0) * nr;
    RealMulLe(b, q, nr);
  }

  /** `floor(total / n)` is the largest multiple count of `n` that fits in `total`. */
  lemma FloorRatio(total: real, n: int)
    requires n > 0
    ensures var base := Floor(total / n as real);
      base as real * n as real <= total < base as real * n as real + n as real
  {
    Bracket(total, n as real, Floor(total / n as real) as real);
  }

  /** On whole numbers, `math.floor(t / n)` is integer division. */
  lemma FloorOfIntRatio(t: int, n: int)
    requires n > 0
    ensures Floor(t as real / n as real) == t / n
  {
    var base := Floor(t as real / n as real);
    FloorRatio(t as real, n);
    assert (base * n) as real == base as real * n as real;
    DivModUnique(t, n, base, t - base * n);
  }

  lemma MulLe(a: int, b: int, c: int)
    requires a <= b && c >= 0
    ensures a * c <= b * c
  {
  }

  lemma MulSucc(i: int, w: int)
    ensures (i + 1) * w == i * w + w
  {
  }

  lemma MulCancelLt(x: int, y: int, c: int)
    requires c > 0 && x * c < y * c
    ensures x < y
  {
  }

  /** Integer division by a positive number brackets the dividend. */
  lemma DivLe(a: int, n: int)
    requires n > 0
    ensures (a / n) * n <= a < (a / n) * n + n
  {
  }

  lemma DivMono(a: int, b: int, n: int)
    requires n > 0 && a <= b
    ensures a / n <= b / n
  {
    DivLe(a, n);
    DivLe(b, n);
    MulCancelLt(a / n, b / n + 1, n);
  }

  function Max(a: int, b: int): int { if a >= b then a else b }

  function Min(a: int, b: int): int { if a <= b then a else b }

  function MaxR(a: real, b: real): real { if a >= b then a else b }

  /** Sum of a sequence of integers. */
  function Sum(s: seq<int>): int {
    if |s| == 0 then 0 else Sum(s[..|s| - 1]) + s[|s| - 1]
  }

  /** Sum of a sequence of reals. */
  function SumR(s: seq<real>): real {
    if |s| == 0 then 0.0 else SumR(s[..|s| - 1]) + s[|s| - 1]
  }

  lemma {:induction false} SumAppend(a: seq<int>, b: seq<int>)
    ensures Sum(a + b) == Sum(a) + Sum(b)
  {
    if |b| == 0 {
      assert a + b == a;
    } else {
      assert (a + b)[..|a + b| - 1] == a + b[..|b| - 1];
      SumAppend(a, b[..|b| - 1]);
    }
  }

  lemma {:induction false} SumRAppend(a: seq<real>, b: seq<real>)
    ensures SumR(a + b) == SumR(a) + SumR(b)
  {
    if |b| == 0 {
      assert a + b == a;
    } else {
      assert (a + b)[..|a + b| - 1] == a + b[..|b| - 1];
      SumRAppend(a, b[..|b| - 1]);
    }
  }
}
