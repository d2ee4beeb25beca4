/**
 * The numeric utilities of the quality inspector, over the reals: clamping,
 * `Math.round`, the arithmetic mean, the population standard deviation and
 * Pearson's correlation coefficient. `Math.sqrt` is a parameter of which only
 * `IsSqrt` is known.
 */
module Numeric {

  /** What is known of `Math.sqrt`: on non-negative input it is the non-negative square root. */
  ghost predicate IsSqrt(sqrt: real -> real)
  {
    forall x: real :: 0.0 <= x ==> 0.0 <= sqrt(x) && sqrt(x) * sqrt(x) == x
  }

  /** `Math.max(0, Math.min(1, x))`. */
  function Clamp01(x: real): (r: real)
    ensures 0.0 <= r <= 1.0
    ensures 0.0 <= x <= 1.0 ==> r == x
    ensures x < 0.0 ==> r == 0.0
    ensures 1.0 < x ==> r == 1.0
  {
    if x < 0.0 then 0.0 else if 1.0 < x then 1.0 else x
  }

  /** `Math.round`: the nearest integer, halves rounded up. */
  function Round(x: real): (r: int)
    ensures x - 0.5 < r as real <= x + 0.5
  {
    (x + 0.5).Floor
  }

  lemma RoundMonotone(x: real, y: real)
    requires x <= y
    ensures Round(x) <= Round(y)
  {
  }

  /** `Math.round(clamp01(x) * 100)`: a whole percentage. */
  function Percent(x: real): (r: int)
    ensures 0 <= r <= 100
    ensures x <= 0.0 ==> r == 0
    ensures 1.0 <= x ==> r == 100
  {
    Round(Clamp01(x) * 100.0)
  }

  /** A higher score never shows a lower percentage. */
  lemma PercentMonotone(x: real, y: real)
    requires x <= y
    ensures Percent(x) <= Percent(y)
  {
    RoundMonotone(Clamp01(x) * 100.0, Clamp01(y) * 100.0);
  }

  /** `xs.reduce((a, b) => a + b, 0)`. */
  function Sum(xs: seq<real>): real
  {
    if |xs| == 0 then 0.0 else Sum(xs[..|xs| - 1]) + xs[|xs| - 1]
  }

  lemma SumSnoc(xs: seq<real>, x: real)
    ensures Sum(xs + [x]) == Sum(xs) + x
  {
    assert (xs + [x])[..|xs|] == xs;
  }

  /** `mean`: 0 for the empty sequence. */
  function Mean(xs: seq<real>): (r: real)
    ensures |xs| == 0 ==> r == 0.0
  {
    if |xs| > 0 then Sum(xs) / |xs| as real else 0.0
  }

  lemma {:induction false} SumBounds(xs: seq<real>, lo: real, hi: real)
    requires forall i :: 0 <= i < |xs| ==> lo <= xs[i] <= hi
    ensures lo * |xs| as real <= Sum(xs) <= hi * |xs| as real
  {
    if |xs| > 0 {
      SumBounds(xs[..|xs| - 1], lo, hi);
    }
  }

  /** The mean of values in `[lo, hi]` lies in `[lo, hi]`. */
  lemma MeanBounds(xs: seq<real>, lo: real, hi: real)
    requires |xs| > 0
    requires forall i :: 0 <= i < |xs| ==> lo <= xs[i] <= hi
    ensures lo <= Mean(xs) <= hi
  {
    SumBounds(xs, lo, hi);
    var n := |xs| as real;
    assert lo * n / n == lo && hi * n / n == hi;
    DivMonotone(lo * n, Sum(xs), n);
    DivMonotone(Sum(xs), hi * n, n);
  }

  lemma DivMonotone(a: real, b: real, n: real)
    requires a <= b && n > 0.0
    ensures a / n <= b / n
  {
    assert b / n - a / n == (b - a) / n;
  }

  /** Squared deviations from `m`. */
  function Squares(xs: seq<real>, m: real): (r: seq<real>)
    ensures |r| == |xs|
    ensures forall i :: 0 <= i < |xs| ==> r[i] == (xs[i] - m) * (xs[i] - m)
  {
    seq(|xs|, i requires 0 <= i < |xs| => (xs[i] - m) * (xs[i] - m))
  }

  /** Population variance: the mean of squared deviations, divided by n. */
  function Variance(xs: seq<real>): real
  {
    Mean(Squares(xs, Mean(xs)))
  }

  lemma SquareNonNegative(a: real)
    ensures 0.0 <= a * a
  {
    if a < 0.0 {
      assert a * a == (-a) * (-a);
    }
  }

  lemma VarianceNonNegative(xs: seq<real>)
    ensures 0.0 <= Variance(xs)
  {
    var m := Mean(xs);
    var sq := Squares(xs, m);
    forall i | 0 <= i < |sq| ensures 0.0 <= sq[i] {
      SquareNonNegative(xs[i] - m);
    }
    MeanNonNegative(sq);
  }

  lemma MeanNonNegative(xs: seq<real>)
    requires forall i :: 0 <= i < |xs| ==> 0.0 <= xs[i]
    ensures 0.0 <= Mean(xs)
  {
    if |xs| > 0 {
      SumNonNegative(xs);
      DivMonotone(0.0, Sum(xs), |xs| as real);
    }
  }

  lemma {:induction false} SumNonNegative(xs: seq<real>)
    requires forall i :: 0 <= i < |xs| ==> 0.0 <= xs[i]
    ensures 0.0 <= Sum(xs)
  {
    if |xs| > 0 {
      SumNonNegative(xs[..|xs| - 1]);
    }
  }

  /**
   * `stdev`: 0 for fewer than two values, otherwise the non-negative square
   * root of the population variance.
   */
  function Stdev(xs: seq<real>, sqrt: real -> real): (r: real)
    requires IsSqrt(sqrt)
    ensures 0.0 <= r
    ensures |xs| < 2 ==> r == 0.0
    ensures 2 <= |xs| ==> r * r == Variance(xs)
  {
    if |xs| < 2 then 0.0
    else
      VarianceNonNegative(xs);
      sqrt(Variance(xs))
  }

  /** The mean of a constant sequence is that constant. */
  lemma MeanOfConstant(xs: seq<real>, c: real)
    requires |xs| > 0
    requires forall i :: 0 <= i < |xs| ==> xs[i] == c
    ensures Mean(xs) == c
  {
    MeanBounds(xs, c, c);
  }

  /** Sum of products of deviations, accumulated left to right like the source's loop. */
  function Cross(x: seq<real>, y: seq<real>, mx: real, my: real): real
    requires |x| == |y|
  {
    if |x| == 0 then 0.0
    else Cross(x[..|x| - 1], y[..|y| - 1], mx, my) + (x[|x| - 1] - mx) * (y[|y| - 1] - my)
  }

  lemma {:induction false} CrossSelfNonNegative(x: seq<real>, mx: real)
    ensures 0.0 <= Cross(x, x, mx, mx)
  {
    if |x| > 0 {
      CrossSelfNonNegative(x[..|x| - 1], mx);
      SquareNonNegative(x[|x| - 1] - mx);
    }
  }

  lemma {:induction false} CrossSymmetric(x: seq<real>, y: seq<real>, mx: real, my: real)
    requires |x| == |y|
    ensures Cross(x, y, mx, my) == Cross(y, x, my, mx)
  {
    if |x| > 0 {
      CrossSymmetric(x[..|x| - 1], y[..|y| - 1], mx, my);
    }
  }

  /** Deviations of a constant sequence from its own value sum to zero. */
  lemma {:induction false} CrossOfConstant(x: seq<real>, c: real)
    requires forall i :: 0 <= i < |x| ==> x[i] == c
    ensures Cross(x, x, c, c) == 0.0
  {
    if |x| > 0 {
      CrossOfConstant(x[..|x| - 1], c);
    }
  }

  /** The inductive step of the Cauchy-Schwarz inequality. */
  /** `c * c <= a * b`, kept behind a name so that induction over the sums stays cheap. */
  ghost predicate SquareBelowProduct(c: real, a: real, b: real)
  {
    c * c <= a * b
  }

  lemma CauchySchwarzStep(A: real, B: real, C: real, p: real, q: real, L: real, RA: real, RB: real)
    requires 0.0 <= A && 0.0 <= B && SquareBelowProduct(C, A, B)
    requires L == C + p * q && RA == A + p * p && RB == B + q * q
    ensures SquareBelowProduct(L, RA, RB)
  {
    assert C * C <= A * B;
    StepArith(A, B, C, p, q);
    assert L * L <= RA * RB;
  }

  lemma StepArith(A: real, B: real, C: real, p: real, q: real)
    requires 0.0 <= A && 0.0 <= B && C * C <= A * B
    ensures (C + p * q) * (C + p * q) <= (A + p * p) * (B + q * q)
  {
    ExpandLeft(C, p, q);
    ExpandRight(A, B, p, q);
    if 0.0 < A {
      Identity(A, B, C, p, q);
      SquareNonNegative(A * q - C * p);
      ProductNonNegative(A * B - C * C, p * p);
      PositiveFactor(A, A * (q * q) + B * (p * p) - 2.0 * C * p * q);
    } else {
      ZeroFactor(A, B, C, q);
      ProductNonNegative(B, p * p);
    }
  }

  lemma ZeroFactor(A: real, B: real, C: real, q: real)
    requires !(A < 0.0) && !(0.0 < A) && C * C <= A * B
    ensures C * q == 0.0 && A * B == 0.0 && A * (q * q) == 0.0
  {
    if C < 0.0 || 0.0 < C {
      SquarePositive(C);
    }
  }

  lemma Identity(A: real, B: real, C: real, p: real, q: real)
    ensures A * (A * (q * q) + B * (p * p) - 2.0 * C * p * q) == (A * q - C * p) * (A * q - C * p) + (A * B - C * C) * (p * p)
  {
  }

  lemma ExpandLeft(C: real, p: real, q: real)
    ensures (C + p * q) * (C + p * q) == C * C + 2.0 * C * p * q + p * p * (q * q)
  {
  }

  lemma ExpandRight(A: real, B: real, p: real, q: real)
    ensures (A + p * p) * (B + q * q) == A * B + A * (q * q) + B * (p * p) + p * p * (q * q)
  {
  }

  lemma PositiveFactor(A: real, X: real)
    requires 0.0 < A && 0.0 <= A * X
    ensures 0.0 <= X
  {
  }

  lemma ProductNonNegative(a: real, b: real)
    requires 0.0 <= a && 0.0 <= b
    ensures 0.0 <= a * b
  {
  }

  lemma SquarePositive(a: real)
    requires a != 0.0
    ensures 0.0 < a * a
  {
    if a < 0.0 {
      assert a * a == (-a) * (-a);
    }
  }

  /** Cauchy-Schwarz: `num * num <= dx * dy` for the source's three accumulators. */
  lemma {:induction false} CauchySchwarz(x: seq<real>, y: seq<real>, mx: real, my: real)
    requires |x| == |y|
    ensures SquareBelowProduct(Cross(x, y, mx, my), Cross(x, x, mx, mx), Cross(y, y, my, my))
  {
    if |x| > 0 {
      var x', y' := x[..|x| - 1], y[..|y| - 1];
      CauchySchwarz(x', y', mx, my);
      CrossSelfNonNegative(x', mx);
      CrossSelfNonNegative(y', my);
      var A, B, C := Cross(x', x', mx, mx), Cross(y', y', my, my), Cross(x', y', mx, my);
      var p, q := x[|x| - 1] - mx, y[|y| - 1] - my;
      CauchySchwarzStep(A, B, C, p, q, Cross(x, y, mx, my), Cross(x, x, mx, mx), Cross(y, y, my, my));
    }
  }

  /** The quotient `corr` returns once the three sums are known. */
  function Pearson(num: real, dx: real, dy: real, sqrt: real -> real): real
    requires IsSqrt(sqrt) && 0.0 <= dx && 0.0 <= dy
  {
    if dx != 0.0 && dy != 0.0 then
      SqrtOfProductPositive(dx, dy, sqrt);
      num / sqrt(dx * dy)
    else 0.0
  }

  /**
   * `corr`: 0 for empty or length-mismatched input and when either deviation
   * sum is 0; otherwise Pearson's coefficient `num / sqrt(dx * dy)`.
   */
  function CorrValue(x: seq<real>, y: seq<real>, sqrt: real -> real): real
    requires IsSqrt(sqrt)
  {
    if |x| == 0 || |x| != |y| then 0.0
    else
      var mx, my := Mean(x), Mean(y);
      CrossSelfNonNegative(x, mx);
      CrossSelfNonNegative(y, my);
      Pearson(Cross(x, y, mx, my), Cross(x, x, mx, mx), Cross(y, y, my, my), sqrt)
  }

  lemma ProductPositive(a: real, b: real)
    requires 0.0 < a && 0.0 < b
    ensures 0.0 < a * b
  {
  }

  lemma SqrtPositive(v: real, sqrt: real -> real)
    requires IsSqrt(sqrt) && 0.0 < v
    ensures 0.0 < sqrt(v)
  {
    assert sqrt(v) * sqrt(v) == v;
  }

  lemma SqrtOfProductPositive(dx: real, dy: real, sqrt: real -> real)
    requires IsSqrt(sqrt) && 0.0 <= dx && 0.0 <= dy && dx != 0.0 && dy != 0.0
    ensures 0.0 < sqrt(dx * dy)
  {
    ProductPositive(dx, dy);
    SqrtPositive(dx * dy, sqrt);
  }

  /** By Cauchy-Schwarz `num * num <= dx * dy`, so the quotient lies in `[-1, 1]`. */
  lemma PearsonBounded(num: real, dx: real, dy: real, sqrt: real -> real)
    requires IsSqrt(sqrt) && 0.0 <= dx && 0.0 <= dy && SquareBelowProduct(num, dx, dy)
    ensures -1.0 <= Pearson(num, dx, dy, sqrt) <= 1.0
  {
    if dx != 0.0 && dy != 0.0 {
      assert num * num <= dx * dy;
      SqrtOfProductPositive(dx, dy, sqrt);
      var s := sqrt(dx * dy);
      assert s * s == dx * dy;
      AbsBelowRoot(num, s);
      UnitQuotient(num, s);
    }
  }

  /** The coefficient always lies in `[-1, 1]`. */
  lemma CorrBounded(x: seq<real>, y: seq<real>, sqrt: real -> real)
    requires IsSqrt(sqrt)
    ensures -1.0 <= CorrValue(x, y, sqrt) <= 1.0
  {
    if |x| > 0 && |x| == |y| {
      var mx, my := Mean(x), Mean(y);
      CrossSelfNonNegative(x, mx);
      CrossSelfNonNegative(y, my);
      CauchySchwarz(x, y, mx, my);
      PearsonBounded(Cross(x, y, mx, my), Cross(x, x, mx, mx), Cross(y, y, my, my), sqrt);
    }
  }

  lemma AbsBelowRoot(a: real, s: real)
    requires 0.0 < s && a * a <= s * s
    ensures -s <= a <= s
  {
    if a > s {
      ProductStrict(s, a);
    } else if a < -s {
      ProductStrict(s, -a);
    }
  }

  lemma UnitQuotient(a: real, s: real)
    requires 0.0 < s && -s <= a <= s
    ensures -1.0 <= a / s <= 1.0
  {
    DivMonotone(-s, a, s);
    DivMonotone(a, s, s);
  }

  /** The coefficient does not depend on which series comes first. */
  lemma CorrSymmetric(x: seq<real>, y: seq<real>, sqrt: real -> real)
    requires IsSqrt(sqrt)
    ensures CorrValue(x, y, sqrt) == CorrValue(y, x, sqrt)
  {
    if |x| > 0 && |x| == |y| {
      CrossSymmetric(x, y, Mean(x), Mean(y));
      var dx, dy := Cross(x, x, Mean(x), Mean(x)), Cross(y, y, Mean(y), Mean(y));
      assert dx * dy == dy * dx;
    }
  }

  /** A series with spread correlates perfectly with itself. */
  lemma CorrSelf(x: seq<real>, sqrt: real -> real)
    requires IsSqrt(sqrt)
    requires |x| > 0 && Cross(x, x, Mean(x), Mean(x)) != 0.0
    ensures CorrValue(x, x, sqrt) == 1.0
  {
    CrossSelfNonNegative(x, Mean(x));
    PearsonSelf(Cross(x, x, Mean(x), Mean(x)), sqrt);
  }

  lemma PearsonSelf(v: real, sqrt: real -> real)
    requires IsSqrt(sqrt) && 0.0 < v
    ensures Pearson(v, v, v, sqrt) == 1.0
  {
    SqrtOfSquare(v, sqrt);
  }

  lemma SqrtOfSquare(v: real, sqrt: real -> real)
    requires IsSqrt(sqrt) && 0.0 < v
    ensures sqrt(v * v) == v
    ensures v / sqrt(v * v) == 1.0
  {
    ProductPositive(v, v);
    var s := sqrt(v * v);
    assert 0.0 <= s && s * s == v * v;
    if s < v {
      ProductStrict(s, v);
    } else if v < s {
      ProductStrict(v, s);
    }
  }

  lemma ProductStrict(a: real, b: real)
    requires 0.0 <= a < b
    ensures a * a < b * b
  {
    ProductPositive(b - a, b + a);
    assert b * b - a * a == (b - a) * (b + a);
  }

  /** A constant series (for example a parameter held fixed across the grid) has coefficient 0. */
  lemma CorrOfConstant(x: seq<real>, y: seq<real>, c: real, sqrt: real -> real)
    requires IsSqrt(sqrt)
    requires forall i :: 0 <= i < |x| ==> x[i] == c
    ensures CorrValue(x, y, sqrt) == 0.0
  {
    if |x| > 0 && |x| == |y| {
      MeanOfConstant(x, c);
      CrossOfConstant(x, c);
    }
  }

  lemma CrossSnoc(x: seq<real>, y: seq<real>, mx: real, my: real, i: nat)
    requires i < |x| == |y|
    ensures Cross(x[..i + 1], y[..i + 1], mx, my) == Cross(x[..i], y[..i], mx, my) + (x[i] - mx) * (y[i] - my)
  {
    assert x[..i + 1][..i] == x[..i] && y[..i + 1][..i] == y[..i];
  }

  /** The source's `corr` loop: one pass accumulating `num`, `dx` and `dy`. */
  method Corr(x: seq<real>, y: seq<real>, sqrt: real -> real) returns (r: real)
    requires IsSqrt(sqrt)
    ensures r == CorrValue(x, y, sqrt)
    ensures -1.0 <= r <= 1.0
  {
    CorrBounded(x, y, sqrt);
    if |x| == 0 || |x| != |y| {
      return 0.0;
    }
    var mx, my := Mean(x), Mean(y);
    var num, dx, dy := 0.0, 0.0, 0.0;
    for i := 0 to |x|
      invariant num == Cross(x[..i], y[..i], mx, my)
      invariant dx == Cross(x[..i], x[..i], mx, mx)
      invariant dy == Cross(y[..i], y[..i], my, my)
    {
      CrossSnoc(x, y, mx, my, i);
      CrossSnoc(x, x, mx, mx, i);
      CrossSnoc(y, y, my, my, i);
      num := num + (x[i] - mx) * (y[i] - my);
      dx := dx + (x[i] - mx) * (x[i] - mx);
      dy := dy + (y[i] - my) * (y[i] - my);
    }
    assert x[..|x|] == x && y[..|y|] == y;
    CrossSelfNonNegative(x, mx);
    CrossSelfNonNegative(y, my);
    r := Pearson(num, dx, dy, sqrt);
  }
}
