/**
 * The column statistics the dashboards compute over exact reals: `sum`, `min`, `max`,
 * `mean`, the sample standard deviation (`std(ddof=1)`) and `quantile` with numpy's
 * default linear interpolation.
 */
module Stats {
  import opened Wrappers
  import opened Sorting

  function Sum(xs: seq<real>): real {
    if xs == [] then 0.0 else xs[0] + Sum(xs[1..])
  }

  lemma {:induction false} SumAppend(xs: seq<real>, ys: seq<real>)
    ensures Sum(xs + ys) == Sum(xs) + Sum(ys)
  {
    if xs != [] {
      assert (xs + ys)[0] == xs[0];
      assert (xs + ys)[1..] == xs[1..] + ys;
      SumAppend(xs[1..], ys);
      assert Sum(xs + ys) == xs[0] + Sum(xs[1..] + ys);
    } else {
      assert xs + ys == ys;
    }
  }

  function Max(xs: seq<real>): (m: real)
    requires |xs| >= 1
    ensures m in xs
    ensures forall i :: 0 <= i < |xs| ==> xs[i] <= m
  {
    if |xs| == 1 then xs[0]
    else
      var rest := Max(xs[1..]);
      assert forall i :: 1 <= i < |xs| ==> xs[i] == xs[1..][i - 1];
      if xs[0] >= rest then xs[0] else rest
  }

  function Min(xs: seq<real>): (m: real)
    requires |xs| >= 1
    ensures m in xs
    ensures forall i :: 0 <= i < |xs| ==> m <= xs[i]
  {
    if |xs| == 1 then xs[0]
    else
      var rest := Min(xs[1..]);
      assert forall i :: 1 <= i < |xs| ==> xs[i] == xs[1..][i - 1];
      if xs[0] <= rest then xs[0] else rest
  }

  function Mean(xs: seq<real>): real
    requires |xs| >= 1
  {
    Sum(xs) / |xs| as real
  }

  /** The mean times the count is the sum. */
  lemma MeanTimesCount(xs: seq<real>)
    requires |xs| >= 1
    ensures Mean(xs) * |xs| as real == Sum(xs)
  {
  }

  /** Every element lies between `lo` and `hi`, so the sum lies between `n * lo` and `n * hi`. */
  lemma {:induction false} SumBounds(xs: seq<real>, lo: real, hi: real)
    requires forall i :: 0 <= i < |xs| ==> lo <= xs[i] <= hi
    ensures |xs| as real * lo <= Sum(xs) <= |xs| as real * hi
  {
    if xs != [] {
      assert forall i :: 0 <= i < |xs[1..]| ==> xs[1..][i] == xs[i + 1];
      SumBounds(xs[1..], lo, hi);
      assert |xs| as real * lo == lo + (|xs| - 1) as real * lo;
      assert |xs| as real * hi == hi + (|xs| - 1) as real * hi;
    }
  }

  /** The mean of values between `lo` and `hi` lies between them too. */
  lemma MeanWithin(xs: seq<real>, lo: real, hi: real)
    requires |xs| >= 1
    requires forall i :: 0 <= i < |xs| ==> lo <= xs[i] <= hi
    ensures lo <= Mean(xs) <= hi
  {
    SumBounds(xs, lo, hi);
    DivBounds(Sum(xs), |xs| as real, lo, hi);
  }

  /** The mean lies between the minimum and the maximum. */
  lemma MeanBounds(xs: seq<real>)
    requires |xs| >= 1
    ensures Min(xs) <= Mean(xs) <= Max(xs)
  {
    MeanWithin(xs, Min(xs), Max(xs));
  }

  lemma DivBounds(s: real, n: real, lo: real, hi: real)
    requires n > 0.0 && n * lo <= s <= n * hi
    ensures lo <= s / n <= hi
  {
    var m := s / n;
    assert m * n == s;
  }

  /** Sum of squared deviations from `m`. */
  function SquaredDeviations(xs: seq<real>, m: real): (r: real)
    ensures r >= 0.0
  {
    if xs == [] then 0.0
    else
      SquareNonnegative(xs[0] - m);
      (xs[0] - m) * (xs[0] - m) + SquaredDeviations(xs[1..], m)
  }

  lemma SquareNonnegative(d: real)
    ensures d * d >= 0.0
  {
    if d < 0.0 {
      assert d * d == (-d) * (-d);
    }
  }

  /** The sample variance with one degree of freedom removed (`ddof=1`). */
  function SampleVariance(xs: seq<real>): (v: real)
    requires |xs| >= 2
    ensures v >= 0.0
  {
    SquaredDeviations(xs, Mean(xs)) / (|xs| - 1) as real
  }

  /**
   * `std(ddof=1)`: undefined (NaN) below two values. The square root is `sqrt`, a
   * parameter; the model does not fix floating-point rounding.
   */
  function StdDev(xs: seq<real>, sqrt: real -> real): (r: Option<real>)
    ensures r.None? <==> |xs| < 2
  {
    if |xs| < 2 then None else Some(sqrt(SampleVariance(xs)))
  }

  /** All equal values have zero variance. */
  lemma {:induction false} ConstantDeviations(xs: seq<real>, m: real)
    requires forall i :: 0 <= i < |xs| ==> xs[i] == m
    ensures SquaredDeviations(xs, m) == 0.0
  {
    if xs != [] {
      assert forall i :: 0 <= i < |xs[1..]| ==> xs[1..][i] == xs[i + 1];
      ConstantDeviations(xs[1..], m);
    }
  }

  // ---------------------------------------------------------------------------
  // Quantiles

  function RealLe(a: real, b: real): bool {
    a <= b
  }

  lemma RealLeTotalPreorder()
    ensures TotalPreorder(RealLe)
    ensures Antisymmetric(RealLe)
  {
  }

  /** The values in ascending order. */
  function Ascending(xs: seq<real>): (v: seq<real>)
    ensures |v| == |xs| && multiset(v) == multiset(xs)
    ensures forall i, j :: 0 <= i < j < |v| ==> v[i] <= v[j]
  {
    RealLeTotalPreorder();
    var v := SortBy(xs, RealLe);
    assert Sorted(v, RealLe);
    v
  }

  /**
   * Linear interpolation at fractional position `h` of an ascending sequence: between
   * `v[i]` and `v[i + 1]` for `i` the integer part of `h`.
   */
  function Interpolate(v: seq<real>, h: real): real
    requires |v| >= 1 && 0.0 <= h <= (|v| - 1) as real
  {
    var i := h.Floor;
    if i + 1 < |v| then Between(v[i], v[i + 1], h - i as real) else v[i]
  }

  /** The point a fraction `t` of the way from `a` to `b`. */
  function Between(a: real, b: real, t: real): real {
    a + t * (b - a)
  }

  lemma BetweenBounds(a: real, b: real, t: real)
    requires a <= b && 0.0 <= t <= 1.0
    ensures a <= Between(a, b, t) <= b
  {
    var d := b - a;
    ProductNonnegative(t, d);
    ProductNonnegative(1.0 - t, d);
    assert (1.0 - t) * d == d - t * d;
  }

  lemma ProductNonnegative(x: real, y: real)
    requires x >= 0.0 && y >= 0.0
    ensures x * y >= 0.0
  {
  }

  lemma BetweenMonotone(a: real, b: real, t1: real, t2: real)
    requires a <= b && t1 <= t2
    ensures Between(a, b, t1) <= Between(a, b, t2)
  {
    var d := b - a;
    ProductNonnegative(t2 - t1, d);
    assert (t2 - t1) * d == t2 * d - t1 * d;
  }

  /** `(n - 1) * q`: where the quantile sits among `n` sorted values. */
  function Position(n: nat, q: real): (h: real)
    requires n >= 1 && 0.0 <= q <= 1.0
    ensures 0.0 <= h <= (n - 1) as real
  {
    var a := (n - 1) as real;
    ProductNonnegative(a, q);
    ProductNonnegative(a, 1.0 - q);
    assert a * (1.0 - q) == a - a * q;
    a * q
  }

  lemma PositionMonotone(n: nat, q1: real, q2: real)
    requires n >= 1 && 0.0 <= q1 <= q2 <= 1.0
    ensures Position(n, q1) <= Position(n, q2)
  {
    var a := (n - 1) as real;
    ProductNonnegative(a, q2 - q1);
    assert a * (q2 - q1) == a * q2 - a * q1;
  }

  /**
   * `Series.quantile(q)`: the value at position `(n - 1) * q` of the sorted values,
   * interpolating linearly between neighbours.
   */
  function Quantile(xs: seq<real>, q: real): real
    requires |xs| >= 1 && 0.0 <= q <= 1.0
  {
    Interpolate(Ascending(xs), Position(|xs|, q))
  }

  /** The interpolated value lies between the two neighbours it interpolates. */
  lemma InterpolateBetween(v: seq<real>, h: real)
    requires |v| >= 1 && 0.0 <= h <= (|v| - 1) as real
    requires forall i, j :: 0 <= i < j < |v| ==> v[i] <= v[j]
    ensures 0 <= h.Floor < |v|
    ensures v[h.Floor] <= Interpolate(v, h)
    ensures h.Floor + 1 < |v| ==> Interpolate(v, h) <= v[h.Floor + 1]
    ensures h.Floor + 1 >= |v| ==> Interpolate(v, h) == v[|v| - 1]
  {
    var i := h.Floor;
    assert i as real <= h < i as real + 1.0;
    if i + 1 < |v| {
      BetweenBounds(v[i], v[i + 1], h - i as real);
    }
  }

  /** Interpolation is monotone in the position. */
  lemma InterpolateMonotone(v: seq<real>, h1: real, h2: real)
    requires |v| >= 1 && 0.0 <= h1 <= h2 <= (|v| - 1) as real
    requires forall i, j :: 0 <= i < j < |v| ==> v[i] <= v[j]
    ensures Interpolate(v, h1) <= Interpolate(v, h2)
  {
    InterpolateBetween(v, h1);
    InterpolateBetween(v, h2);
    var i1, i2 := h1.Floor, h2.Floor;
    assert i1 <= i2;
    if i1 == i2 {
      if i1 + 1 < |v| {
        BetweenMonotone(v[i1], v[i1 + 1], h1 - i1 as real, h2 - i2 as real);
      }
    } else {
      assert v[i1 + 1] <= v[i2];
    }
  }

  /** The first of the sorted values is the smallest value. */
  lemma AscendingFirst(xs: seq<real>, lo: real)
    requires lo in xs && forall i :: 0 <= i < |xs| ==> lo <= xs[i]
    ensures Ascending(xs)[0] == lo
  {
    var v := Ascending(xs);
    assert lo in multiset(v);
    var k :| 0 <= k < |v| && v[k] == lo;
    if k > 0 {
      assert v[0] <= v[k];
    }
    assert v[0] in multiset(xs);
    var j :| 0 <= j < |xs| && xs[j] == v[0];
  }

  lemma SortedLast(v: seq<real>, hi: real)
    requires hi in v && forall i :: 0 <= i < |v| ==> v[i] <= hi
    requires forall i, j :: 0 <= i < j < |v| ==> v[i] <= v[j]
    ensures v[|v| - 1] == hi
  {
    var k :| 0 <= k < |v| && v[k] == hi;
    assert v[k] <= v[|v| - 1];
  }

  /** The last of the sorted values is the largest value. */
  lemma AscendingLast(xs: seq<real>, hi: real)
    requires hi in xs && forall i :: 0 <= i < |xs| ==> xs[i] <= hi
    ensures Ascending(xs)[|xs| - 1] == hi
  {
    var v := Ascending(xs);
    forall i | 0 <= i < |v|
      ensures v[i] <= hi
    {
      assert v[i] in multiset(xs);
    }
    assert hi in multiset(v);
    SortedLast(v, hi);
  }

  /** A quantile lies between the first and the last sorted value, and is them at q = 0 and q = 1. */
  lemma QuantileWithin(xs: seq<real>, q: real)
    requires |xs| >= 1 && 0.0 <= q <= 1.0
    ensures Ascending(xs)[0] <= Quantile(xs, q) <= Ascending(xs)[|xs| - 1]
    ensures q == 0.0 ==> Quantile(xs, q) == Ascending(xs)[0]
    ensures q == 1.0 ==> Quantile(xs, q) == Ascending(xs)[|xs| - 1]
  {
    var v := Ascending(xs);
    var n := |xs|;
    var top := (n - 1) as real;
    var h := Position(n, q);
    InterpolateMonotone(v, 0.0, h);
    InterpolateMonotone(v, h, top);
    InterpolateBetween(v, 0.0);
    InterpolateBetween(v, top);
    if q == 0.0 {
      assert h == 0.0;
    }
    if q == 1.0 {
      assert h == top;
    }
  }

  /** A quantile lies between the minimum and the maximum; q = 0 gives the minimum and q = 1 the maximum. */
  lemma QuantileBounds(xs: seq<real>, q: real)
    requires |xs| >= 1 && 0.0 <= q <= 1.0
    ensures Min(xs) <= Quantile(xs, q) <= Max(xs)
    ensures q == 0.0 ==> Quantile(xs, q) == Min(xs)
    ensures q == 1.0 ==> Quantile(xs, q) == Max(xs)
  {
    QuantileWithin(xs, q);
    AscendingFirst(xs, Min(xs));
    AscendingLast(xs, Max(xs));
  }

  /** A higher quantile is never below a lower one. */
  lemma QuantileMonotone(xs: seq<real>, q1: real, q2: real)
    requires |xs| >= 1 && 0.0 <= q1 <= q2 <= 1.0
    ensures Quantile(xs, q1) <= Quantile(xs, q2)
  {
    PositionMonotone(|xs|, q1, q2);
    InterpolateMonotone(Ascending(xs), Position(|xs|, q1), Position(|xs|, q2));
  }
}
