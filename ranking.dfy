/**
 * Peak and slow selection, as both dashboards do it: the thresholds are quantiles of a
 * day's values chosen by the sidebar percentages, the peaks are the rows at or above the
 * peak threshold from the highest down, and the slow rows those at or below the slow
 * threshold from the lowest up.
 */
module Ranking {
  import opened Wrappers
  import opened Sorting
  import opened Stats

  /** The "Top %" slider: 1 to 30. */
  predicate PeakPercent(pk: int) {
    1 <= pk <= 30
  }

  /** The "Bottom %" slider: 1 to 50. */
  predicate SlowPercent(sk: int) {
    1 <= sk <= 50
  }

  /** `Series.quantile(q)`: nothing (a NaN) for an empty column, else a value between its extremes. */
  function Threshold(xs: seq<real>, q: real): (t: Option<real>)
    requires 0.0 <= q <= 1.0
    ensures t.None? <==> xs == []
    ensures t.Some? ==> Min(xs) <= t.value <= Max(xs)
  {
    if xs == [] then None
    else
      QuantileBounds(xs, q);
      Some(Quantile(xs, q))
  }

  /** `quantile(1 - TOP_PEAK_PCT)`. */
  function PeakThreshold(xs: seq<real>, pk: int): Option<real>
    requires PeakPercent(pk)
  {
    Threshold(xs, 1.0 - pk as real / 100.0)
  }

  /** `quantile(BOTTOM_SLOW_PCT)`. */
  function SlowThreshold(xs: seq<real>, sk: int): Option<real>
    requires SlowPercent(sk)
  {
    Threshold(xs, sk as real / 100.0)
  }

  /**
   * The slow threshold never exceeds the peak threshold: the bottom percentage is at
   * most 50 and the top at most 30, so the slow quantile is the lower one.
   */
  lemma SlowBelowPeak(xs: seq<real>, pk: int, sk: int)
    requires PeakPercent(pk) && SlowPercent(sk)
    ensures PeakThreshold(xs, pk).Some? <==> SlowThreshold(xs, sk).Some?
    ensures PeakThreshold(xs, pk).Some? ==> SlowThreshold(xs, sk).value <= PeakThreshold(xs, pk).value
  {
    var qs, qp := sk as real / 100.0, 1.0 - pk as real / 100.0;
    assert qs <= 0.5 by {
      assert sk as real <= 50.0;
    }
    assert 0.7 <= qp by {
      assert pk as real <= 30.0;
    }
    if xs != [] {
      QuantileMonotone(xs, qs, qp);
      assert SlowThreshold(xs, sk).value == Quantile(xs, qs);
      assert PeakThreshold(xs, pk).value == Quantile(xs, qp);
    }
  }

  /** The column of values of some rows. */
  function Values<T>(rows: seq<T>, v: T -> real): (xs: seq<real>)
    ensures |xs| == |rows| && forall i :: 0 <= i < |rows| ==> xs[i] == v(rows[i])
  {
    seq(|rows|, i requires 0 <= i < |rows| => v(rows[i]))
  }

  lemma ValuesAppend<T>(a: seq<T>, b: seq<T>, v: T -> real)
    ensures Values(a + b, v) == Values(a, v) + Values(b, v)
  {
  }

  /** Taking one row out of a column takes its value out of the sum. */
  lemma SumWithout<T>(b: seq<T>, k: nat, v: T -> real)
    requires k < |b|
    ensures Sum(Values(b, v)) == v(b[k]) + Sum(Values(b[..k] + b[k + 1..], v))
  {
    var before, after := Values(b[..k], v), Values(b[k + 1..], v);
    assert b == b[..k] + [b[k]] + b[k + 1..];
    ValuesAppend(b[..k], [b[k]], v);
    ValuesAppend(b[..k] + [b[k]], b[k + 1..], v);
    ValuesAppend(b[..k], b[k + 1..], v);
    assert Values([b[k]], v) == [v(b[k])];
    assert Values(b, v) == before + [v(b[k])] + after;
    SumAppend(before, [v(b[k])]);
    SumAppend(before + [v(b[k])], after);
    SumAppend(before, after);
    assert Sum([v(b[k])]) == v(b[k]);
  }

  lemma RemoveOne<T>(b: seq<T>, k: nat)
    requires k < |b|
    ensures multiset(b[..k] + b[k + 1..]) == multiset(b) - multiset{b[k]}
  {
    assert b == b[..k] + [b[k]] + b[k + 1..];
  }

  /** Matching the first row of one column with a row of the other reduces equal sums to the rest. */
  lemma SumMatched<T>(a: seq<T>, b: seq<T>, k: nat, v: T -> real)
    requires a != [] && k < |b| && b[k] == a[0]
    requires Sum(Values(a[1..], v)) == Sum(Values(b[..k] + b[k + 1..], v))
    ensures Sum(Values(a, v)) == Sum(Values(b, v))
  {
    SumWithout(b, k, v);
    SumWithout(a, 0, v);
    assert a[..0] + a[1..] == a[1..];
  }

  /** A column's sum does not depend on the order of its rows. */
  lemma {:induction false} SumValuesPermuted<T>(a: seq<T>, b: seq<T>, v: T -> real)
    requires multiset(a) == multiset(b)
    ensures Sum(Values(a, v)) == Sum(Values(b, v))
    decreases |a|
  {
    if a == [] {
      assert |multiset(b)| == 0;
    } else {
      assert a[0] in multiset(b);
      var k :| 0 <= k < |b| && b[k] == a[0];
      RemoveOne(b, k);
      assert a == [a[0]] + a[1..];
      SumValuesPermuted(a[1..], b[..k] + b[k + 1..], v);
      SumMatched(a, b, k, v);
    }
  }

  /** `value >= threshold`; a comparison with NaN is false. */
  predicate AtLeast(x: real, t: Option<real>) {
    t.Some? && x >= t.value
  }

  /** `value <= threshold`; a comparison with NaN is false. */
  predicate AtMost(x: real, t: Option<real>) {
    t.Some? && x <= t.value
  }

  function PeakMask<T>(v: T -> real, t: Option<real>): T -> bool {
    x => AtLeast(v(x), t)
  }

  function SlowMask<T>(v: T -> real, t: Option<real>): T -> bool {
    x => AtMost(v(x), t)
  }

  /** `sort_values(..., ascending=False)`. */
  function HighFirst<T>(v: T -> real): (T, T) -> bool {
    (a, b) => v(b) <= v(a)
  }

  /** `sort_values(..., ascending=True)`. */
  function LowFirst<T>(v: T -> real): (T, T) -> bool {
    (a, b) => v(a) <= v(b)
  }

  lemma HighFirstTotalPreorder<T(!new)>(v: T -> real)
    ensures TotalPreorder(HighFirst(v))
  {
  }

  lemma LowFirstTotalPreorder<T(!new)>(v: T -> real)
    ensures TotalPreorder(LowFirst(v))
  {
  }

  /** Filtering keeps exactly the satisfying rows, with their multiplicities. */
  lemma FilterMultisets<T(!new)>(s: seq<T>, p: T -> bool)
    ensures forall x :: multiset(Filter(s, p))[x] == if p(x) then multiset(s)[x] else 0
  {
    forall x
      ensures multiset(Filter(s, p))[x] == if p(x) then multiset(s)[x] else 0
    {
      FilterMultiset(s, p, x);
    }
  }

  /** `rows[rows[v] >= t].sort_values(v, ascending=False)`. */
  function Peaks<T(!new)>(rows: seq<T>, v: T -> real, t: Option<real>): (r: seq<T>)
    ensures forall x :: multiset(r)[x] == if AtLeast(v(x), t) then multiset(rows)[x] else 0
    ensures forall i, j :: 0 <= i < j < |r| ==> v(r[j]) <= v(r[i])
  {
    HighFirstTotalPreorder(v);
    FilterMultisets(rows, PeakMask(v, t));
    var r := SortBy(Filter(rows, PeakMask(v, t)), HighFirst(v));
    assert forall i, j :: 0 <= i < j < |r| ==> HighFirst(v)(r[i], r[j]);
    r
  }

  /** `rows[rows[v] <= t].sort_values(v, ascending=True)`. */
  function Slows<T(!new)>(rows: seq<T>, v: T -> real, t: Option<real>): (r: seq<T>)
    ensures forall x :: multiset(r)[x] == if AtMost(v(x), t) then multiset(rows)[x] else 0
    ensures forall i, j :: 0 <= i < j < |r| ==> v(r[i]) <= v(r[j])
  {
    LowFirstTotalPreorder(v);
    FilterMultisets(rows, SlowMask(v, t));
    var r := SortBy(Filter(rows, SlowMask(v, t)), LowFirst(v));
    assert forall i, j :: 0 <= i < j < |r| ==> LowFirst(v)(r[i], r[j]);
    r
  }

  /** A row with the day's highest value is always a peak. */
  lemma HighestIsPeak<T(!new)>(rows: seq<T>, v: T -> real, pk: int, x: T)
    requires PeakPercent(pk)
    requires x in rows && forall y :: y in rows ==> v(y) <= v(x)
    ensures x in Peaks(rows, v, PeakThreshold(Values(rows, v), pk))
  {
    var xs := Values(rows, v);
    var t := PeakThreshold(xs, pk);
    var k :| 0 <= k < |xs| && xs[k] == Max(xs);
    assert rows[k] in rows;
    assert multiset(Peaks(rows, v, t))[x] == multiset(rows)[x];
  }

  /** A row with the day's lowest value is always slow. */
  lemma LowestIsSlow<T(!new)>(rows: seq<T>, v: T -> real, sk: int, x: T)
    requires SlowPercent(sk)
    requires x in rows && forall y :: y in rows ==> v(x) <= v(y)
    ensures x in Slows(rows, v, SlowThreshold(Values(rows, v), sk))
  {
    var xs := Values(rows, v);
    var t := SlowThreshold(xs, sk);
    var k :| 0 <= k < |xs| && xs[k] == Min(xs);
    assert rows[k] in rows;
    assert multiset(Slows(rows, v, t))[x] == multiset(rows)[x];
  }

  /** Some row of a non-empty day is a peak. */
  lemma PeaksNonEmpty<T(!new)>(rows: seq<T>, v: T -> real, pk: int)
    requires PeakPercent(pk) && rows != []
    ensures Peaks(rows, v, PeakThreshold(Values(rows, v), pk)) != []
  {
    var xs := Values(rows, v);
    var k :| 0 <= k < |xs| && xs[k] == Max(xs);
    forall y | y in rows
      ensures v(y) <= v(rows[k])
    {
      var i :| 0 <= i < |rows| && rows[i] == y;
      assert xs[i] <= Max(xs);
    }
    HighestIsPeak(rows, v, pk, rows[k]);
  }

  /** Some row of a non-empty day is slow. */
  lemma SlowsNonEmpty<T(!new)>(rows: seq<T>, v: T -> real, sk: int)
    requires SlowPercent(sk) && rows != []
    ensures Slows(rows, v, SlowThreshold(Values(rows, v), sk)) != []
  {
    var xs := Values(rows, v);
    var k :| 0 <= k < |xs| && xs[k] == Min(xs);
    forall y | y in rows
      ensures v(rows[k]) <= v(y)
    {
      var i :| 0 <= i < |rows| && rows[i] == y;
      assert Min(xs) <= xs[i];
    }
    LowestIsSlow(rows, v, sk, rows[k]);
  }

  /**
   * A row in both lists sits exactly at both thresholds, which then coincide: being a
   * peak and slow at once happens only when the two quantiles are equal.
   */
  lemma PeakAndSlow<T(!new)>(rows: seq<T>, v: T -> real, pk: int, sk: int, x: T)
    requires PeakPercent(pk) && SlowPercent(sk)
    requires x in Peaks(rows, v, PeakThreshold(Values(rows, v), pk))
    requires x in Slows(rows, v, SlowThreshold(Values(rows, v), sk))
    ensures v(x) == PeakThreshold(Values(rows, v), pk).value == SlowThreshold(Values(rows, v), sk).value
  {
    var xs := Values(rows, v);
    SlowBelowPeak(xs, pk, sk);
    assert multiset(Peaks(rows, v, PeakThreshold(xs, pk)))[x] > 0;
    assert multiset(Slows(rows, v, SlowThreshold(xs, sk)))[x] > 0;
  }
}
