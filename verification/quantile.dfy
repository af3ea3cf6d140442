/**
 * The quantile estimator: numeric ascending sort, linear-interpolation
 * quantiles, the p75/p90/p99 triple, and `Number(x.toFixed(k))` rounding.
 */
module Quantiles {

  predicate SortedAsc(s: seq<real>) {
    forall i, j :: 0 <= i < j < |s| ==> s[i] <= s[j]
  }

  /** Every element of `s` is at least `b`. */
  predicate AllAtLeast(s: seq<real>, b: real) {
    forall i :: 0 <= i < |s| ==> b <= s[i]
  }

  function Insert(x: real, s: seq<real>): (r: seq<real>)
    requires SortedAsc(s)
    ensures SortedAsc(r)
    ensures multiset(r) == multiset(s) + multiset{x}
  {
    InsertFacts(x, s);
    InsertRaw(x, s)
  }

  /** Insertion of `x` before the first element not smaller than it. */
  function InsertRaw(x: real, s: seq<real>): seq<real> {
    if s == [] || x <= s[0] then [x] + s else [s[0]] + InsertRaw(x, s[1..])
  }

  lemma {:induction false} InsertLowerBound(x: real, s: seq<real>, b: real)
    requires b <= x && AllAtLeast(s, b)
    ensures AllAtLeast(InsertRaw(x, s), b)
  {
    if s != [] && x > s[0] {
      InsertLowerBound(x, s[1..], b);
    }
  }

  lemma {:induction false} InsertFacts(x: real, s: seq<real>)
    requires SortedAsc(s)
    ensures SortedAsc(InsertRaw(x, s))
    ensures multiset(InsertRaw(x, s)) == multiset(s) + multiset{x}
  {
    InsertSorted(x, s);
    InsertPermutes(x, s);
  }

  lemma {:induction false} InsertSorted(x: real, s: seq<real>)
    requires SortedAsc(s)
    ensures SortedAsc(InsertRaw(x, s))
  {
    if s != [] && x > s[0] {
      var rest := InsertRaw(x, s[1..]);
      InsertSorted(x, s[1..]);
      InsertLowerBound(x, s[1..], s[0]);
      assert InsertRaw(x, s) == [s[0]] + rest;
    }
  }

  lemma {:induction false} InsertPermutes(x: real, s: seq<real>)
    ensures multiset(InsertRaw(x, s)) == multiset(s) + multiset{x}
  {
    if s != [] && x > s[0] {
      InsertPermutes(x, s[1..]);
      assert s == [s[0]] + s[1..];
    }
  }

  /**
   * `[...values].sort((a, b) => a - b)`: an ascending permutation. On exact
   * reals equal elements are indistinguishable, so stability plays no part.
   */
  function Sort(s: seq<real>): (r: seq<real>)
    ensures SortedAsc(r)
    ensures multiset(r) == multiset(s)
  {
    if s == [] then []
    else
      assert s == [s[0]] + s[1..];
      Insert(s[0], Sort(s[1..]))
  }

  /** A lower bound of every input is a lower bound of every output of the sort. */
  lemma SortKeepsLowerBound(s: seq<real>, b: real)
    ensures (forall v :: v in s ==> v >= b) ==> AllAtLeast(Sort(s), b)
  {
    var r := Sort(s);
    forall i | 0 <= i < |r|
      ensures r[i] in s
    {
      assert r[i] in multiset(r);
    }
  }

  /** `Math.ceil`. */
  function Ceil(x: real): (c: int)
    ensures x <= c as real < x + 1.0
  {
    if x == x.Floor as real then x.Floor else x.Floor + 1
  }

  /** `s[i] ?? d`: an out-of-range read is undefined and falls back to `d`. */
  function At(s: seq<real>, i: int, d: real): real {
    if 0 <= i < |s| then s[i] else d
  }

  /** The fractional rank `(n - 1) * q` the estimator interpolates at. */
  function Rank(n: nat, q: real): real {
    (n - 1) as real * q
  }

  /**
   * `quantile(sorted, q)`: 0 for no samples, the sample itself for one, and
   * otherwise the interpolation at the fractional rank `(n - 1) * q`.
   */
  function Quantile(sorted: seq<real>, q: real): (r: real)
    ensures |sorted| == 0 ==> r == 0.0
    ensures |sorted| == 1 ==> r == sorted[0]
  {
    if |sorted| == 0 then 0.0
    else if |sorted| == 1 then sorted[0]
    else Interpolate(sorted, Rank(|sorted|, q))
  }

  /**
   * The linear interpolation between the samples at the floor and the
   * ceiling of the fractional rank `idx`; an index out of range reads as
   * undefined and falls back as in the source.
   */
  function Interpolate(sorted: seq<real>, idx: real): real {
    var lo := idx.Floor;
    var hi := Ceil(idx);
    var loValue := At(sorted, lo, 0.0);
    var hiValue := At(sorted, hi, loValue);
    if lo == hi then loValue
    else
      var ratio := idx - lo as real;
      loValue * (1.0 - ratio) + hiValue * ratio
  }

  lemma MulUnit(a: real, q: real)
    requires 0.0 <= a && 0.0 <= q <= 1.0
    ensures a * q <= a
    ensures 0.0 <= a * q
  {
  }

  lemma MulMono(a: real, b: real, c: real)
    requires a <= b && 0.0 <= c
    ensures a * c <= b * c
  {
  }

  /** For q in [0, 1] the fractional rank lies in [0, n - 1]. */
  lemma RankRange(n: nat, q: real)
    requires n >= 1 && 0.0 <= q <= 1.0
    ensures 0.0 <= Rank(n, q) <= (n - 1) as real
  {
    MulUnit((n - 1) as real, q);
  }

  /** The fractional rank grows with q. */
  lemma RankMonotone(n: nat, q1: real, q2: real)
    requires n >= 1 && q1 <= q2
    ensures Rank(n, q1) <= Rank(n, q2)
  {
    var c := (n - 1) as real;
    assert Rank(n, q1) == q1 * c && Rank(n, q2) == q2 * c;
    MulMono(q1, q2, c);
  }

  /** The weighted form the source computes is the lower value plus a fraction of the gap. */
  lemma Weighted(a: real, b: real, t: real)
    ensures a * (1.0 - t) + b * t == a + t * (b - a)
  {
  }

  /** A convex combination of two ordered values lies between them. */
  lemma Between(a: real, b: real, t: real)
    requires a <= b && 0.0 <= t <= 1.0
    ensures a <= a * (1.0 - t) + b * t
    ensures a * (1.0 - t) + b * t <= b
  {
    Weighted(a, b, t);
    MulMono(0.0, t, b - a);
    MulMono(t, 1.0, b - a);
    assert 0.0 * (b - a) == 0.0 && 1.0 * (b - a) == b - a;
  }

  /** Within one segment, a larger ratio gives a larger value. */
  lemma SegmentMonotone(a: real, b: real, t1: real, t2: real)
    requires a <= b && t1 <= t2
    ensures a * (1.0 - t1) + b * t1 <= a * (1.0 - t2) + b * t2
  {
    MulMono(t1, t2, b - a);
    Weighted(a, b, t1);
    Weighted(a, b, t2);
  }

  /** Interpolation at an in-range rank lies between the samples at its floor and ceiling. */
  lemma InterpolateBounds(sorted: seq<real>, idx: real)
    requires SortedAsc(sorted) && 0.0 <= idx <= (|sorted| - 1) as real
    ensures var lo := idx.Floor; var hi := Ceil(idx);
      && 0 <= lo <= hi < |sorted| && hi <= lo + 1
      && sorted[lo] <= Interpolate(sorted, idx) <= sorted[hi]
  {
    var lo := idx.Floor;
    var hi := Ceil(idx);
    assert lo as real <= idx < lo as real + 1.0;
    assert idx <= hi as real < idx + 1.0;
    assert 0 <= lo <= hi <= lo + 1;
    assert hi < |sorted|;
    assert sorted[lo] <= sorted[hi];
    assert At(sorted, lo, 0.0) == sorted[lo];
    assert At(sorted, hi, sorted[lo]) == sorted[hi];
    if lo != hi {
      var a, b, t := sorted[lo], sorted[hi], idx - lo as real;
      assert 0.0 <= t <= 1.0;
      var v := Interpolate(sorted, idx);
      assert v == a * (1.0 - t) + b * t;
      Between(a, b, t);
      assert a <= v <= b;
    }
  }

  /** Interpolation is non-decreasing in the rank. */
  lemma InterpolateMonotone(sorted: seq<real>, idx1: real, idx2: real)
    requires SortedAsc(sorted) && 0.0 <= idx1 <= idx2 <= (|sorted| - 1) as real
    ensures Interpolate(sorted, idx1) <= Interpolate(sorted, idx2)
  {
    InterpolateBounds(sorted, idx1);
    InterpolateBounds(sorted, idx2);
    var lo1, lo2 := idx1.Floor, idx2.Floor;
    var hi1, hi2 := Ceil(idx1), Ceil(idx2);
    if lo1 < lo2 {
      assert sorted[hi1] <= sorted[lo2];
    } else if lo1 != hi1 {
      assert hi2 == hi1;
      SegmentMonotone(sorted[lo1], sorted[hi1], idx1 - lo1 as real, idx2 - lo1 as real);
    }
  }

  /**
   * On an ascending list and q in [0, 1], the quantile lies between the
   * samples at the floor and the ceiling of the fractional rank `(n - 1) * q`.
   */
  lemma QuantileBounds(sorted: seq<real>, q: real)
    requires SortedAsc(sorted) && |sorted| >= 1 && 0.0 <= q <= 1.0
    ensures var lo := Rank(|sorted|, q).Floor; var hi := Ceil(Rank(|sorted|, q));
      && 0 <= lo <= hi < |sorted| && hi <= lo + 1
      && sorted[lo] <= Quantile(sorted, q) <= sorted[hi]
  {
    RankRange(|sorted|, q);
    InterpolateBounds(sorted, Rank(|sorted|, q));
  }

  /** Every quantile of an ascending list, for q in [0, 1], lies between its minimum and maximum. */
  lemma QuantileWithinRange(sorted: seq<real>, q: real)
    requires SortedAsc(sorted) && |sorted| >= 1 && 0.0 <= q <= 1.0
    ensures sorted[0] <= Quantile(sorted, q) <= sorted[|sorted| - 1]
  {
    QuantileBounds(sorted, q);
  }

  /** q = 0 yields the minimum and q = 1 the maximum. */
  lemma QuantileEnds(sorted: seq<real>)
    requires |sorted| >= 1
    ensures Quantile(sorted, 0.0) == sorted[0]
    ensures Quantile(sorted, 1.0) == sorted[|sorted| - 1]
  {
    assert Rank(|sorted|, 0.0) == 0.0;
    assert Rank(|sorted|, 1.0) == (|sorted| - 1) as real;
  }

  /** The quantile of an ascending list is non-decreasing in q. */
  lemma QuantileMonotone(sorted: seq<real>, q1: real, q2: real)
    requires SortedAsc(sorted) && 0.0 <= q1 <= q2 <= 1.0
    ensures Quantile(sorted, q1) <= Quantile(sorted, q2)
  {
    if |sorted| >= 2 {
      RankRange(|sorted|, q1);
      RankRange(|sorted|, q2);
      RankMonotone(|sorted|, q1, q2);
      InterpolateMonotone(sorted, Rank(|sorted|, q1), Rank(|sorted|, q2));
    }
  }

  /** Interpolation between neighbours: p75 of [100, 200, 300] is 250. */
  lemma QuantileExample()
    ensures Quantile([100.0, 200.0, 300.0], 0.75) == 250.0
  {
    assert Rank(3, 0.75) == 1.5;
    assert (1.5).Floor == 1;
  }

  function Pow10(k: nat): (r: nat)
    ensures r >= 1
  {
    if k == 0 then 1 else 10 * Pow10(k - 1)
  }

  /** The whole number of units nearest to a non-negative y, halves rounding up. */
  function NearestUnits(y: real): int {
    (y + 0.5).Floor
  }

  /** A non-negative value rounded at scale p (a power of ten). */
  function RoundAt(x: real, p: real): real
    requires p > 0.0
  {
    NearestUnits(x * p) as real / p
  }

  /**
   * `Number(x.toFixed(k))` on an exact value: the nearest multiple of 10^-k,
   * ties away from zero.
   */
  function Round(x: real, k: nat): real {
    var p := Pow10(k) as real;
    if x >= 0.0 then RoundAt(x, p) else -RoundAt(-x, p)
  }

  lemma DivMono(a: real, b: real, p: real)
    requires a <= b && 0.0 < p
    ensures a / p <= b / p
  {
  }

  lemma DivShift(x: real, p: real, d: real)
    requires 0.0 < p
    ensures (x * p + d) / p == x + d / p
  {
  }

  lemma RoundAtError(x: real, p: real)
    requires x >= 0.0 && p > 0.0
    ensures x - 0.5 / p <= RoundAt(x, p) <= x + 0.5 / p
    ensures RoundAt(x, p) >= 0.0
  {
    var y := x * p;
    MulMono(0.0, x, p);
    var f := NearestUnits(y) as real;
    assert y - 0.5 <= f <= y + 0.5;
    DivMono(y - 0.5, f, p);
    DivMono(f, y + 0.5, p);
    DivMono(0.0, f, p);
    DivShift(x, p, -0.5);
    DivShift(x, p, 0.5);
  }

  lemma RoundAtMonotone(x: real, y: real, p: real)
    requires 0.0 <= x <= y && p > 0.0
    ensures RoundAt(x, p) <= RoundAt(y, p)
  {
    MulMono(x, y, p);
    assert NearestUnits(x * p) <= NearestUnits(y * p);
    DivMono(NearestUnits(x * p) as real, NearestUnits(y * p) as real, p);
  }

  /** Rounding to k decimals moves a value by at most half a unit in the k-th place, and keeps its sign. */
  lemma RoundError(x: real, k: nat)
    ensures var p := Pow10(k) as real;
      x - 0.5 / p <= Round(x, k) <= x + 0.5 / p
    ensures x >= 0.0 ==> Round(x, k) >= 0.0
    ensures x <= 0.0 ==> Round(x, k) <= 0.0
  {
    var p := Pow10(k) as real;
    if x >= 0.0 {
      RoundAtError(x, p);
    } else {
      RoundAtError(-x, p);
    }
  }

  /** Rounding preserves order (not strictly). */
  lemma RoundMonotone(x: real, y: real, k: nat)
    requires x <= y
    ensures Round(x, k) <= Round(y, k)
  {
    var p := Pow10(k) as real;
    if 0.0 <= x {
      RoundAtMonotone(x, y, p);
    } else if y < 0.0 {
      RoundAtMonotone(-y, -x, p);
    } else {
      RoundAtError(-x, p);
      RoundAtError(y, p);
    }
  }

  /** The p75 / p90 / p99 triple of one window's samples. */
  datatype Percentiles = Percentiles(p75: real, p90: real, p99: real)

  /**
   * `percentile3`: the 0.75, 0.9 and 0.99 quantiles of the samples, each
   * rounded to 4 decimals.
   */
  function Percentile3(values: seq<real>): (r: Percentiles)
    ensures r.p75 <= r.p90 <= r.p99
    ensures |values| == 0 ==> r == Percentiles(0.0, 0.0, 0.0)
    ensures (forall v :: v in values ==> v >= 0.0) ==> r.p75 >= 0.0
    ensures -0.00005 <= r.p75 - Quantile(Sort(values), 0.75) <= 0.00005
    ensures -0.00005 <= r.p90 - Quantile(Sort(values), 0.9) <= 0.00005
    ensures -0.00005 <= r.p99 - Quantile(Sort(values), 0.99) <= 0.00005
  {
    var sorted := Sort(values);
    Percentile3Order(sorted);
    SortKeepsLowerBound(values, 0.0);
    RoundToFour(Quantile(sorted, 0.75));
    RoundToFour(Quantile(sorted, 0.9));
    RoundToFour(Quantile(sorted, 0.99));
    Percentiles(
      Round(Quantile(sorted, 0.75), 4),
      Round(Quantile(sorted, 0.9), 4),
      Round(Quantile(sorted, 0.99), 4))
  }

  /** Rounding to 4 decimals moves a value by at most 0.00005. */
  lemma RoundToFour(x: real)
    ensures -0.00005 <= Round(x, 4) - x <= 0.00005
  {
    assert Pow10(4) == 10000 by {
      assert Pow10(1) == 10;
      assert Pow10(2) == 100;
      assert Pow10(3) == 1000;
    }
    RoundError(x, 4);
  }

  /** Rounding to 2 decimals moves a value by at most 0.005. */
  lemma RoundToTwo(x: real)
    ensures -0.005 <= Round(x, 2) - x <= 0.005
  {
    assert Pow10(2) == 100 by {
      assert Pow10(1) == 10;
    }
    RoundError(x, 2);
  }

  lemma Percentile3Order(sorted: seq<real>)
    requires SortedAsc(sorted)
    ensures Round(Quantile(sorted, 0.75), 4) <= Round(Quantile(sorted, 0.9), 4)
              <= Round(Quantile(sorted, 0.99), 4)
    ensures (forall i :: 0 <= i < |sorted| ==> sorted[i] >= 0.0) ==>
              Round(Quantile(sorted, 0.75), 4) >= 0.0
  {
    QuantileMonotone(sorted, 0.75, 0.9);
    QuantileMonotone(sorted, 0.9, 0.99);
    RoundMonotone(Quantile(sorted, 0.75), Quantile(sorted, 0.9), 4);
    RoundMonotone(Quantile(sorted, 0.9), Quantile(sorted, 0.99), 4);
    if |sorted| > 0 {
      QuantileWithinRange(sorted, 0.75);
    }
    RoundError(Quantile(sorted, 0.75), 4);
  }
}
