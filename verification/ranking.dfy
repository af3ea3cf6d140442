/**
 * Top-N reduction of the keyed counters: a stable descending sort, a prefix
 * cut, and the three list shapes the overview returns (route shares, slow
 * requests, slow resources).
 */
module Ranking {
  import opened Optional
  import opened Keyed
  import opened Quantiles
  import opened Aggregation

  /** Non-increasing by `key`. */
  predicate SortedDesc<T>(s: seq<T>, key: T -> real) {
    forall i, j :: 0 <= i < j < |s| ==> key(s[i]) >= key(s[j])
  }

  /** The elements of `s` whose key is `v`, in their order in `s`. */
  function WithKey<T>(s: seq<T>, key: T -> real, v: real): (r: seq<T>)
    ensures |r| <= |s|
  {
    if s == [] then []
    else (if key(s[0]) == v then [s[0]] else []) + WithKey(s[1..], key, v)
  }

  /** Insertion of `x` before the first element whose key does not exceed its own. */
  function InsertDesc<T>(x: T, s: seq<T>, key: T -> real): seq<T> {
    if s == [] || key(x) >= key(s[0]) then [x] + s else [s[0]] + InsertDesc(x, s[1..], key)
  }

  /**
   * `s.sort((a, b) => key(b) - key(a))`: a stable descending sort (the
   * language requires `Array.prototype.sort` to be stable).
   */
  function SortDesc<T>(s: seq<T>, key: T -> real): (r: seq<T>)
    ensures SortedDesc(r, key)
    ensures multiset(r) == multiset(s)
  {
    if s == [] then []
    else
      var rest := SortDesc(s[1..], key);
      InsertSortedDesc(s[0], rest, key);
      InsertDescPermutes(s[0], rest, key);
      assert s == [s[0]] + s[1..];
      InsertDesc(s[0], rest, key)
  }

  lemma {:induction false} InsertBelow<T>(x: T, s: seq<T>, key: T -> real, b: real)
    requires key(x) <= b && forall i :: 0 <= i < |s| ==> key(s[i]) <= b
    ensures forall i :: 0 <= i < |InsertDesc(x, s, key)| ==> key(InsertDesc(x, s, key)[i]) <= b
  {
    if s != [] && key(x) < key(s[0]) {
      InsertBelow(x, s[1..], key, b);
    }
  }

  lemma {:induction false} InsertSortedDesc<T>(x: T, s: seq<T>, key: T -> real)
    requires SortedDesc(s, key)
    ensures SortedDesc(InsertDesc(x, s, key), key)
  {
    if s != [] && key(x) < key(s[0]) {
      InsertSortedDesc(x, s[1..], key);
      InsertBelow(x, s[1..], key, key(s[0]));
    }
  }

  lemma {:induction false} InsertDescPermutes<T>(x: T, s: seq<T>, key: T -> real)
    ensures multiset(InsertDesc(x, s, key)) == multiset(s) + multiset{x}
  {
    if s != [] && key(x) < key(s[0]) {
      InsertDescPermutes(x, s[1..], key);
      assert s == [s[0]] + s[1..];
    }
  }

  lemma {:induction false} WithKeyAppend<T>(a: seq<T>, b: seq<T>, key: T -> real, v: real)
    ensures WithKey(a + b, key, v) == WithKey(a, key, v) + WithKey(b, key, v)
  {
    if a != [] {
      WithKeyAppend(a[1..], b, key, v);
      assert (a + b)[1..] == a[1..] + b;
      assert (a + b)[0] == a[0];
      var h := if key(a[0]) == v then [a[0]] else [];
      calc {
        WithKey(a + b, key, v);
        h + WithKey(a[1..] + b, key, v);
        h + (WithKey(a[1..], key, v) + WithKey(b, key, v));
        (h + WithKey(a[1..], key, v)) + WithKey(b, key, v);
      }
    } else {
      assert a + b == b;
    }
  }

  /** Insertion puts `x` ahead of every element with the same key. */
  lemma {:induction false} InsertDescStable<T>(x: T, s: seq<T>, key: T -> real, v: real)
    ensures WithKey(InsertDesc(x, s, key), key, v)
      == (if key(x) == v then [x] else []) + WithKey(s, key, v)
  {
    if s == [] || key(x) >= key(s[0]) {
      WithKeyAppend([x], s, key, v);
    } else {
      InsertDescStable(x, s[1..], key, v);
      WithKeyAppend([s[0]], InsertDesc(x, s[1..], key), key, v);
      WithKeyAppend([s[0]], s[1..], key, v);
      assert s == [s[0]] + s[1..];
    }
  }

  /** The sort keeps elements of equal key in their input order. */
  lemma {:induction false} SortDescStable<T>(s: seq<T>, key: T -> real, v: real)
    ensures WithKey(SortDesc(s, key), key, v) == WithKey(s, key, v)
  {
    if s != [] {
      SortDescStable(s[1..], key, v);
      InsertDescStable(s[0], SortDesc(s[1..], key), key, v);
      WithKeyAppend([s[0]], s[1..], key, v);
      assert s == [s[0]] + s[1..];
    }
  }

  lemma SortDescLength<T>(s: seq<T>, key: T -> real)
    ensures |SortDesc(s, key)| == |s|
  {
    assert |multiset(SortDesc(s, key))| == |multiset(s)|;
  }

  /** `s.slice(0, n)`. */
  function Take<T>(s: seq<T>, n: nat): (r: seq<T>)
    ensures |r| == if n < |s| then n else |s|
    ensures r == s[..|r|]
  {
    if n < |s| then s[..n] else s
  }

  /** The first `n` by key are in order. */
  lemma TopSorted<T>(s: seq<T>, key: T -> real, n: nat)
    ensures SortedDesc(Take(SortDesc(s, key), n), key)
  {
  }

  /** The first `n` by key: every element left out ranks no higher than every element kept. */
  lemma TopN<T>(s: seq<T>, key: T -> real, n: nat)
    ensures multiset(Take(SortDesc(s, key), n)) <= multiset(s)
    ensures forall x, y :: x in Take(SortDesc(s, key), n) && y in multiset(s) - multiset(Take(SortDesc(s, key), n)) ==>
      key(x) >= key(y)
  {
    var sorted := SortDesc(s, key);
    var top := Take(sorted, n);
    var rest := sorted[|top|..];
    assert sorted == top + rest;
    assert multiset(s) == multiset(top) + multiset(rest);
    assert multiset(s) - multiset(top) == multiset(rest);
    forall x, y | x in top && y in multiset(rest) ensures key(x) >= key(y) {
      TopAboveRest(sorted, key, |top|, x, y);
    }
  }

  /** Among equal keys, the first `n` by key are the earliest ones of the input, in input order. */
  lemma TopStable<T>(s: seq<T>, key: T -> real, n: nat, v: real)
    ensures WithKey(Take(SortDesc(s, key), n), key, v) <= WithKey(s, key, v)
  {
    var sorted := SortDesc(s, key);
    var top := Take(sorted, n);
    assert sorted == top + sorted[|top|..];
    WithKeyAppend(top, sorted[|top|..], key, v);
    SortDescStable(s, key, v);
  }

  lemma TopAboveRest<T>(sorted: seq<T>, key: T -> real, k: nat, x: T, y: T)
    requires SortedDesc(sorted, key) && k <= |sorted|
    requires x in sorted[..k] && y in multiset(sorted[k..])
    ensures key(x) >= key(y)
  {
    var i :| 0 <= i < k && sorted[..k][i] == x;
    assert y in sorted[k..];
    var j :| 0 <= j < |sorted| - k && sorted[k..][j] == y;
    assert sorted[i] == x && sorted[k + j] == y;
  }

  /** Every element of the top `n` is an element of the input. */
  lemma TopMember<T>(s: seq<T>, key: T -> real, n: nat, x: T)
    requires x in Take(SortDesc(s, key), n)
    ensures x in s
  {
    var sorted := SortDesc(s, key);
    assert x in sorted;
    assert x in multiset(sorted);
  }

  // ----------------------------------------------------------- route shares

  /** One row of a top-routes list: a path and its share of the listed total, in percent. */
  datatype RouteMetric = RouteMetric(path: string, percentage: real)

  function CountKey(e: Entry<nat>): real {
    e.value as real
  }

  function SumCounts(es: seq<Entry<nat>>): nat {
    if es == [] then 0 else es[0].value + SumCounts(es[1..])
  }

  /** The exact share of `count` in `total`, in percent. */
  function Share(count: nat, total: nat): real
    requires total > 0
  {
    count as real / total as real * 100.0
  }

  /** The top `limit` routes by count. */
  function TopRoutes(counter: seq<Entry<nat>>, limit: nat): seq<Entry<nat>> {
    Take(SortDesc(counter, CountKey), limit)
  }

  /**
   * `toRouteMetrics(counter, limit)`: the top `limit` routes by count, each
   * with its share of the listed routes' total rounded to 2 decimals; an
   * empty list when that total is 0.
   */
  function ToRouteMetrics(counter: seq<Entry<nat>>, limit: nat): (r: seq<RouteMetric>)
    ensures |r| <= limit
    ensures r == [] <==> SumCounts(TopRoutes(counter, limit)) == 0
    ensures r != [] ==> |r| == |TopRoutes(counter, limit)|
    ensures forall i :: 0 <= i < |r| ==> r[i].path == TopRoutes(counter, limit)[i].key
    ensures forall i :: 0 <= i < |r| ==>
      r[i].percentage == Round(Share(TopRoutes(counter, limit)[i].value, SumCounts(TopRoutes(counter, limit))), 2)
  {
    var top := TopRoutes(counter, limit);
    var total := SumCounts(top);
    if total == 0 then []
    else seq(|top|, i requires 0 <= i < |top| => RouteMetric(top[i].key, Round(Share(top[i].value, total), 2)))
  }

  lemma {:induction false} SharesAdd(a: nat, b: nat, total: nat)
    requires total > 0
    ensures Share(a, total) + Share(b, total) == Share(a + b, total)
  {
    var t := total as real;
    assert a as real / t + b as real / t == (a + b) as real / t;
  }

  lemma ShareOfTotal(total: nat)
    requires total > 0
    ensures Share(total, total) == 100.0
  {
    var t := total as real;
    assert t / t == 1.0;
  }

  /** The exact shares of a list sum to its total's share. */
  function SumShares(es: seq<Entry<nat>>, total: nat): real
    requires total > 0
  {
    if es == [] then 0.0 else Share(es[0].value, total) + SumShares(es[1..], total)
  }

  lemma {:induction false} SumSharesIsShare(es: seq<Entry<nat>>, total: nat)
    requires total > 0
    ensures SumShares(es, total) == Share(SumCounts(es), total)
  {
    if es != [] {
      SumSharesIsShare(es[1..], total);
      SharesAdd(es[0].value, SumCounts(es[1..]), total);
    }
  }

  /** The sum of the listed percentages. */
  function SumPercentages(r: seq<RouteMetric>): real {
    if r == [] then 0.0 else r[0].percentage + SumPercentages(r[1..])
  }

  lemma {:induction false} RoundedSumNear(r: seq<RouteMetric>, es: seq<Entry<nat>>, total: nat)
    requires total > 0 && |r| == |es|
    requires forall i :: 0 <= i < |r| ==> r[i].percentage == Round(Share(es[i].value, total), 2)
    ensures SumShares(es, total) - 0.005 * |r| as real <= SumPercentages(r)
    ensures SumPercentages(r) <= SumShares(es, total) + 0.005 * |r| as real
  {
    if r != [] {
      RoundedSumNear(r[1..], es[1..], total);
      RoundError(Share(es[0].value, total), 2);
      assert Pow10(2) == 100;
    }
  }

  /**
   * The listed percentages are the shares of the listed routes: exact shares
   * add up to 100, so the rounded ones add up to 100 within 0.005 per route.
   */
  lemma RouteSharesSumTo100(counter: seq<Entry<nat>>, limit: nat)
    ensures var r := ToRouteMetrics(counter, limit);
      r != [] ==>
        && 100.0 - 0.005 * |r| as real <= SumPercentages(r)
        && SumPercentages(r) <= 100.0 + 0.005 * |r| as real
  {
    var r := ToRouteMetrics(counter, limit);
    var top := TopRoutes(counter, limit);
    var total := SumCounts(top);
    if r != [] {
      SumSharesIsShare(top, total);
      RoundedSumNear(r, top, total);
      ShareOfTotal(total);
    }
  }

  lemma ShareMonotone(a: nat, b: nat, total: nat)
    requires total > 0 && a <= b
    ensures Share(a, total) <= Share(b, total)
  {
    DivMono(a as real, b as real, total as real);
  }

  /** The listed percentages never increase down the list. */
  lemma RouteSharesDescending(counter: seq<Entry<nat>>, limit: nat)
    ensures var r := ToRouteMetrics(counter, limit);
      forall i, j :: 0 <= i < j < |r| ==> r[i].percentage >= r[j].percentage
  {
    var r := ToRouteMetrics(counter, limit);
    var top := TopRoutes(counter, limit);
    TopSorted(counter, CountKey, limit);
    forall i, j | 0 <= i < j < |r| ensures r[i].percentage >= r[j].percentage {
      assert CountKey(top[i]) >= CountKey(top[j]);
      ShareMonotone(top[j].value, top[i].value, SumCounts(top));
      RoundMonotone(Share(top[j].value, SumCounts(top)), Share(top[i].value, SumCounts(top)), 2);
    }
  }

  /** A counter whose every count is positive lists a route whenever it has one and the limit allows one. */
  lemma RouteMetricsNonEmpty(counter: seq<Entry<nat>>, limit: nat)
    requires forall i :: 0 <= i < |counter| ==> counter[i].value > 0
    requires |counter| > 0 && limit > 0
    ensures ToRouteMetrics(counter, limit) != []
  {
    var sorted := SortDesc(counter, CountKey);
    SortDescLength(counter, CountKey);
    assert sorted[0] in multiset(counter);
    var top := TopRoutes(counter, limit);
    assert top[0] == sorted[0];
    assert top == [top[0]] + top[1..];
  }

  // --------------------------------------------------------- slow requests

  /** One row of a slow-requests list. */
  datatype SlowRouteMetric = SlowRouteMetric(path: string, avgDurationMs: real, requestCount: nat)

  /** The p95 of a sample list, rounded to 2 decimals: the figure the lists rank by. */
  function P95(durations: seq<real>): (r: real)
    ensures -0.005 <= r - Quantile(Sort(durations), 0.95) <= 0.005
  {
    RoundToTwo(Quantile(Sort(durations), 0.95));
    Round(Quantile(Sort(durations), 0.95), 2)
  }

  function SlowRouteKey(m: SlowRouteMetric): real {
    m.avgDurationMs
  }

  function ToSlowRoute(e: Entry<seq<real>>): SlowRouteMetric {
    SlowRouteMetric(e.key, P95(e.value), |e.value|)
  }

  function SlowRoutes(counter: seq<Entry<seq<real>>>): (r: seq<SlowRouteMetric>)
    ensures |r| == |counter|
    ensures forall i :: 0 <= i < |counter| ==> r[i] == ToSlowRoute(counter[i])
  {
    seq(|counter|, i requires 0 <= i < |counter| => ToSlowRoute(counter[i]))
  }

  /**
   * `toSlowRouteMetrics(counter, limit)`: every key with its p95 (rounded to
   * 2 decimals, reported as the average) and sample count, the `limit`
   * slowest first.
   */
  function ToSlowRouteMetrics(counter: seq<Entry<seq<real>>>, limit: nat): (r: seq<SlowRouteMetric>)
    ensures |r| <= limit
    ensures |r| == if limit < |counter| then limit else |counter|
    ensures multiset(r) <= multiset(SlowRoutes(counter))
    ensures SortedDesc(r, SlowRouteKey)
  {
    SortDescLength(SlowRoutes(counter), SlowRouteKey);
    TopN(SlowRoutes(counter), SlowRouteKey, limit);
    TopSorted(SlowRoutes(counter), SlowRouteKey, limit);
    Take(SortDesc(SlowRoutes(counter), SlowRouteKey), limit)
  }

  /** A p95 of non-negative samples is non-negative. */
  lemma P95NonNegative(durations: seq<real>)
    requires forall j :: 0 <= j < |durations| ==> durations[j] >= 0.0
    ensures P95(durations) >= 0.0
  {
    var sorted := Sort(durations);
    SortKeepsLowerBound(durations, 0.0);
    if |sorted| > 0 {
      QuantileWithinRange(sorted, 0.95);
    }
    RoundError(Quantile(sorted, 0.95), 2);
  }

  /** Each listed route is one of the counter's keys, with that key's p95 and sample count. */
  lemma SlowRouteMetricsFromCounter(counter: seq<Entry<seq<real>>>, limit: nat)
    requires DistinctKeys(counter) && AllNonNegative(counter)
    ensures forall m :: m in ToSlowRouteMetrics(counter, limit) ==>
      && Lookup(counter, m.path).Some?
      && m.avgDurationMs == P95(Lookup(counter, m.path).value)
      && m.requestCount == |Lookup(counter, m.path).value|
      && m.avgDurationMs >= 0.0
  {
    var all := SlowRoutes(counter);
    forall m | m in ToSlowRouteMetrics(counter, limit)
      ensures Lookup(counter, m.path).Some?
      ensures m.avgDurationMs == P95(Lookup(counter, m.path).value)
      ensures m.requestCount == |Lookup(counter, m.path).value|
      ensures m.avgDurationMs >= 0.0
    {
      TopMember(all, SlowRouteKey, limit, m);
      var i :| 0 <= i < |all| && all[i] == m;
      LookupAt(counter, i);
      P95NonNegative(counter[i].value);
    }
  }

  /** The slow-request list runs slowest first, and no route left out is slower than one listed. */
  lemma SlowRouteMetricsRanked(counter: seq<Entry<seq<real>>>, limit: nat)
    ensures SortedDesc(ToSlowRouteMetrics(counter, limit), SlowRouteKey)
    ensures multiset(ToSlowRouteMetrics(counter, limit)) <= multiset(SlowRoutes(counter))
    ensures forall v :: WithKey(ToSlowRouteMetrics(counter, limit), SlowRouteKey, v) <= WithKey(SlowRoutes(counter), SlowRouteKey, v)
    ensures forall x, y ::
      x in ToSlowRouteMetrics(counter, limit)
      && y in multiset(SlowRoutes(counter)) - multiset(ToSlowRouteMetrics(counter, limit)) ==>
        SlowRouteKey(x) >= SlowRouteKey(y)
  {
    var all := SlowRoutes(counter);
    assert ToSlowRouteMetrics(counter, limit) == Take(SortDesc(all, SlowRouteKey), limit);
    TopSorted(all, SlowRouteKey, limit);
    TopN(all, SlowRouteKey, limit);
    forall v ensures WithKey(ToSlowRouteMetrics(counter, limit), SlowRouteKey, v) <= WithKey(all, SlowRouteKey, v) {
      TopStable(all, SlowRouteKey, limit, v);
    }
  }

  // -------------------------------------------------------- slow resources

  /** One row of a slow-resources list. */
  datatype SlowResourceMetric = SlowResourceMetric(name: string, initiatorType: string, avgDurationMs: real, sampleCount: nat)

  function SlowResourceKey(m: SlowResourceMetric): real {
    m.avgDurationMs
  }

  function ToSlowResource(e: Entry<ResourceStats>): SlowResourceMetric {
    SlowResourceMetric(e.value.name, e.value.initiatorType, P95(e.value.durations), |e.value.durations|)
  }

  function SlowResources(counter: seq<Entry<ResourceStats>>): (r: seq<SlowResourceMetric>)
    ensures |r| == |counter|
    ensures forall i :: 0 <= i < |counter| ==> r[i] == ToSlowResource(counter[i])
  {
    seq(|counter|, i requires 0 <= i < |counter| => ToSlowResource(counter[i]))
  }

  /** `toSlowResourceMetrics(counter, limit)`: the resource counterpart of `ToSlowRouteMetrics`. */
  function ToSlowResourceMetrics(counter: seq<Entry<ResourceStats>>, limit: nat): (r: seq<SlowResourceMetric>)
    ensures |r| <= limit
    ensures |r| == if limit < |counter| then limit else |counter|
    ensures multiset(r) <= multiset(SlowResources(counter))
    ensures SortedDesc(r, SlowResourceKey)
  {
    SortDescLength(SlowResources(counter), SlowResourceKey);
    TopN(SlowResources(counter), SlowResourceKey, limit);
    TopSorted(SlowResources(counter), SlowResourceKey, limit);
    Take(SortDesc(SlowResources(counter), SlowResourceKey), limit)
  }

  /** Each listed resource is one of the counter's entries, with its first-seen name and type and its samples' p95 and count. */
  lemma SlowResourceMetricsFromCounter(counter: seq<Entry<ResourceStats>>, limit: nat)
    requires ResourcesNonNegative(counter)
    ensures forall m :: m in ToSlowResourceMetrics(counter, limit) ==>
      (exists i :: 0 <= i < |counter| && m == ToSlowResource(counter[i])) && m.avgDurationMs >= 0.0
  {
    var all := SlowResources(counter);
    forall m | m in ToSlowResourceMetrics(counter, limit)
      ensures exists i :: 0 <= i < |counter| && m == ToSlowResource(counter[i])
      ensures m.avgDurationMs >= 0.0
    {
      TopMember(all, SlowResourceKey, limit, m);
      var i :| 0 <= i < |all| && all[i] == m;
      P95NonNegative(counter[i].value.durations);
    }
  }

  /** The slow-resource list runs slowest first, and no resource left out is slower than one listed. */
  lemma SlowResourceMetricsRanked(counter: seq<Entry<ResourceStats>>, limit: nat)
    ensures SortedDesc(ToSlowResourceMetrics(counter, limit), SlowResourceKey)
    ensures multiset(ToSlowResourceMetrics(counter, limit)) <= multiset(SlowResources(counter))
    ensures forall v :: WithKey(ToSlowResourceMetrics(counter, limit), SlowResourceKey, v) <= WithKey(SlowResources(counter), SlowResourceKey, v)
    ensures forall x, y ::
      x in ToSlowResourceMetrics(counter, limit)
      && y in multiset(SlowResources(counter)) - multiset(ToSlowResourceMetrics(counter, limit)) ==>
        SlowResourceKey(x) >= SlowResourceKey(y)
  {
    var all := SlowResources(counter);
    assert ToSlowResourceMetrics(counter, limit) == Take(SortDesc(all, SlowResourceKey), limit);
    TopSorted(all, SlowResourceKey, limit);
    TopN(all, SlowResourceKey, limit);
    forall v ensures WithKey(ToSlowResourceMetrics(counter, limit), SlowResourceKey, v) <= WithKey(all, SlowResourceKey, v) {
      TopStable(all, SlowResourceKey, limit, v);
    }
  }
}
