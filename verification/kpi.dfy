/**
 * The headline figures of the overview: request volume, error rate and
 * latency percentiles over a range, their percentage change against the
 * preceding period of equal length, and the assembled overview.
 */
module Kpi {
  import opened Optional
  import opened Js
  import opened Quantiles
  import opened Windows
  import opened Keyed
  import opened Events
  import opened Aggregation
  import opened Ranking

  datatype DashboardKpi = DashboardKpi(
    requests: nat,
    errorRate: real,
    p75Latency: real,
    p95Latency: real,
    p99Latency: real)

  /** A latency percentile of the range: the quantile of the sorted samples, rounded to 2 decimals. */
  function Latency(durations: seq<real>, q: real): (r: real)
    ensures -0.005 <= r - Quantile(Sort(durations), q) <= 0.005
  {
    RoundToTwo(Quantile(Sort(durations), q));
    Round(Quantile(Sort(durations), q), 2)
  }

  /**
   * `buildDashboardKpis(stats, globalDurations)`: the summed request count,
   * errors per request (0 without requests), and the p75/p95/p99 latency.
   */
  function BuildDashboardKpis(stats: seq<WindowStats>, globalDurations: seq<real>): (k: DashboardKpi)
    ensures k.requests == SumRequests(stats)
    ensures k.requests == 0 ==> k.errorRate == 0.0
    ensures k.requests > 0 ==> k.errorRate == SumErrors(stats) as real / k.requests as real
    ensures k.p75Latency <= k.p95Latency
    ensures k.p95Latency <= k.p99Latency
    ensures k.p95Latency == P95(globalDurations)
    ensures -0.005 <= k.p75Latency - Quantile(Sort(globalDurations), 0.75) <= 0.005
    ensures -0.005 <= k.p99Latency - Quantile(Sort(globalDurations), 0.99) <= 0.005
  {
    LatencyOrder(globalDurations, 0.75, 0.95);
    LatencyOrder(globalDurations, 0.95, 0.99);
    DashboardKpi(
      SumRequests(stats),
      ErrorRate(SumErrors(stats), SumRequests(stats)),
      Latency(globalDurations, 0.75),
      Latency(globalDurations, 0.95),
      Latency(globalDurations, 0.99))
  }

  /** `totalRequests ? totalErrors / totalRequests : 0`. */
  function ErrorRate(errors: nat, requests: nat): (r: real)
    ensures requests == 0 ==> r == 0.0
    ensures requests > 0 ==> r * requests as real == errors as real
  {
    if requests > 0 then errors as real / requests as real else 0.0
  }

  lemma LatencyOrder(durations: seq<real>, q1: real, q2: real)
    requires 0.0 <= q1 <= q2 <= 1.0
    ensures Latency(durations, q1) <= Latency(durations, q2)
  {
    var sorted := Sort(durations);
    QuantileMonotone(sorted, q1, q2);
    RoundMonotone(Quantile(sorted, q1), Quantile(sorted, q2), 2);
  }

  lemma {:induction false} RateAtMostOne(e: nat, n: nat)
    requires 0 < n && e <= n
    ensures 0.0 <= e as real / n as real <= 1.0
  {
    DivMono(e as real, n as real, n as real);
    DivMono(0.0, e as real, n as real);
    assert n as real / n as real == 1.0;
  }

  /** When no bucket counts more errors than requests, the error rate is a fraction in [0, 1]. */
  lemma ErrorRateIsFraction(stats: seq<WindowStats>, globalDurations: seq<real>)
    requires forall i :: 0 <= i < |stats| ==> BucketOk(stats[i])
    ensures 0.0 <= BuildDashboardKpis(stats, globalDurations).errorRate
    ensures BuildDashboardKpis(stats, globalDurations).errorRate <= 1.0
  {
    ErrorsWithinRequests(stats);
    if SumRequests(stats) > 0 {
      RateAtMostOne(SumErrors(stats), SumRequests(stats));
    }
  }

  /** Non-negative samples give non-negative latencies. */
  lemma LatenciesNonNegative(stats: seq<WindowStats>, globalDurations: seq<real>)
    requires NonNeg(globalDurations)
    ensures BuildDashboardKpis(stats, globalDurations).p75Latency >= 0.0
  {
    var sorted := Sort(globalDurations);
    SortKeepsLowerBound(globalDurations, 0.0);
    if |sorted| > 0 {
      QuantileWithinRange(sorted, 0.75);
    }
    RoundError(Quantile(sorted, 0.75), 2);
  }

  // ------------------------------------------------------------- trends

  /**
   * `calcTrendPercent(current, previous, precision)`: the relative change in
   * percent, rounded to `precision` decimals; from 0 to 0 is 0% and from 0
   * to anything else is reported as 100%.
   */
  function CalcTrendPercent(current: real, previous: real, precision: nat): (r: real)
    ensures previous == 0.0 ==> r == (if current == 0.0 then 0.0 else 100.0)
    ensures previous != 0.0 ==>
      var exact := (current - previous) / previous * 100.0;
      exact - 0.5 / Pow10(precision) as real <= r <= exact + 0.5 / Pow10(precision) as real
  {
    if previous == 0.0 then (if current == 0.0 then 0.0 else 100.0)
    else
      RoundError((current - previous) / previous * 100.0, precision);
      Round((current - previous) / previous * 100.0, precision)
  }

  lemma ChangeSign(current: real, previous: real)
    requires previous > 0.0
    ensures current >= previous ==> (current - previous) / previous * 100.0 >= 0.0
    ensures current <= previous ==> (current - previous) / previous * 100.0 <= 0.0
  {
    if current >= previous {
      DivMono(0.0, current - previous, previous);
    } else {
      DivMono(current - previous, 0.0, previous);
    }
  }

  /** Against a positive previous value, a reported rise means a real rise and a reported fall a real fall. */
  lemma TrendSign(current: real, previous: real, precision: nat)
    requires previous > 0.0
    ensures CalcTrendPercent(current, previous, precision) > 0.0 ==> current > previous
    ensures CalcTrendPercent(current, previous, precision) < 0.0 ==> current < previous
  {
    ChangeSign(current, previous);
    RoundError((current - previous) / previous * 100.0, precision);
  }

  /** No change is a 0% trend. */
  lemma TrendOfUnchanged(x: real, precision: nat)
    ensures CalcTrendPercent(x, x, precision) == 0.0
  {
    if x != 0.0 {
      assert (x - x) / x * 100.0 == 0.0;
      RoundError(0.0, precision);
    }
  }

  lemma TrendExamples()
    ensures CalcTrendPercent(5.0, 0.0, 2) == 100.0
    ensures CalcTrendPercent(0.0, 0.0, 2) == 0.0
    ensures CalcTrendPercent(150.0, 100.0, 2) == 50.0
  {
    assert (150.0 - 100.0) / 100.0 * 100.0 == 50.0;
    assert Pow10(2) == 100;
    assert NearestUnits(50.0 * 100.0) == 5000;
  }

  datatype DashboardKpiTrends = DashboardKpiTrends(
    requests: real,
    errorRate: real,
    p75Latency: real,
    p95Latency: real,
    p99Latency: real)

  /**
   * `t` reports the change from `previous` to `current`: 0% from 0 to 0,
   * 100% from 0 to anything else, and otherwise the relative change in
   * percent within the 0.005 of rounding to 2 decimals.
   */
  predicate IsTrend(t: real, current: real, previous: real) {
    && (previous == 0.0 ==> t == (if current == 0.0 then 0.0 else 100.0))
    && (previous != 0.0 ==>
          var exact := (current - previous) / previous * 100.0;
          -0.005 <= t - exact <= 0.005)
  }

  /** `buildKpiTrends(current, previous)`: the trend of each figure, to 2 decimals. */
  function BuildKpiTrends(current: DashboardKpi, previous: DashboardKpi): (t: DashboardKpiTrends)
    ensures IsTrend(t.requests, current.requests as real, previous.requests as real)
    ensures IsTrend(t.errorRate, current.errorRate, previous.errorRate)
    ensures IsTrend(t.p75Latency, current.p75Latency, previous.p75Latency)
    ensures IsTrend(t.p95Latency, current.p95Latency, previous.p95Latency)
    ensures IsTrend(t.p99Latency, current.p99Latency, previous.p99Latency)
  {
    assert Pow10(2) == 100 by {
      assert Pow10(1) == 10;
    }
    DashboardKpiTrends(
      CalcTrendPercent(current.requests as real, previous.requests as real, 2),
      CalcTrendPercent(current.errorRate, previous.errorRate, 2),
      CalcTrendPercent(current.p75Latency, previous.p75Latency, 2),
      CalcTrendPercent(current.p95Latency, previous.p95Latency, 2),
      CalcTrendPercent(current.p99Latency, previous.p99Latency, 2))
  }

  /** Two identical periods show no trend in any figure. */
  lemma TrendsOfUnchanged(k: DashboardKpi)
    ensures BuildKpiTrends(k, k) == DashboardKpiTrends(0.0, 0.0, 0.0, 0.0, 0.0)
  {
    TrendOfUnchanged(k.requests as real, 2);
    TrendOfUnchanged(k.errorRate, 2);
    TrendOfUnchanged(k.p75Latency, 2);
    TrendOfUnchanged(k.p95Latency, 2);
    TrendOfUnchanged(k.p99Latency, 2);
  }

  // ----------------------------------------------------------- overview

  /**
   * The comparison range: the same length as `[from, to]` (at least 1 ms),
   * ending where the current range starts.
   */
  function PreviousPeriod(from: int, to: int): (r: (int, int))
    ensures r.1 == from
    ensures r.1 - r.0 >= 1
    ensures to > from ==> r.1 - r.0 == to - from
    ensures to <= from ==> r.0 == from - 1
    ensures from < to ==> ResolveWindowGranularity(r.0, r.1) == ResolveWindowGranularity(from, to)
  {
    var durationMs := if to - from > 1 then to - from else 1;
    (from - durationMs, from)
  }

  /** The limit the overview applies to each top-N list. */
  const OverviewLimit: nat := 10

  datatype Overview = Overview(
    kpis: DashboardKpi,
    kpiTrends: DashboardKpiTrends,
    topApiRoutes: seq<RouteMetric>,
    topSlowRequests: seq<SlowRouteMetric>,
    topSlowResources: seq<SlowResourceMetric>,
    topPageRoutes: seq<RouteMetric>)

  /**
   * `getDashboardOverview` once its rows are fetched: the current range and
   * the previous period aggregated alike, KPIs and their trends, and the
   * four top-10 lists of the current range. End to end: the request count
   * is the number of request rows that land in a window, and its trend
   * compares it with the same count over the previous period.
   */
  function DashboardOverview(host: Host, rows: seq<EventRow>, previousRows: seq<EventRow>, from: int, to: int): (o: Overview)
    ensures o.kpis.requests == AssignedRequests(host, BuildWindows(host, from, to), rows)
    ensures 0.0 <= o.kpis.errorRate <= 1.0
    ensures o.kpis.p75Latency >= 0.0
    ensures o.kpis.p95Latency == P95(AggregateRows(host, rows, from, to).globalDurations)
    ensures var prev := PreviousPeriod(from, to);
      IsTrend(o.kpiTrends.requests, o.kpis.requests as real,
              AssignedRequests(host, BuildWindows(host, prev.0, prev.1), previousRows) as real)
    ensures |o.topApiRoutes| <= 10 && |o.topSlowRequests| <= 10
    ensures |o.topSlowResources| <= 10 && |o.topPageRoutes| <= 10
  {
    var a := AggregateRows(host, rows, from, to);
    var prev := PreviousPeriod(from, to);
    var p := AggregateRows(host, previousRows, prev.0, prev.1);
    AggregateRowsCounts(host, rows, from, to);
    AggregateRowsCounts(host, previousRows, prev.0, prev.1);
    ErrorRateIsFraction(a.stats, a.globalDurations);
    LatenciesNonNegative(a.stats, a.globalDurations);
    var kpis := BuildDashboardKpis(a.stats, a.globalDurations);
    var previousKpis := BuildDashboardKpis(p.stats, p.globalDurations);
    Overview(
      kpis,
      BuildKpiTrends(kpis, previousKpis),
      ToRouteMetrics(a.apiRoutes, OverviewLimit),
      ToSlowRouteMetrics(a.requestDurations, OverviewLimit),
      ToSlowResourceMetrics(a.resources, OverviewLimit),
      ToRouteMetrics(a.pageRoutes, OverviewLimit))
  }
}
