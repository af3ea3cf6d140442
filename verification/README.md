# Monitor dashboard aggregation engine, in Dafny

This project models the part of the monitor server that turns stored telemetry
event rows into dashboard figures, and proves properties of that model:

- **Coercion of untyped row properties.** Numbers, URL paths, HTTP methods and
  resource-timing lists are read from an untyped `props` bag. A malformed value
  becomes "absent" and is never an error.
- **Linear-interpolation quantiles.** The model covers the quantile and the
  p75/p90/p99 triple, both rounded as `Number(x.toFixed(k))` rounds.
- **Time windows.** Hourly or daily granularity is chosen by the length of the
  range. Windows are aligned by flooring to the step. Rows are assigned to
  windows by a backward scan.
- **The aggregation pass.** Every row is classified into a typed sample of its
  event kind: request, page-view, paint, resource, listening or other. The
  sample is then folded into its window's bucket and into the range-wide route
  and resource counters.
- **Rankings.** There are three top-N rankings. API and page routes are ranked
  by their share of the top-N total. Requests and resources are ranked by their
  95th-percentile duration.
- **KPIs.** The request count, error rate and latency percentiles of a range
  are computed, together with their percentage trend against the preceding
  period of equal length.
- **Ingestion.** The ingestion side has three parts:
  - a structural check of collect payloads;
  - canonicalisation of error types;
  - the choice between the event sink and the error sink.

Modules, one concept each, in dependency order:

| file | module | contents |
|---|---|---|
| optional.dfy | `Optional` | `Option`, `Result` |
| js.dfy | `Js` | untyped JavaScript values, truthiness, `trim`, case mapping, the host services |
| coercion.dfy | `Coercion` | `toNumber`, `extractPath`, `toHttpMethod`, `toResourceSamples` |
| quantile.dfy | `Quantiles` | insertion sort, `quantile`, `toFixed` rounding, `percentile3` |
| windows.dfy | `Windows` | granularity, alignment, `buildWindows`, `getWindowIndex` |
| keyed.dfy | `Keyed` | `Record<string, V>` as an insertion-ordered entry list, counters and sample lists |
| events.dfy | `Events` | the row classifier |
| aggregation.dfy | `Aggregation` | `buildEmptyStats`, `aggregateRows` as a left fold, its invariants and counts |
| ranking.dfy | `Ranking` | stable descending sort, top-N, the three metric lists |
| kpi.dfy | `Kpi` | `buildDashboardKpis`, `calcTrendPercent`, `buildKpiTrends`, the previous period, the overview |
| collect.dfy | `Collect` | `validateCollectPayload`, `normalizeErrorType`, `normalizeErrorPayload`, `handleCollect` |

The modelling choices are these:

- **Values.** Doubles are exact reals, with NaN and the infinities as separate
  values of `Js.Num`. `Number(x.toFixed(k))` is rounding half away from zero at
  `k` decimals.
- **Timestamps** are integer milliseconds.
- **Host services.** Some runtime services are passed in as the fields of a
  `Js.Host` value:
  - `Number(string)`;
  - `new URL(s).pathname`;
  - `Date` parsing;
  - `toISOString`;
  - the local offset from UTC.
- **Records.** JavaScript `Record`s are entry lists in first-insertion order
  with distinct keys. `Array.prototype.sort` with a comparator is a stable
  insertion sort.
- **The loop over rows** is `Aggregation.Fold`, a left fold over the row
  sequence. Every property of the pass is proved by induction over that fold.
- **No `from <= to` requirement.** The route layer rejects `from > to`, but the
  engine functions here do not require `from <= to`. They are total, as the
  source functions are. Properties that need a non-empty range say so in their
  own `requires`.
- **The previous period** is the range of the same length just before `from`.
  A zero-length range is widened to 1 ms (service.ts:402; `Kpi.PreviousPeriod`).

## Model

| member | source | states |
|---|---|---|
| Coercion.ToNumber | apps/monitor-server/src/modules/dashboard/service.ts:52-59 | a number is produced exactly for a finite number or a string that parses to a finite number, and it is that number |
| Coercion.ExtractPath | apps/monitor-server/src/modules/dashboard/service.ts:67-77 | no path for non-strings, blank strings and unparseable absolute URLs; an absolute URL gives the parser's pathname, or "/" when that is empty; a relative URL gives its prefix before the first `?`, or "/" when that prefix is empty; every path is non-empty |
| Coercion.QueryIgnored | apps/monitor-server/src/modules/dashboard/service.ts:73 | a relative path without `?` is its own path, and appending a query string to it does not change its path |
| Coercion.ToHttpMethod | apps/monitor-server/src/modules/dashboard/service.ts:83-87 | the method is "GET" for a non-string or blank value, and otherwise the trimmed input upper-cased: as long as it, with no lower-case letter, and equal to it once both are lower-cased |
| Coercion.ToHttpMethodIdempotent | apps/monitor-server/src/modules/dashboard/service.ts:83-87 | normalising a normalised method changes nothing |
| Coercion.LowerOfUpper | apps/monitor-server/src/modules/dashboard/service.ts:85 | upper-casing loses nothing that lower-casing distinguishes: lower-casing the upper-cased string gives the lower-cased string |
| Coercion.NormalizeInitiatorType | apps/monitor-server/src/modules/dashboard/service.ts:103-106 | "image" in any case becomes "img"; every other type is the lower-cased input |
| Coercion.ToResourceEntry | apps/monitor-server/src/modules/dashboard/service.ts:96-111 | an item is kept exactly when it is a truthy object whose duration coerces to a non-negative number; the kept entry carries that duration, the trimmed name or "[unknown]" when the name is not a non-blank string, and the normalised trimmed type (empty when not a string) |
| Coercion.ToResourceSamples | apps/monitor-server/src/modules/dashboard/service.ts:93-114 | a non-array yields nothing; an array yields exactly the present coercions of its items, in order, all with non-negative durations and normalised types |
| Coercion.KeptIsFiltered | apps/monitor-server/src/modules/dashboard/service.ts:96-113 | the push loop keeps exactly the items that coerce, in their order |
| Coercion.ResourceSamplesAppend | apps/monitor-server/src/modules/dashboard/service.ts:93-114 | the samples of two arrays joined are the samples of each, joined |
| Quantiles.Sort | apps/monitor-server/src/modules/dashboard/service.ts:137 | the sorted copy is ascending and a permutation of the input |
| Quantiles.Quantile | apps/monitor-server/src/modules/dashboard/service.ts:120-122 | 0 for no samples, the sample itself for one |
| Quantiles.QuantileBounds | apps/monitor-server/src/modules/dashboard/service.ts:120-131 | the quantile lies between the samples at the floor and the ceiling of `(n-1)q`, which are adjacent ranks |
| Quantiles.QuantileWithinRange | apps/monitor-server/src/modules/dashboard/service.ts:120-131 | the quantile lies between the minimum and the maximum |
| Quantiles.QuantileEnds | apps/monitor-server/src/modules/dashboard/service.ts:120-131 | q = 0 gives the minimum and q = 1 the maximum |
| Quantiles.QuantileMonotone | apps/monitor-server/src/modules/dashboard/service.ts:120-131 | the quantile does not decrease as q grows |
| Quantiles.QuantileExample | apps/monitor-server/src/modules/dashboard/service.ts:123-130 | the 0.75 quantile of 100, 200, 300 interpolates to 250 |
| Quantiles.RoundError | apps/monitor-server/src/modules/dashboard/service.ts:139-141 | rounding to k decimals moves a value by at most half a unit of the k-th decimal and keeps its sign |
| Quantiles.RoundToFour | apps/monitor-server/src/modules/dashboard/service.ts:139-141 | rounding to 4 decimals moves a value by at most 0.00005 |
| Quantiles.RoundToTwo | apps/monitor-server/src/modules/dashboard/service.ts:374-376 | rounding to 2 decimals moves a value by at most 0.005 |
| Quantiles.RoundMonotone | apps/monitor-server/src/modules/dashboard/service.ts:139-141 | rounding to k decimals preserves order |
| Quantiles.Percentile3 | apps/monitor-server/src/modules/dashboard/service.ts:136-143 | p75 ≤ p90 ≤ p99, all 0 without samples, p75 non-negative for non-negative samples, and each within 0.00005 of the exact 0.75, 0.9 and 0.99 quantile of the sorted samples |
| Windows.ResolveWindowGranularity | apps/monitor-server/src/modules/dashboard/service.ts:154-157 | daily windows exactly when the range is longer than 48 hours |
| Windows.StepMs | apps/monitor-server/src/modules/dashboard/service.ts:44-45 | a window is one hour or one day long |
| Windows.AlignDown | apps/monitor-server/src/modules/dashboard/service.ts:165-176 | the aligned start is at most the time and less than one step before it |
| Windows.AlignDownMonotone | apps/monitor-server/src/modules/dashboard/service.ts:165-176 | alignment preserves order |
| Windows.AlignDownAligned | apps/monitor-server/src/modules/dashboard/service.ts:165-176 | an aligned start, shifted to local time, is a whole number of steps |
| Windows.BuildWindows | apps/monitor-server/src/modules/dashboard/service.ts:162-186 | windows are non-empty when from ≤ to, exactly one step apart from the first start, the first start is on the local step grid, the first covers `from`, the last covers `to`, and each is labelled with the ISO form of its start |
| Windows.WindowIndex | apps/monitor-server/src/modules/dashboard/service.ts:192-199 | the index is the greatest window starting at or before t, or -1 when every window starts after t |
| Windows.GetWindowIndex | apps/monitor-server/src/modules/dashboard/service.ts:192-199 | the backward scan returns the greatest window starting at or before t, or -1 |
| Windows.WindowIndexArithmetic | apps/monitor-server/src/modules/dashboard/service.ts:162-199 | on built windows the scan equals the closed form: -1 before the first start, else the whole steps since it, capped at the last window |
| Windows.InRangeAssigned | apps/monitor-server/src/modules/dashboard/service.ts:162-199 | every time in [from, to] lands in a window that covers it |
| Windows.LateRowsInLastWindow | apps/monitor-server/src/modules/dashboard/service.ts:192-199 | a time past the end of the last window is still assigned to the last window |
| Keyed.Put | apps/monitor-server/src/modules/dashboard/service.ts:262-264 | assigning a key makes it map to the value, leaves every other key alone, and appends the key only when it is new |
| Keyed.LookupAt | apps/monitor-server/src/modules/dashboard/service.ts:336 | with distinct keys every entry is what its key looks up |
| Keyed.Increment | apps/monitor-server/src/modules/dashboard/service.ts:268 | `(counter[k] ?? 0) + 1`: the key's count grows by one, the total by one, nothing else changes |
| Keyed.PushSample | apps/monitor-server/src/modules/dashboard/service.ts:260-264 | the key's sample list gains the sample at its end, every other key is unchanged, the sample count grows by one, non-negativity is kept |
| Events.Classify | apps/monitor-server/src/modules/dashboard/service.ts:243-312 | each event name selects its sample kind; a request carries the path of its `url` and the method of its `method` property, keeps its duration exactly when non-negative, and is an error exactly when `ok === false` or its status is at least 400; a page view carries the path of its `url`; a resource row carries the resource samples of its `resources`; FCP and LCP are converted from ms to seconds and CLS is kept as it is, all only when non-negative |
| Events.ClassifyRequest | apps/monitor-server/src/modules/dashboard/service.ts:245-260 | the duration is kept exactly when non-negative, the error flag is set exactly when `ok === false` or the status is at least 400, the path is exactly `extractPath` of the `url` property (non-empty when present), and the method is exactly `toHttpMethod` of the `method` property (non-empty and upper-case) |
| Aggregation.BuildEmptyStats | apps/monitor-server/src/modules/dashboard/service.ts:204-214 | one bucket per window, labelled with the window's ISO start, every count zero and every list empty |
| Aggregation.PushResource | apps/monitor-server/src/modules/dashboard/service.ts:292-303 | the resource's key gains the duration and keeps the name and type it was first seen with, other keys are unchanged, the sample count grows by one |
| Aggregation.PushResources | apps/monitor-server/src/modules/dashboard/service.ts:291-305 | each key gains, in order, the durations of exactly the entries with that key; a key is added only when some entry has it, after the existing keys and in the order the entries first name it; an existing key keeps its name and type and a new one takes those of its first entry; one sample per entry; distinct keys and non-negative samples are kept |
| Aggregation.Record | apps/monitor-server/src/modules/dashboard/service.ts:242-312 | a sample changes exactly the bucket of its window, in the way its kind prescribes, and records itself in the range-wide counters; a counter gains a key only when a count or a duration is recorded under it, and then after its existing keys; a new resource key takes its first entry's name and type, an existing one keeps its own |
| Aggregation.RecordBucket | apps/monitor-server/src/modules/dashboard/service.ts:245-312 | a request adds one to the request count, one to the error count exactly when it failed, and its duration when it has one; a paint or listening sample appends its FCP, LCP and CLS values; a resource sample appends its durations; a page view or other sample leaves the bucket alone |
| Aggregation.RecordRoutes | apps/monitor-server/src/modules/dashboard/service.ts:245-305 | the global list gains the request duration; the request-key list gains it under `METHOD path`; the API counter and API list gain a count and the duration exactly for `/api` paths; the page counter gains a count exactly for a page view with a path; the resource counter gains each resource sample under its key; every other key is unchanged; a counter gains a key only when a count or a duration is recorded under it, and then after its existing keys; a new resource key takes its first entry's name and type, an existing one keeps its own |
| Aggregation.ResourcesAppendedStep | apps/monitor-server/src/modules/dashboard/service.ts:293-303 | the effect of a row's first resource entry followed by the effect of the rest is the effect of the whole row, for durations, key set, key order, and names and types |
| Aggregation.Assign | apps/monitor-server/src/modules/dashboard/service.ts:237-240 | no window exactly when the time does not parse or every window starts after it; otherwise a window starting at or before the time, with every later window starting after it |
| Aggregation.Step | apps/monitor-server/src/modules/dashboard/service.ts:236-313 | an unassigned row changes nothing; an assigned row changes only its window's bucket, as `RecordBucket` prescribes for its classified sample, and records the sample in the range-wide counters, adding a key only when a count or a duration is recorded under it, after the existing keys, with a new resource key taking its first entry's name and type |
| Aggregation.Fold | apps/monitor-server/src/modules/dashboard/service.ts:236-313 | the pass keeps the number of buckets and their labels |
| Aggregation.AggregateRows | apps/monitor-server/src/modules/dashboard/service.ts:225-316 | one bucket per window, labelled with its ISO start, and every invariant of the pass holds at the end: no bucket has more errors than requests, every sample is non-negative, the global durations are exactly the bucket durations, and the resource counter holds one sample per bucket resource sample |
| Aggregation.RoutesOk | apps/monitor-server/src/modules/dashboard/service.ts:245-305 | the range-wide counters stay consistent, the global durations gain exactly the sample's duration and the resource counter its resources |
| Aggregation.RecordWellFormed | apps/monitor-server/src/modules/dashboard/service.ts:242-312 | recording a sample keeps every invariant of the pass |
| Aggregation.FoldWellFormed | apps/monitor-server/src/modules/dashboard/service.ts:236-313 | the invariant holds after any number of rows |
| Aggregation.FoldCountsPerWindow | apps/monitor-server/src/modules/dashboard/service.ts:236-266 | a bucket's request and error counts grow by the request and failed-request rows assigned to its window |
| Aggregation.FoldCountsTotal | apps/monitor-server/src/modules/dashboard/service.ts:236-246 | the summed request count grows by the number of assigned request rows |
| Aggregation.FoldCountsApiRoutes | apps/monitor-server/src/modules/dashboard/service.ts:267-268 | the API route counter gains one count per assigned request to an `/api` path |
| Aggregation.FoldCountsPageViews | apps/monitor-server/src/modules/dashboard/service.ts:278-282 | the page route counter gains one count per assigned page view with a path |
| Aggregation.StepPerRoute | apps/monitor-server/src/modules/dashboard/service.ts:245-282 | one row adds one to the API count of its path exactly when it is an assigned request to an `/api` path, one to the page count of its path exactly when it is an assigned page view, and its duration to the global list exactly when it is an assigned request with a non-negative duration |
| Aggregation.FoldApiRoutesPerPath | apps/monitor-server/src/modules/dashboard/service.ts:267-268 | under each path, the API route counter gains the number of assigned requests to that `/api` path |
| Aggregation.FoldPageRoutesPerPath | apps/monitor-server/src/modules/dashboard/service.ts:278-280 | under each path, the page route counter gains the number of assigned page views of that path |
| Aggregation.FoldGlobalDurations | apps/monitor-server/src/modules/dashboard/service.ts:245-251 | the global duration list gains the non-negative durations of the assigned requests, in row order |
| Aggregation.FoldSkipsUnassigned | apps/monitor-server/src/modules/dashboard/service.ts:237-241 | rows without a parseable time or a window have no effect: folding only the assigned rows gives the same result |
| Aggregation.InRangeRowAssigned | apps/monitor-server/src/modules/dashboard/service.ts:237-241 | a row whose time parses into [from, to] is assigned to a window |
| Aggregation.AggregateRowsPerWindow | apps/monitor-server/src/modules/dashboard/service.ts:225-316 | one bucket per window, with the window's label and exactly the request and error counts of the rows assigned to it |
| Aggregation.AggregateRowsCounts | apps/monitor-server/src/modules/dashboard/service.ts:225-316 | the total request count is the number of assigned request rows; errors do not exceed requests; the route counters total the assigned API requests and page views and, path by path, count the assigned requests to and page views of that path; the global duration list is the non-negative durations of the assigned requests, in row order; under each key the slow-request, API-duration and resource counters hold exactly the durations the assigned rows file under that key, in row order |
| Aggregation.AggregateRowsPerRoute | apps/monitor-server/src/modules/dashboard/service.ts:267-280 | path by path, the API and page counters count exactly the assigned requests to and page views of that path |
| Aggregation.AggregateRowsDurations | apps/monitor-server/src/modules/dashboard/service.ts:225-316 | under each key, the slow-request counter holds the non-negative durations of the assigned requests with that `METHOD path`, the API-duration counter those of the assigned requests to that `/api` path, and the resource counter those of the assigned resource rows' entries with that key, each in row order |
| Aggregation.FoldRequestDurations | apps/monitor-server/src/modules/dashboard/service.ts:247-264 | under each `METHOD path` key, the slow-request counter gains the non-negative durations of the assigned requests filed under it, in row order |
| Aggregation.FoldApiDurations | apps/monitor-server/src/modules/dashboard/service.ts:267-273 | under each `/api` path, the API-duration counter gains the non-negative durations of the assigned requests to it, in row order |
| Aggregation.FoldResourceDurations | apps/monitor-server/src/modules/dashboard/service.ts:291-305 | under each resource key, the resource counter gains the durations of the assigned resource rows' entries with that key, in row and entry order |
| Ranking.SortDesc | apps/monitor-server/src/modules/dashboard/service.ts:323 | the sort by descending key gives a non-increasing sequence that is a permutation of its input |
| Ranking.SortDescStable | apps/monitor-server/src/modules/dashboard/service.ts:323 | entries with equal keys keep their original order |
| Ranking.TopN | apps/monitor-server/src/modules/dashboard/service.ts:323 | the top N are drawn from the input and none ranks below an entry left out |
| Ranking.TopStable | apps/monitor-server/src/modules/dashboard/service.ts:323 | among entries of equal key, the top N are the earliest of the input, in input order |
| Ranking.ToRouteMetrics | apps/monitor-server/src/modules/dashboard/service.ts:322-330 | at most `limit` routes; empty exactly when the top-N total is zero; otherwise the top-N routes in rank order, each with its count as a percentage of the top-N total, rounded to 2 decimals |
| Ranking.RouteSharesSumTo100 | apps/monitor-server/src/modules/dashboard/service.ts:322-330 | a non-empty result's percentages sum to 100 up to 0.005 per route |
| Ranking.RouteSharesDescending | apps/monitor-server/src/modules/dashboard/service.ts:322-330 | percentages are non-increasing |
| Ranking.RouteMetricsNonEmpty | apps/monitor-server/src/modules/dashboard/service.ts:322-330 | a counter with a positive count and a positive limit yields some route |
| Ranking.P95 | apps/monitor-server/src/modules/dashboard/service.ts:339-341 | the ranking figure lies within 0.005 of the exact 0.95 quantile of the sorted samples |
| Ranking.ToSlowRouteMetrics | apps/monitor-server/src/modules/dashboard/service.ts:335-345 | exactly min(limit, number of keys) entries, in non-increasing p95 order, each drawn from the per-key metrics with no entry repeated beyond its multiplicity there |
| Ranking.SlowRouteMetricsFromCounter | apps/monitor-server/src/modules/dashboard/service.ts:335-345 | every entry names a key of the counter, its figure is the rounded 0.95 quantile of that key's samples, non-negative, and its count is that key's sample count |
| Ranking.SlowRouteMetricsRanked | apps/monitor-server/src/modules/dashboard/service.ts:335-345 | entries are in non-increasing p95 order, form a sub-multiset of the per-key metrics, among equal p95 values keep the earliest entries in counter order, and none ranks below a key left out |
| Ranking.ToSlowResourceMetrics | apps/monitor-server/src/modules/dashboard/service.ts:350-364 | exactly min(limit, number of keys) entries, in non-increasing p95 order, each drawn from the per-resource metrics with no entry repeated beyond its multiplicity there |
| Ranking.SlowResourceMetricsFromCounter | apps/monitor-server/src/modules/dashboard/service.ts:350-364 | every entry is the summary of one key of the counter, with a non-negative p95 |
| Ranking.SlowResourceMetricsRanked | apps/monitor-server/src/modules/dashboard/service.ts:350-364 | entries are in non-increasing p95 order, form a sub-multiset of the per-resource metrics, among equal p95 values keep the earliest entries in counter order, and none ranks below a resource left out |
| Kpi.BuildDashboardKpis | apps/monitor-server/src/modules/dashboard/service.ts:366-378 | requests is the summed request count, the error rate is errors per request and 0 without requests, p75 ≤ p95 ≤ p99, p95 is the ranking figure of the durations, and p75 and p99 lie within 0.005 of the exact 0.75 and 0.99 quantiles of the sorted durations |
| Kpi.Latency | apps/monitor-server/src/modules/dashboard/service.ts:374-376 | a latency lies within 0.005 of the exact quantile of the sorted samples |
| Kpi.ErrorRate | apps/monitor-server/src/modules/dashboard/service.ts:373 | the rate times the request count gives the error count, and the rate is 0 without requests |
| Kpi.ErrorRateIsFraction | apps/monitor-server/src/modules/dashboard/service.ts:366-378 | with no bucket counting more errors than requests, the error rate lies in [0, 1] |
| Kpi.LatenciesNonNegative | apps/monitor-server/src/modules/dashboard/service.ts:369-374 | non-negative samples give a non-negative p75 latency |
| Kpi.LatencyOrder | apps/monitor-server/src/modules/dashboard/service.ts:374-376 | a higher quantile never gives a lower latency |
| Kpi.CalcTrendPercent | apps/monitor-server/src/modules/dashboard/service.ts:380-387 | from 0 the trend is 0 for 0 and exactly 100 otherwise; else it is within half a unit of the last decimal of the exact relative change in percent |
| Kpi.TrendSign | apps/monitor-server/src/modules/dashboard/service.ts:380-387 | against a positive previous value, a positive trend means a rise and a negative one a fall |
| Kpi.TrendOfUnchanged | apps/monitor-server/src/modules/dashboard/service.ts:380-387 | an unchanged value has a 0% trend |
| Kpi.TrendExamples | apps/monitor-server/src/modules/dashboard/service.ts:380-387 | from 0 to 5 is 100%, from 0 to 0 is 0%, from 100 to 150 is 50% |
| Kpi.BuildKpiTrends | apps/monitor-server/src/modules/dashboard/service.ts:389-395 | every trend is 0 from 0 to 0, 100 from 0 to anything else, and otherwise within 0.005 of the exact relative change of its figure in percent |
| Kpi.TrendsOfUnchanged | apps/monitor-server/src/modules/dashboard/service.ts:389-395 | two identical KPI sets have a 0% trend in every figure |
| Kpi.PreviousPeriod | apps/monitor-server/src/modules/dashboard/service.ts:402-408 | the comparison period ends where the range starts, is as long as the range but at least 1 ms, and has the same granularity |
| Kpi.DashboardOverview | apps/monitor-server/src/modules/dashboard/service.ts:401-443 | the overview counts exactly the request rows of the range that land in a window, its error rate is a fraction, its p75 latency is non-negative, its p95 latency is the ranking figure of the range's durations, its request trend compares that count with the same count over the previous period, and each list has at most ten entries |
| Collect.ValidateCollectPayload | apps/monitor-server/src/modules/collect/validator.ts:6-24 | accepted exactly when the payload is an object, `type` is "event" or "error", `timestamp` is a finite number, `data` is an object, and `data.name` (events) or `data.message` (errors) is a non-empty string |
| Collect.MinimalPayloadsAccepted | apps/monitor-server/src/modules/collect/validator.ts:19-23 | a minimal event or error payload is accepted exactly when its name or message is non-empty |
| Collect.ExtraFieldsIgnored | apps/monitor-server/src/modules/collect/validator.ts:11-16 | fields other than type, timestamp and data do not affect the verdict |
| Collect.NonObjectsRejected | apps/monitor-server/src/modules/collect/validator.ts:9 | null, arrays and primitives are rejected |
| Collect.CanonicalErrorType | apps/monitor-server/src/modules/collect/service.ts:9-15 | a recognised type maps to one of the canonical names runtime, promise or resource |
| Collect.CanonicalFixed | apps/monitor-server/src/modules/collect/service.ts:9-15 | every canonical name is tidy, lower-case and recognised as itself |
| Collect.NormalizeErrorType | apps/monitor-server/src/modules/collect/service.ts:4-18 | absent exactly for a falsy or blank type; a truthy non-string makes `trim` throw; a type whose trimmed lower-case form is runtime, promise, unhandledrejection, resource or resource-error becomes its canonical name; any other type is kept trimmed, in its original case |
| Collect.FoldErrorType | apps/monitor-server/src/modules/collect/service.ts:6-17 | a trimmed type is absent exactly when empty, becomes the canonical name of a known type or alias, and is otherwise kept; the result is tidy |
| Collect.KnownTypeFolds | apps/monitor-server/src/modules/collect/service.ts:6-12 | "Promise " folds to "promise" |
| Collect.UnknownTypeKept | apps/monitor-server/src/modules/collect/service.ts:17 | "TypeError " is kept as "TypeError", only trimmed |
| Collect.NormalizeErrorTypeIdempotent | apps/monitor-server/src/modules/collect/service.ts:4-18 | normalising a normalised type changes nothing |
| Collect.NormalizeErrorPayload | apps/monitor-server/src/modules/collect/service.ts:20-29 | every payload field other than `data` and every data field other than `type` is kept; `data.type` is the normalised type, or is removed when that is absent; it fails exactly when normalising fails |
| Collect.WithType | apps/monitor-server/src/modules/collect/service.ts:22-23 | only `type` differs from the input data, and it holds the given type or is gone |
| Collect.HandleCollect | apps/monitor-server/src/modules/collect/service.ts:35-42 | an event is stored unchanged in the event sink; anything else is stored normalised in the error sink |
| Collect.AcceptedErrorStored | apps/monitor-server/src/modules/collect/service.ts:35-42 | an accepted error payload is stored unless its `data.type` is a truthy non-string, and a stored type is already normal |
| Js.Trim | apps/monitor-server/src/modules/collect/service.ts:6 | `trim` yields the infix that starts after the leading whitespace, with only whitespace after it and no whitespace at either end; empty exactly for a blank string |
| Js.TrimIdempotent | apps/monitor-server/src/modules/collect/service.ts:17 | trimming twice is trimming once |

## Left out

- Persistence is not modelled. This covers fetching event rows and recent
  errors, the 20000-row cap, row ordering, and the insert calls behind the two
  collect sinks. Rows are an input sequence, and a sink is a value of
  `Collect.Write`.
- Async orchestration is not modelled. The `Promise.all` wiring of the
  overview, charts and routes endpoints is left out, and so is the reshaping of
  `recentErrors`. `Kpi.DashboardOverview` keeps only the arithmetic of the
  overview: both aggregations, the KPIs and trends, and the four top-10 lists.
- The per-window chart series of the charts endpoint are not modelled. They
  reuse `percentile3` and the same buckets.
- The HTTP routes, their validation, CORS, configuration and the browser SDK
  are not modelled.
- Floating point is not modelled: samples are exact reals. Three consequences
  follow:
  - `toFixed` is exact rounding half away from zero on the real, so binary
    rounding artefacts are not modelled;
  - `Number.isFinite` checks on already-computed reals are vacuous;
  - sums never overflow.
- The runtime's library calls are abstracted: `Number` on strings, the `URL`
  parser, `Date` parsing and `toISOString` are opaque fields of `Js.Host`.
- Time-zone alignment is simplified. `setMinutes` / `setHours` alignment is
  flooring to the step at a fixed offset from UTC, so daylight-saving changes
  within a range are not modelled.
- Case mapping covers ASCII letters only: `toLowerCase` and `toUpperCase` of
  other characters are the identity here.
- Property order is simplified. `Object.entries` lists integer-like keys first
  in ascending order. The model keeps all keys in first-insertion order, which
  only matters for ties in the rankings.
- The `!bucket` guard of the aggregation loop can never fire once the index is
  in range, so it has no counterpart in the model.
- Limits are natural numbers. The overview passes 10. The routes endpoint
  clamps its `limit` query value to [1, 50] with `Math.min`/`Math.max` but does
  not round it, so a fractional value such as 2.5, or NaN from a non-numeric
  value, can reach `slice` (service.ts:520). `slice` truncates a fractional
  bound, so 2.5 acts as 2, and treats NaN as 0. Both cases are therefore a
  natural-number limit in the model; the caller passes the truncated value.
  The routes endpoint itself is not part of this model.
- Keyed.Increment: keys that name `Object.prototype` members ("constructor",
  "toString", "__proto__") count from 0 here, as any other key does. In the
  runtime, `counter[k] ?? 0` reads the inherited member, so the count becomes
  a string concatenation or NaN and its percentage NaN, and "__proto__" is
  not counted at all. Only page paths can be such keys, since API paths start
  with "/api" (service.ts:268, 280, 326-328).
- Kpi.CalcTrendPercent: its non-finite guard (line 381) is not modelled,
  because model values are always finite. Away from zero, the contract bounds
  the result within half a unit of the exact change rather than naming the
  rounded value. `Kpi.TrendExamples` pins exact values.
- Collect.NormalizeErrorPayload: requires an object payload with object
  `data`. The validator guarantees this before dispatch.
- Collect.HandleCollect: requires an object payload with object `data`, for
  the same reason.
- Collect.NormalizeErrorType: the declared parameter type is `string |
  undefined`, but the value is not checked at run time. A truthy non-string is
  modelled as an `Err` carrying the `TypeError` that `trim` would throw.
