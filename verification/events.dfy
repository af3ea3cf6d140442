/**
 * The row classifier: one raw event row, whose `props` bag is untyped, is
 * turned into a typed sample of its event kind. Every lenient-coercion rule
 * lives here, so the aggregation works only on well-formed samples.
 */
module Events {
  import opened Optional
  import opened Js
  import opened Coercion

  /** One stored event row, as the row source delivers it. */
  datatype EventRow = EventRow(
    occurredAt: string,
    eventName: string,
    props: Value,
    appId: Option<string>,
    env: Option<string>)

  /** What a `"request"` row contributes. */
  datatype RequestSample = RequestSample(
    duration: Option<real>,
    isError: bool,
    path: Option<string>,
    verb: string)

  /** The typed content of a row, one variant per event kind. */
  datatype Sample =
    | Request(request: RequestSample)
    | PageView(path: Option<string>)
    | Paint(fcpSeconds: Option<real>)
    | Resource(entries: seq<ResourceEntry>)
    | Listening(lcpSeconds: Option<real>, cls: Option<real>)
    | Other

  /** `row.props ?? {}`. */
  function Props(row: EventRow): Value {
    if row.props.Null? || row.props.Undefined? then Object(map[]) else row.props
  }

  /** A coerced number kept only when it is non-negative. */
  function NonNegative(x: Option<real>): (r: Option<real>)
    ensures r.Some? <==> x.Some? && x.value >= 0.0
    ensures r.Some? ==> r == x
  {
    if x.Some? && x.value >= 0.0 then x else None
  }

  /** Milliseconds to seconds. */
  function ToSeconds(x: Option<real>): Option<real> {
    if x.Some? then Some(x.value / 1000.0) else None
  }

  /** Every number a sample carries is non-negative. */
  predicate ValidSample(s: Sample) {
    match s
    case Request(r) => r.duration.Some? ==> r.duration.value >= 0.0
    case PageView(_) => true
    case Paint(f) => f.Some? ==> f.value >= 0.0
    case Resource(es) => forall e :: e in es ==> e.duration >= 0.0
    case Listening(l, c) => (l.Some? ==> l.value >= 0.0) && (c.Some? ==> c.value >= 0.0)
    case Other => true
  }

  /** `props.duration` of a request row, coerced. */
  function RawDuration(host: Host, row: EventRow): Option<real> {
    ToNumber(host, Get(Props(row), "duration"))
  }

  /** `props.paints.fcp` of a paint row, coerced (milliseconds). */
  function RawFcp(host: Host, row: EventRow): Option<real> {
    var paints := Get(Props(row), "paints");
    if Truthy(paints) then ToNumber(host, Get(paints, "fcp")) else None
  }

  /** `props.lcp` of a listening row, coerced (milliseconds). */
  function RawLcp(host: Host, row: EventRow): Option<real> {
    ToNumber(host, Get(Props(row), "lcp"))
  }

  /** `props.cls` of a listening row, coerced (unitless). */
  function RawCls(host: Host, row: EventRow): Option<real> {
    ToNumber(host, Get(Props(row), "cls"))
  }

  /** A request failed when `props.ok` is exactly `false` or its status is 400 or above. */
  predicate IsFailedRequest(host: Host, row: EventRow) {
    var status := ToNumber(host, Get(Props(row), "status"));
    Get(Props(row), "ok") == Bool(false) || (status.Some? && status.value >= 400.0)
  }

  /**
   * The request branch: a duration kept only when non-negative, the error
   * verdict, the path of `props.url` and the normalised `props.method`.
   */
  function ClassifyRequest(host: Host, row: EventRow): (r: RequestSample)
    ensures r.duration.Some? <==> RawDuration(host, row).Some? && RawDuration(host, row).value >= 0.0
    ensures r.duration.Some? ==> r.duration == RawDuration(host, row)
    ensures r.isError <==>
      || Get(Props(row), "ok") == Bool(false)
      || (var status := ToNumber(host, Get(Props(row), "status")); status.Some? && status.value >= 400.0)
    ensures r.path == ExtractPath(host, Get(Props(row), "url"))
    ensures r.path.Some? ==> |r.path.value| > 0
    ensures r.verb == ToHttpMethod(Get(Props(row), "method"))
    ensures |r.verb| > 0 && HasNoLower(r.verb)
  {
    var props := Props(row);
    RequestSample(
      NonNegative(RawDuration(host, row)),
      IsFailedRequest(host, row),
      ExtractPath(host, Get(props, "url")),
      ToHttpMethod(Get(props, "method")))
  }

  /**
   * The dispatch on `eventName` of the aggregation loop: which kind of
   * sample a row is and which of its values survive coercion. Durations,
   * FCP, LCP and CLS are kept only when finite and non-negative; FCP and LCP
   * are converted from milliseconds to seconds, CLS is kept as it is.
   */
  function Classify(host: Host, row: EventRow): (s: Sample)
    ensures ValidSample(s)
    ensures s.Request? <==> row.eventName == "request"
    ensures s.PageView? <==> row.eventName == "page-view"
    ensures s.Paint? <==> row.eventName == "performance-paint"
    ensures s.Resource? <==> row.eventName == "performance-resource"
    ensures s.Listening? <==> row.eventName == "performance-listening"
    ensures s.Request? ==>
      && (s.request.duration.Some? <==> RawDuration(host, row).Some? && RawDuration(host, row).value >= 0.0)
      && (s.request.duration.Some? ==> s.request.duration == RawDuration(host, row))
      && (s.request.isError <==> IsFailedRequest(host, row))
      && |s.request.verb| > 0
      && s.request.path == ExtractPath(host, Get(Props(row), "url"))
      && s.request.verb == ToHttpMethod(Get(Props(row), "method"))
    ensures s.PageView? ==> s.path == ExtractPath(host, Get(Props(row), "url"))
    ensures s.Resource? ==> s.entries == ToResourceSamples(host, Get(Props(row), "resources"))
    ensures s.Paint? ==>
      && (s.fcpSeconds.Some? <==> RawFcp(host, row).Some? && RawFcp(host, row).value >= 0.0)
      && (s.fcpSeconds.Some? ==> RawFcp(host, row) == Some(s.fcpSeconds.value * 1000.0))
    ensures s.Listening? ==>
      && (s.lcpSeconds.Some? <==> RawLcp(host, row).Some? && RawLcp(host, row).value >= 0.0)
      && (s.lcpSeconds.Some? ==> RawLcp(host, row) == Some(s.lcpSeconds.value * 1000.0))
      && (s.cls.Some? <==> RawCls(host, row).Some? && RawCls(host, row).value >= 0.0)
      && (s.cls.Some? ==> RawCls(host, row) == s.cls)
  {
    if row.eventName == "request" then Request(ClassifyRequest(host, row))
    else if row.eventName == "page-view" then PageView(ExtractPath(host, Get(Props(row), "url")))
    else if row.eventName == "performance-paint" then Paint(ToSeconds(NonNegative(RawFcp(host, row))))
    else if row.eventName == "performance-resource" then
      Resource(ToResourceSamples(host, Get(Props(row), "resources")))
    else if row.eventName == "performance-listening" then
      Listening(ToSeconds(NonNegative(RawLcp(host, row))), NonNegative(RawCls(host, row)))
    else Other
  }
}
