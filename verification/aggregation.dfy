/**
 * The aggregation engine: one pass over the event rows of a query range that
 * assigns each row to its time window and folds its classified sample into
 * the per-window statistics and the range-wide route and resource counters.
 */
module Aggregation {
  import opened Optional
  import opened Js
  import opened Coercion
  import opened Keyed
  import opened Windows
  import opened Events

  /** The accumulator of one time window. */
  datatype WindowStats = WindowStats(
    isoLabel: string,
    requestCount: nat,
    errorCount: nat,
    durations: seq<real>,
    resourceDurations: seq<real>,
    fcpValues: seq<real>,
    lcpValues: seq<real>,
    clsValues: seq<real>)

  /** The samples of one resource, under the name and type it was first seen with. */
  datatype ResourceStats = ResourceStats(name: string, initiatorType: string, durations: seq<real>)

  /** Everything one pass over the rows produces. */
  datatype Aggregate = Aggregate(
    stats: seq<WindowStats>,
    globalDurations: seq<real>,
    pageRoutes: seq<Entry<nat>>,
    apiRoutes: seq<Entry<nat>>,
    apiDurations: seq<Entry<seq<real>>>,
    requestDurations: seq<Entry<seq<real>>>,
    resources: seq<Entry<ResourceStats>>)

  function EmptyBucket(w: Window): WindowStats {
    WindowStats(w.isoLabel, 0, 0, [], [], [], [], [])
  }

  /** One empty accumulator per window, labelled like the window. */
  function EmptyStats(ws: seq<Window>): (r: seq<WindowStats>)
    ensures |r| == |ws|
    ensures forall i :: 0 <= i < |ws| ==> r[i] == EmptyBucket(ws[i])
  {
    seq(|ws|, i requires 0 <= i < |ws| => EmptyBucket(ws[i]))
  }

  /** The state before the first row. */
  function EmptyAggregate(ws: seq<Window>): (a: Aggregate)
    ensures |a.stats| == |ws|
  {
    Aggregate(EmptyStats(ws), [], [], [], [], [], [])
  }

  /** The buckets of a query range, every counter at zero and every list empty. */
  function BuildEmptyStats(host: Host, from: int, to: int): (r: seq<WindowStats>)
    ensures |r| == |BuildWindows(host, from, to)|
    ensures forall i :: 0 <= i < |r| ==>
      && r[i].isoLabel == host.isoString(BuildWindows(host, from, to)[i].start)
      && r[i].requestCount == 0 && r[i].errorCount == 0
      && r[i].durations == [] && r[i].resourceDurations == []
      && r[i].fcpValues == [] && r[i].lcpValues == [] && r[i].clsValues == []
  {
    EmptyStats(BuildWindows(host, from, to))
  }

  // ---------------------------------------------------------------- samples

  /** The list a possibly-missing sample contributes: one element or none. */
  function Opt(x: Option<real>): (r: seq<real>)
    ensures |r| <= 1
  {
    if x.Some? then [x.value] else []
  }

  function EntryDurations(es: seq<ResourceEntry>): (r: seq<real>)
    ensures |r| == |es|
    ensures forall j :: 0 <= j < |es| ==> r[j] == es[j].duration
  {
    if es == [] then [] else [es[0].duration] + EntryDurations(es[1..])
  }

  /**
   * What a sample adds to the bucket of its window: a request counts once
   * (and once more as an error when it failed) and adds its duration when it
   * has one; paint, listening and resource samples add their values; a page
   * view or any other row leaves the bucket as it was.
   */
  function RecordBucket(b: WindowStats, s: Sample): (r: WindowStats)
    ensures r.isoLabel == b.isoLabel
    ensures r.requestCount == b.requestCount + (if s.Request? then 1 else 0)
    ensures r.errorCount == b.errorCount + (if s.Request? && s.request.isError then 1 else 0)
    ensures r.durations == b.durations + SampleDuration(s)
    ensures r.fcpValues == b.fcpValues + (if s.Paint? then Opt(s.fcpSeconds) else [])
    ensures r.lcpValues == b.lcpValues + (if s.Listening? then Opt(s.lcpSeconds) else [])
    ensures r.clsValues == b.clsValues + (if s.Listening? then Opt(s.cls) else [])
    ensures r.resourceDurations == b.resourceDurations + (if s.Resource? then EntryDurations(s.entries) else [])
    ensures s.PageView? || s.Other? ==> r == b
  {
    match s
    case Request(q) =>
      b.(requestCount := b.requestCount + 1,
         errorCount := b.errorCount + (if q.isError then 1 else 0),
         durations := b.durations + Opt(q.duration))
    case PageView(_) => b
    case Paint(f) => b.(fcpValues := b.fcpValues + Opt(f))
    case Resource(es) => b.(resourceDurations := b.resourceDurations + EntryDurations(es))
    case Listening(l, c) => b.(lcpValues := b.lcpValues + Opt(l), clsValues := b.clsValues + Opt(c))
    case Other => b
  }

  /** `${method} ${path ?? "[unknown]"}`: the key of the slow-request counter. */
  function RequestKey(q: RequestSample): string {
    q.verb + " " + q.path.GetOr(UnknownName)
  }

  /** `path?.startsWith("/api")`. */
  predicate IsApiPath(p: Option<string>) {
    p.Some? && StartsWith(p.value, "/api")
  }

  /** `${initiatorType}|${name}`: the key of the resource counter. */
  function ResourceKey(e: ResourceEntry): string {
    e.initiatorType + "|" + e.name
  }

  // ------------------------------------------------------- resource counter

  function ResourceSampleCount(rs: seq<Entry<ResourceStats>>): nat {
    if rs == [] then 0 else |rs[0].value.durations| + ResourceSampleCount(rs[1..])
  }

  predicate ResourcesNonNegative(rs: seq<Entry<ResourceStats>>) {
    forall i, j :: 0 <= i < |rs| && 0 <= j < |rs[i].value.durations| ==> rs[i].value.durations[j] >= 0.0
  }

  /** The durations kept so far under key `k` of the resource counter: those of its first entry with that key. */
  function ResourceDurationsOf(rs: seq<Entry<ResourceStats>>, k: string): seq<real> {
    if rs == [] then []
    else if rs[0].key == k then rs[0].value.durations
    else ResourceDurationsOf(rs[1..], k)
  }

  /** `ResourceDurationsOf` reads what `record[k]` looks up. */
  lemma {:induction false} ResourceDurationsOfLookup(rs: seq<Entry<ResourceStats>>, k: string)
    ensures ResourceDurationsOf(rs, k) == if Lookup(rs, k).Some? then Lookup(rs, k).value.durations else []
  {
    if rs != [] && rs[0].key != k {
      ResourceDurationsOfLookup(rs[1..], k);
      assert Keys(rs) == [rs[0].key] + Keys(rs[1..]);
    }
  }

  /** The durations of the entries whose resource key is `k`, in order. */
  function DurationsWithKey(es: seq<ResourceEntry>, k: string): seq<real> {
    if es == [] then [] else (if ResourceKey(es[0]) == k then [es[0].duration] else []) + DurationsWithKey(es[1..], k)
  }

  /** The statistics kept so far under the key of `e`, or fresh ones from the entry's own name and type. */
  function CurrentResource(rs: seq<Entry<ResourceStats>>, e: ResourceEntry): ResourceStats {
    Lookup(rs, ResourceKey(e)).GetOr(ResourceStats(e.name, e.initiatorType, []))
  }

  /**
   * One resource sample into the resource counter: appended to the samples of
   * its key, and a new key starts with the entry's own name and type.
   */
  function PushResource(rs: seq<Entry<ResourceStats>>, e: ResourceEntry): (r: seq<Entry<ResourceStats>>)
    ensures Lookup(r, ResourceKey(e)).Some?
    ensures Lookup(r, ResourceKey(e)).value ==
      CurrentResource(rs, e).(durations := CurrentResource(rs, e).durations + [e.duration])
    ensures forall k :: k != ResourceKey(e) ==> Lookup(r, k) == Lookup(rs, k)
    ensures Keys(r) == Keys(rs) + (if ResourceKey(e) in Keys(rs) then [] else [ResourceKey(e)])
    ensures ResourceSampleCount(r) == ResourceSampleCount(rs) + 1
    ensures DistinctKeys(rs) ==> DistinctKeys(r)
    ensures ResourcesNonNegative(rs) && e.duration >= 0.0 ==> ResourcesNonNegative(r)
  {
    var key := ResourceKey(e);
    var cur := CurrentResource(rs, e);
    var next := cur.(durations := cur.durations + [e.duration]);
    PutResourceCount(rs, key, cur, next);
    PushResourceNonNegative(rs, e);
    Put(rs, key, next)
  }

  /** Under its own key a resource sample is appended; every other key keeps its samples. */
  lemma PushResourceAt(rs: seq<Entry<ResourceStats>>, e: ResourceEntry, k: string)
    ensures ResourceDurationsOf(PushResource(rs, e), k) ==
      ResourceDurationsOf(rs, k) + (if k == ResourceKey(e) then [e.duration] else [])
  {
    var r := PushResource(rs, e);
    ResourceDurationsOfLookup(rs, k);
    ResourceDurationsOfLookup(r, k);
    if k == ResourceKey(e) {
      assert CurrentResource(rs, e).durations == ResourceDurationsOf(rs, k);
    } else {
      assert Lookup(r, k) == Lookup(rs, k);
    }
  }

  lemma PushResourceNonNegative(rs: seq<Entry<ResourceStats>>, e: ResourceEntry)
    ensures ResourcesNonNegative(rs) && e.duration >= 0.0 ==>
      ResourcesNonNegative(Put(rs, ResourceKey(e),
        CurrentResource(rs, e).(durations := CurrentResource(rs, e).durations + [e.duration])))
  {
    var cur := CurrentResource(rs, e);
    var v := cur.(durations := cur.durations + [e.duration]);
    if ResourcesNonNegative(rs) && e.duration >= 0.0 {
      var i := IndexOf(rs, ResourceKey(e));
      if i >= 0 {
        assert cur == rs[i].value;
      }
      assert forall j :: 0 <= j < |v.durations| ==> v.durations[j] >= 0.0;
      PutResourcesNonNegative(rs, ResourceKey(e), v);
    }
  }

  lemma PutResourceCount(rs: seq<Entry<ResourceStats>>, k: string, cur: ResourceStats, v: ResourceStats)
    requires Lookup(rs, k).Some? ==> cur == Lookup(rs, k).value
    requires Lookup(rs, k).None? ==> cur.durations == []
    ensures ResourceSampleCount(Put(rs, k, v)) == ResourceSampleCount(rs) - |cur.durations| + |v.durations|
  {
    var i := IndexOf(rs, k);
    if i >= 0 {
      assert Put(rs, k, v) == rs[i := Entry(k, v)];
      ResourceCountUpdate(rs, i, v);
    } else {
      assert Put(rs, k, v) == rs + [Entry(k, v)];
      ResourceCountAppend(rs, Entry(k, v));
    }
  }

  lemma PutResourcesNonNegative(rs: seq<Entry<ResourceStats>>, k: string, v: ResourceStats)
    ensures ResourcesNonNegative(rs) && (forall j :: 0 <= j < |v.durations| ==> v.durations[j] >= 0.0) ==>
      ResourcesNonNegative(Put(rs, k, v))
  {
    var i := IndexOf(rs, k);
    if ResourcesNonNegative(rs) && (forall j :: 0 <= j < |v.durations| ==> v.durations[j] >= 0.0) {
      var r := Put(rs, k, v);
      if i >= 0 {
        assert r == rs[i := Entry(k, v)];
      } else {
        assert r == rs + [Entry(k, v)];
      }
      forall a, b | 0 <= a < |r| && 0 <= b < |r[a].value.durations| ensures r[a].value.durations[b] >= 0.0 {
        if a != i && a < |rs| {
          assert r[a] == rs[a];
        }
      }
    }
  }

  lemma {:induction false} ResourceCountUpdate(rs: seq<Entry<ResourceStats>>, i: int, v: ResourceStats)
    requires 0 <= i < |rs|
    ensures ResourceSampleCount(rs[i := Entry(rs[i].key, v)])
      == ResourceSampleCount(rs) - |rs[i].value.durations| + |v.durations|
  {
    if i > 0 {
      ResourceCountUpdate(rs[1..], i - 1, v);
      assert rs[i := Entry(rs[i].key, v)][1..] == rs[1..][i - 1 := Entry(rs[i].key, v)];
    }
  }

  lemma {:induction false} ResourceCountAppend(rs: seq<Entry<ResourceStats>>, e: Entry<ResourceStats>)
    ensures ResourceSampleCount(rs + [e]) == ResourceSampleCount(rs) + |e.value.durations|
  {
    if rs != [] {
      ResourceCountAppend(rs[1..], e);
      assert (rs + [e])[1..] == rs[1..] + [e];
    }
  }

  /**
   * `resourceSamples.forEach(...)`: every entry of one row, in order. Each
   * key gains the durations of its entries, a new key follows the existing
   * ones and keeps the name and type of its first entry.
   */
  function PushResources(rs: seq<Entry<ResourceStats>>, es: seq<ResourceEntry>): (r: seq<Entry<ResourceStats>>)
    ensures ResourcesAppended(rs, r, es)
    ensures ResourceSampleCount(r) == ResourceSampleCount(rs) + |es|
    ensures DistinctKeys(rs) ==> DistinctKeys(r)
    ensures ResourcesNonNegative(rs) && (forall e :: e in es ==> e.duration >= 0.0) ==> ResourcesNonNegative(r)
    decreases |es|
  {
    if es == [] then
      NoResourcesAppended(rs);
      rs
    else
      assert forall e :: e in es[1..] ==> e in es;
      var r := PushResources(PushResource(rs, es[0]), es[1..]);
      ResourcesAppendedStep(rs, es, r);
      r
  }

  /** Appending `h` and then `t` appends `h + t`. */
  lemma AppendTwice(x: seq<real>, y: seq<real>, z: seq<real>, h: seq<real>, t: seq<real>)
    requires x == y + t && y == z + h
    ensures x == z + (h + t)
  {
  }

  /** The name and type the resource counter keeps under `k`, if it has the key. */
  function IdentityOf(rs: seq<Entry<ResourceStats>>, k: string): Option<(string, string)> {
    match Lookup(rs, k)
    case Some(v) => Some((v.name, v.initiatorType))
    case None => None
  }

  /** The name and type of the first entry whose resource key is `k`. */
  function FirstIdentity(es: seq<ResourceEntry>, k: string): Option<(string, string)> {
    if es == [] then None
    else if ResourceKey(es[0]) == k then Some((es[0].name, es[0].initiatorType))
    else FirstIdentity(es[1..], k)
  }

  /** The keys of `es` not in `ks`, each once, in the order they first occur. */
  function NewResourceKeys(ks: seq<string>, es: seq<ResourceEntry>): seq<string>
    decreases |es|
  {
    if es == [] then []
    else if ResourceKey(es[0]) in ks then NewResourceKeys(ks, es[1..])
    else [ResourceKey(es[0])] + NewResourceKeys(ks + [ResourceKey(es[0])], es[1..])
  }

  /**
   * Every key of the resource counter gains the durations of the row's
   * entries under it; a key is added only when some entry has it, after the
   * existing keys and in the order the entries first name it; an existing
   * key keeps its name and type, and a new one takes those of its first entry.
   */
  ghost predicate ResourcesAppended(before: seq<Entry<ResourceStats>>, after: seq<Entry<ResourceStats>>, es: seq<ResourceEntry>) {
    && (forall k ::
      && ResourceDurationsOf(after, k) == ResourceDurationsOf(before, k) + DurationsWithKey(es, k)
      && (Lookup(after, k).Some? <==> Lookup(before, k).Some? || DurationsWithKey(es, k) != [])
      && IdentityOf(after, k) == (if IdentityOf(before, k).Some? then IdentityOf(before, k) else FirstIdentity(es, k)))
    && Keys(after) == Keys(before) + NewResourceKeys(Keys(before), es)
  }

  /** One entry: its key keeps the name and type it has, or takes the entry's own. */
  lemma PushResourceIdentity(rs: seq<Entry<ResourceStats>>, e: ResourceEntry, k: string)
    ensures IdentityOf(PushResource(rs, e), k) ==
      if k == ResourceKey(e) && IdentityOf(rs, k).None? then Some((e.name, e.initiatorType)) else IdentityOf(rs, k)
  {
  }

  /** The first entry of a row, then the rest: the two effects compose into the effect of the whole row. */
  lemma ResourcesAppendedStep(rs: seq<Entry<ResourceStats>>, es: seq<ResourceEntry>, r: seq<Entry<ResourceStats>>)
    requires es != []
    requires ResourcesAppended(PushResource(rs, es[0]), r, es[1..])
    ensures ResourcesAppended(rs, r, es)
  {
    forall k
      ensures ResourceDurationsOf(r, k) == ResourceDurationsOf(rs, k) + DurationsWithKey(es, k)
      ensures Lookup(r, k).Some? <==> Lookup(rs, k).Some? || DurationsWithKey(es, k) != []
      ensures IdentityOf(r, k) == (if IdentityOf(rs, k).Some? then IdentityOf(rs, k) else FirstIdentity(es, k))
    {
      ResourcesAppendedStepAt(rs, es, r, k);
    }
    NewKeysHead(Keys(rs), es, Keys(PushResource(rs, es[0])));
  }

  /** `ResourcesAppendedStep` under one key. */
  lemma ResourcesAppendedStepAt(rs: seq<Entry<ResourceStats>>, es: seq<ResourceEntry>, r: seq<Entry<ResourceStats>>, k: string)
    requires es != []
    requires ResourcesAppended(PushResource(rs, es[0]), r, es[1..])
    ensures ResourceDurationsOf(r, k) == ResourceDurationsOf(rs, k) + DurationsWithKey(es, k)
    ensures Lookup(r, k).Some? <==> Lookup(rs, k).Some? || DurationsWithKey(es, k) != []
    ensures IdentityOf(r, k) == (if IdentityOf(rs, k).Some? then IdentityOf(rs, k) else FirstIdentity(es, k))
  {
    var mid := PushResource(rs, es[0]);
    var head := if k == ResourceKey(es[0]) then [es[0].duration] else [];
    assert ResourceDurationsOf(r, k) == ResourceDurationsOf(mid, k) + DurationsWithKey(es[1..], k);
    assert Lookup(r, k).Some? <==> Lookup(mid, k).Some? || DurationsWithKey(es[1..], k) != [];
    assert IdentityOf(r, k) == (if IdentityOf(mid, k).Some? then IdentityOf(mid, k) else FirstIdentity(es[1..], k));
    PushResourceAt(rs, es[0], k);
    PushResourceIdentity(rs, es[0], k);
    assert DurationsWithKey(es, k) == head + DurationsWithKey(es[1..], k);
    AppendTwice(ResourceDurationsOf(r, k), ResourceDurationsOf(mid, k), ResourceDurationsOf(rs, k),
                head, DurationsWithKey(es[1..], k));
  }

  /** The keys after the first entry, followed by the new keys of the rest, are the new keys of all. */
  lemma NewKeysHead(ks: seq<string>, es: seq<ResourceEntry>, mid: seq<string>)
    requires es != []
    requires mid == ks + (if ResourceKey(es[0]) in ks then [] else [ResourceKey(es[0])])
    ensures mid + NewResourceKeys(mid, es[1..]) == ks + NewResourceKeys(ks, es)
  {
    var k := ResourceKey(es[0]);
    if k !in ks {
      assert ks + [k] + NewResourceKeys(ks + [k], es[1..]) == ks + ([k] + NewResourceKeys(ks + [k], es[1..]));
    }
  }

  // ------------------------------------------------------------ the pass

  /** The path a sample adds to the API route counter: the path of a request under `/api`. */
  function ApiPath(s: Sample): Option<string> {
    if s.Request? && IsApiPath(s.request.path) then s.request.path else None
  }

  /** The path a sample adds to the page route counter: the non-empty path of a page view. */
  function PagePath(s: Sample): Option<string> {
    if s.PageView? && s.path.Some? && |s.path.value| > 0 then s.path else None
  }

  /**
   * How one sample changes the range-wide state: its request duration is
   * appended to the global list and to the slow-request counter under its
   * method-and-path key, an API request counts once (and adds its duration)
   * under its path, a page view counts once under its path, and each resource
   * entry adds its duration under its type-and-name key. A counter gains a
   * key only when something is recorded under it, and then after its
   * existing keys; a new resource key takes the name and type of its first
   * entry, and an existing one keeps its own. Nothing else changes.
   */
  ghost predicate RangeWideRecorded(a: Aggregate, s: Sample, r: Aggregate) {
    && r.globalDurations == a.globalDurations + SampleDuration(s)
    && AppendedUnder(a.requestDurations, r.requestDurations, RequestKeyOf(s), SampleDuration(s))
    && CountedUnder(a.apiRoutes, r.apiRoutes, ApiPath(s))
    && AppendedUnder(a.apiDurations, r.apiDurations, ApiPath(s), SampleDuration(s))
    && CountedUnder(a.pageRoutes, r.pageRoutes, PagePath(s))
    && ResourcesAppended(a.resources, r.resources, if s.Resource? then s.entries else [])
  }

  /** The key a sample's duration is filed under in the slow-request counter. */
  function RequestKeyOf(s: Sample): Option<string> {
    if s.Request? then Some(RequestKey(s.request)) else None
  }

  /** What a sample adds to the range-wide lists and counters. */
  function RecordRoutes(a: Aggregate, s: Sample): (r: Aggregate)
    ensures r.stats == a.stats
    ensures RangeWideRecorded(a, s, r)
  {
    match s
    case Request(q) =>
      RequestRecorded(a, q);
      RecordApi(RecordDuration(a, q), q)
    case PageView(p) =>
      var r := if p.Some? && |p.value| > 0 then a.(pageRoutes := Increment(a.pageRoutes, p.value)) else a;
      PageViewRecorded(a, p, r);
      r
    case Resource(es) =>
      ResourceRecorded(a, es);
      a.(resources := PushResources(a.resources, es))
    case _ =>
      UnchangedRecorded(a, s);
      a
  }

  lemma RequestRecorded(a: Aggregate, q: RequestSample)
    ensures RangeWideRecorded(a, Request(q), RecordApi(RecordDuration(a, q), q))
  {
    var s := Request(q);
    assert SampleDuration(s) == Opt(q.duration);
    assert RequestKeyOf(s) == Some(RequestKey(q));
    assert ApiPath(s) == if IsApiPath(q.path) then q.path else None;
    assert PagePath(s) == None;
    NothingCounted(a.pageRoutes);
    NoResourcesAppended(a.resources);
  }

  lemma PageViewRecorded(a: Aggregate, p: Option<string>, r: Aggregate)
    requires r == if p.Some? && |p.value| > 0 then a.(pageRoutes := Increment(a.pageRoutes, p.value)) else a
    ensures RangeWideRecorded(a, PageView(p), r)
  {
    var s := PageView(p);
    assert SampleDuration(s) == [] && RequestKeyOf(s) == None && ApiPath(s) == None;
    NoKeyAppended(a.requestDurations, []);
    NothingCounted(a.apiRoutes);
    NoKeyAppended(a.apiDurations, []);
    NoResourcesAppended(a.resources);
    if p.Some? && |p.value| > 0 {
      assert PagePath(s) == p;
    } else {
      assert PagePath(s) == None;
      NothingCounted(a.pageRoutes);
    }
  }

  lemma ResourceRecorded(a: Aggregate, es: seq<ResourceEntry>)
    ensures RangeWideRecorded(a, Resource(es), a.(resources := PushResources(a.resources, es)))
  {
    var s := Resource(es);
    assert SampleDuration(s) == [] && RequestKeyOf(s) == None;
    assert ApiPath(s) == None && PagePath(s) == None;
    NoKeyAppended(a.requestDurations, []);
    NothingCounted(a.apiRoutes);
    NoKeyAppended(a.apiDurations, []);
    NothingCounted(a.pageRoutes);
  }

  lemma UnchangedRecorded(a: Aggregate, s: Sample)
    requires !s.Request? && !s.PageView? && !s.Resource?
    ensures RangeWideRecorded(a, s, a)
  {
    assert SampleDuration(s) == [] && RequestKeyOf(s) == None;
    assert ApiPath(s) == None && PagePath(s) == None;
    NoKeyAppended(a.requestDurations, []);
    NothingCounted(a.apiRoutes);
    NoKeyAppended(a.apiDurations, []);
    NothingCounted(a.pageRoutes);
    NoResourcesAppended(a.resources);
  }

  lemma NoResourcesAppended(rs: seq<Entry<ResourceStats>>)
    ensures ResourcesAppended(rs, rs, [])
  {
  }

  /** A request's duration goes to the global list and to the counter of its method and path. */
  function RecordDuration(a: Aggregate, q: RequestSample): (r: Aggregate)
    ensures r.stats == a.stats
    ensures r.globalDurations == a.globalDurations + Opt(q.duration)
    ensures AppendedUnder(a.requestDurations, r.requestDurations, Some(RequestKey(q)), Opt(q.duration))
    ensures r.apiRoutes == a.apiRoutes && r.apiDurations == a.apiDurations
    ensures r.pageRoutes == a.pageRoutes && r.resources == a.resources
  {
    if q.duration.Some? then
      a.(globalDurations := a.globalDurations + [q.duration.value],
         requestDurations := PushSample(a.requestDurations, RequestKey(q), q.duration.value))
    else
      NothingAppended(a.requestDurations, Some(RequestKey(q)));
      a
  }

  /** A request to an API path is counted, and its duration kept, under its path. */
  function RecordApi(a: Aggregate, q: RequestSample): (r: Aggregate)
    ensures r.stats == a.stats
    ensures CountedUnder(a.apiRoutes, r.apiRoutes, if IsApiPath(q.path) then q.path else None)
    ensures AppendedUnder(a.apiDurations, r.apiDurations, if IsApiPath(q.path) then q.path else None, Opt(q.duration))
    ensures r.globalDurations == a.globalDurations && r.requestDurations == a.requestDurations
    ensures r.pageRoutes == a.pageRoutes && r.resources == a.resources
  {
    if IsApiPath(q.path) then
      NothingAppended(a.apiDurations, q.path);
      a.(apiRoutes := Increment(a.apiRoutes, q.path.value),
         apiDurations := if q.duration.Some? then PushSample(a.apiDurations, q.path.value, q.duration.value)
                         else a.apiDurations)
    else
      NothingCounted(a.apiRoutes);
      NoKeyAppended(a.apiDurations, Opt(q.duration));
      a
  }

  /** Folds a classified sample into bucket `idx` and the range-wide state. */
  function Record(a: Aggregate, idx: int, s: Sample): (r: Aggregate)
    requires 0 <= idx < |a.stats|
    ensures |r.stats| == |a.stats|
    ensures r.stats[idx] == RecordBucket(a.stats[idx], s)
    ensures forall j :: 0 <= j < |a.stats| && j != idx ==> r.stats[j] == a.stats[j]
    ensures RangeWideRecorded(a, s, r)
  {
    RecordRoutes(a.(stats := a.stats[idx := RecordBucket(a.stats[idx], s)]), s)
  }

  /** The window a row falls into, or -1 when its time does not parse or precedes every window. */
  function Assign(host: Host, ws: seq<Window>, row: EventRow): (i: int)
    ensures -1 <= i < |ws|
    ensures i < 0 <==>
      || host.dateMs(row.occurredAt).None?
      || (forall j :: 0 <= j < |ws| ==> ws[j].start > host.dateMs(row.occurredAt).value)
    ensures i >= 0 ==> ws[i].start <= host.dateMs(row.occurredAt).value
    ensures i >= 0 ==> forall j :: i < j < |ws| ==> ws[j].start > host.dateMs(row.occurredAt).value
  {
    var ms := host.dateMs(row.occurredAt);
    if ms.None? then -1 else WindowIndex(ws, ms.value)
  }

  /**
   * One iteration of the loop over the rows: a row that lands in no window is
   * skipped; any other row changes its own window's bucket and the range-wide
   * state, and no other bucket.
   */
  function Step(host: Host, ws: seq<Window>, a: Aggregate, row: EventRow): (r: Aggregate)
    ensures |r.stats| == |a.stats|
    ensures forall i :: 0 <= i < |a.stats| ==> r.stats[i].isoLabel == a.stats[i].isoLabel
    ensures Assign(host, ws, row) < 0 ==> r == a
    ensures 0 <= Assign(host, ws, row) < |a.stats| ==>
      var idx := Assign(host, ws, row);
      && r.stats[idx] == RecordBucket(a.stats[idx], Classify(host, row))
      && (forall j :: 0 <= j < |a.stats| && j != idx ==> r.stats[j] == a.stats[j])
      && RangeWideRecorded(a, Classify(host, row), r)
  {
    var idx := Assign(host, ws, row);
    if idx < 0 || idx >= |a.stats| then a
    else Record(a, idx, Classify(host, row))
  }

  /**
   * The loop over the rows, as a left fold: the state after the first `|rows|`
   * rows. The pass never adds or removes a bucket, and never relabels one.
   */
  function Fold(host: Host, ws: seq<Window>, a: Aggregate, rows: seq<EventRow>): (r: Aggregate)
    ensures |r.stats| == |a.stats|
    ensures forall i :: 0 <= i < |a.stats| ==> r.stats[i].isoLabel == a.stats[i].isoLabel
    decreases |rows|
  {
    if rows == [] then a
    else Step(host, ws, Fold(host, ws, a, rows[..|rows| - 1]), rows[|rows| - 1])
  }

  /**
   * `aggregateRows(rows, { from, to })`: one bucket per window of the range,
   * labelled with the window's ISO start, and a state that satisfies the
   * invariant of the pass whatever the rows.
   */
  function AggregateRows(host: Host, rows: seq<EventRow>, from: int, to: int): (r: Aggregate)
    ensures |r.stats| == |BuildWindows(host, from, to)|
    ensures forall i :: 0 <= i < |r.stats| ==> r.stats[i].isoLabel == host.isoString(BuildWindows(host, from, to)[i].start)
    ensures WellFormed(r)
  {
    var ws := BuildWindows(host, from, to);
    EmptyWellFormed(ws);
    FoldWellFormed(host, ws, EmptyAggregate(ws), rows);
    Fold(host, ws, EmptyAggregate(ws), rows)
  }

  // ------------------------------------------------------------ invariants

  predicate NonNeg(xs: seq<real>) {
    forall j :: 0 <= j < |xs| ==> xs[j] >= 0.0
  }

  /** A bucket never counts more errors than requests and holds only non-negative samples. */
  predicate BucketOk(b: WindowStats) {
    && b.errorCount <= b.requestCount
    && NonNeg(b.durations) && NonNeg(b.resourceDurations)
    && NonNeg(b.fcpValues) && NonNeg(b.lcpValues) && NonNeg(b.clsValues)
  }

  /** `stats.reduce((sum, s) => sum + s.requestCount, 0)`. */
  function SumRequests(stats: seq<WindowStats>): nat {
    if stats == [] then 0 else stats[0].requestCount + SumRequests(stats[1..])
  }

  /** `stats.reduce((sum, s) => sum + s.errorCount, 0)`. */
  function SumErrors(stats: seq<WindowStats>): nat {
    if stats == [] then 0 else stats[0].errorCount + SumErrors(stats[1..])
  }

  /** The request durations held by all buckets together. */
  function BucketDurations(stats: seq<WindowStats>): multiset<real> {
    if stats == [] then multiset{} else multiset(stats[0].durations) + BucketDurations(stats[1..])
  }

  /** The resource durations held by all buckets together. */
  function BucketResourceDurations(stats: seq<WindowStats>): multiset<real> {
    if stats == [] then multiset{} else multiset(stats[0].resourceDurations) + BucketResourceDurations(stats[1..])
  }

  lemma {:induction false} RequestsUpdate(stats: seq<WindowStats>, i: int, b: WindowStats)
    requires 0 <= i < |stats|
    ensures SumRequests(stats[i := b]) + stats[i].requestCount == SumRequests(stats) + b.requestCount
  {
    if i > 0 {
      RequestsUpdate(stats[1..], i - 1, b);
      assert stats[i := b][1..] == stats[1..][i - 1 := b];
    }
  }

  lemma {:induction false} ErrorsUpdate(stats: seq<WindowStats>, i: int, b: WindowStats)
    requires 0 <= i < |stats|
    ensures SumErrors(stats[i := b]) + stats[i].errorCount == SumErrors(stats) + b.errorCount
  {
    if i > 0 {
      ErrorsUpdate(stats[1..], i - 1, b);
      assert stats[i := b][1..] == stats[1..][i - 1 := b];
    }
  }

  lemma {:induction false} DurationsUpdate(stats: seq<WindowStats>, i: int, b: WindowStats, extra: seq<real>)
    requires 0 <= i < |stats| && b.durations == stats[i].durations + extra
    ensures BucketDurations(stats[i := b]) == BucketDurations(stats) + multiset(extra)
  {
    var t := stats[i := b];
    if i == 0 {
      assert t[1..] == stats[1..];
    } else {
      DurationsUpdate(stats[1..], i - 1, b, extra);
      assert t[1..] == stats[1..][i - 1 := b];
      assert t[0] == stats[0];
      var h := multiset(stats[0].durations);
      calc {
        BucketDurations(t);
        h + BucketDurations(t[1..]);
        h + (BucketDurations(stats[1..]) + multiset(extra));
        (h + BucketDurations(stats[1..])) + multiset(extra);
      }
    }
  }

  lemma {:induction false} ResourceDurationsUpdate(stats: seq<WindowStats>, i: int, b: WindowStats, extra: seq<real>)
    requires 0 <= i < |stats| && b.resourceDurations == stats[i].resourceDurations + extra
    ensures BucketResourceDurations(stats[i := b]) == BucketResourceDurations(stats) + multiset(extra)
  {
    var t := stats[i := b];
    if i == 0 {
      assert t[1..] == stats[1..];
    } else {
      ResourceDurationsUpdate(stats[1..], i - 1, b, extra);
      assert t[1..] == stats[1..][i - 1 := b];
      assert t[0] == stats[0];
      var h := multiset(stats[0].resourceDurations);
      calc {
        BucketResourceDurations(t);
        h + BucketResourceDurations(t[1..]);
        h + (BucketResourceDurations(stats[1..]) + multiset(extra));
        (h + BucketResourceDurations(stats[1..])) + multiset(extra);
      }
    }
  }

  /** The errors-within-requests and non-negativity invariant of one bucket survives any valid sample. */
  lemma RecordBucketOk(b: WindowStats, s: Sample)
    requires BucketOk(b) && ValidSample(s)
    ensures BucketOk(RecordBucket(b, s))
  {
    match s
    case Resource(es) =>
      var ds := EntryDurations(es);
      assert forall j :: 0 <= j < |ds| ==> es[j] in es;
    case _ =>
  }

  /** The request duration a sample carries, if any. */
  function SampleDuration(s: Sample): seq<real> {
    if s.Request? then Opt(s.request.duration) else []
  }

  /** The number of resource samples a sample carries. */
  function SampleResources(s: Sample): nat {
    if s.Resource? then |s.entries| else 0
  }

  /**
   * The range-wide part of the invariant: every counter has distinct keys,
   * every sample is non-negative, the slow-request counter holds one sample
   * per global duration, and no API route has more samples than counted requests.
   */
  predicate CountersOk(a: Aggregate) {
    && NonNeg(a.globalDurations)
    && DistinctKeys(a.pageRoutes) && DistinctKeys(a.apiRoutes)
    && DistinctKeys(a.apiDurations) && DistinctKeys(a.requestDurations) && DistinctKeys(a.resources)
    && AllNonNegative(a.apiDurations) && AllNonNegative(a.requestDurations)
    && ResourcesNonNegative(a.resources)
    && SampleCount(a.requestDurations) == |a.globalDurations|
    && SampleCount(a.apiDurations) <= Total(a.apiRoutes)
  }

  /**
   * The invariant of the pass: every bucket is consistent, the counters are,
   * the global duration list holds exactly the bucket durations, and the
   * resource counter holds one sample per bucket resource sample.
   */
  predicate WellFormed(a: Aggregate) {
    && (forall i :: 0 <= i < |a.stats| ==> BucketOk(a.stats[i]))
    && CountersOk(a)
    && multiset(a.globalDurations) == BucketDurations(a.stats)
    && ResourceSampleCount(a.resources) == |BucketResourceDurations(a.stats)|
  }

  lemma {:induction false} EmptyStatsZero(stats: seq<WindowStats>)
    requires forall i :: 0 <= i < |stats| ==> stats[i].requestCount == 0 && stats[i].errorCount == 0
    requires forall i :: 0 <= i < |stats| ==> stats[i].durations == [] && stats[i].resourceDurations == []
    ensures SumRequests(stats) == 0 && SumErrors(stats) == 0
    ensures BucketDurations(stats) == multiset{} && BucketResourceDurations(stats) == multiset{}
  {
    if stats != [] {
      EmptyStatsZero(stats[1..]);
    }
  }

  lemma EmptyWellFormed(ws: seq<Window>)
    ensures WellFormed(EmptyAggregate(ws))
  {
    EmptyStatsZero(EmptyAggregate(ws).stats);
  }

  lemma RoutesOk(a: Aggregate, s: Sample)
    requires ValidSample(s) && CountersOk(a)
    ensures var r := RecordRoutes(a, s);
      && CountersOk(r)
      && r.globalDurations == a.globalDurations + SampleDuration(s)
      && ResourceSampleCount(r.resources) == ResourceSampleCount(a.resources) + SampleResources(s)
  {
    match s
    case Request(q) =>
      RecordDurationOk(a, q);
      RecordApiOk(RecordDuration(a, q), q);
    case PageView(p) =>
    case Resource(es) =>
    case _ =>
  }

  lemma RecordDurationOk(a: Aggregate, q: RequestSample)
    requires CountersOk(a) && (q.duration.Some? ==> q.duration.value >= 0.0)
    ensures var r := RecordDuration(a, q);
      && CountersOk(r)
      && r.globalDurations == a.globalDurations + Opt(q.duration)
      && r.resources == a.resources
  {
  }

  lemma RecordApiOk(a: Aggregate, q: RequestSample)
    requires CountersOk(a) && (q.duration.Some? ==> q.duration.value >= 0.0)
    ensures var r := RecordApi(a, q);
      && CountersOk(r)
      && r.globalDurations == a.globalDurations
      && r.resources == a.resources
  {
  }

  /** Recording a valid sample in an existing bucket keeps the invariant. */
  lemma RecordWellFormed(a: Aggregate, idx: int, s: Sample)
    requires WellFormed(a) && 0 <= idx < |a.stats| && ValidSample(s)
    ensures WellFormed(Record(a, idx, s))
  {
    RecordBucketsOk(a, idx, s);
    RecordCountersOk(a, idx, s);
    RecordGlobalOk(a, idx, s);
    RecordResourcesOk(a, idx, s);
  }

  lemma RecordBucketsOk(a: Aggregate, idx: int, s: Sample)
    requires WellFormed(a) && 0 <= idx < |a.stats| && ValidSample(s)
    ensures forall j :: 0 <= j < |a.stats| ==> BucketOk(Record(a, idx, s).stats[j])
  {
    RecordBucketOk(a.stats[idx], s);
    var r := Record(a, idx, s);
    forall j | 0 <= j < |a.stats|
      ensures BucketOk(r.stats[j])
    {
      if j != idx {
        assert r.stats[j] == a.stats[j];
      }
    }
  }

  lemma RecordCountersOk(a: Aggregate, idx: int, s: Sample)
    requires WellFormed(a) && 0 <= idx < |a.stats| && ValidSample(s)
    ensures CountersOk(Record(a, idx, s))
  {
    RoutesOk(a.(stats := a.stats[idx := RecordBucket(a.stats[idx], s)]), s);
  }

  lemma RecordGlobalOk(a: Aggregate, idx: int, s: Sample)
    requires WellFormed(a) && 0 <= idx < |a.stats| && ValidSample(s)
    ensures multiset(Record(a, idx, s).globalDurations) == BucketDurations(Record(a, idx, s).stats)
  {
    var b' := RecordBucket(a.stats[idx], s);
    RoutesOk(a.(stats := a.stats[idx := b']), s);
    DurationsUpdate(a.stats, idx, b', SampleDuration(s));
  }

  lemma RecordResourcesOk(a: Aggregate, idx: int, s: Sample)
    requires WellFormed(a) && 0 <= idx < |a.stats| && ValidSample(s)
    ensures ResourceSampleCount(Record(a, idx, s).resources) == |BucketResourceDurations(Record(a, idx, s).stats)|
  {
    var b' := RecordBucket(a.stats[idx], s);
    RoutesOk(a.(stats := a.stats[idx := b']), s);
    ResourceDurationsUpdate(a.stats, idx, b', if s.Resource? then EntryDurations(s.entries) else []);
  }

  lemma StepWellFormed(host: Host, ws: seq<Window>, a: Aggregate, row: EventRow)
    requires WellFormed(a)
    ensures WellFormed(Step(host, ws, a, row))
  {
    var idx := Assign(host, ws, row);
    if 0 <= idx < |a.stats| {
      RecordWellFormed(a, idx, Classify(host, row));
    }
  }

  lemma {:induction false} FoldWellFormed(host: Host, ws: seq<Window>, a: Aggregate, rows: seq<EventRow>)
    requires WellFormed(a)
    ensures WellFormed(Fold(host, ws, a, rows))
    decreases |rows|
  {
    if rows != [] {
      FoldWellFormed(host, ws, a, rows[..|rows| - 1]);
      StepWellFormed(host, ws, Fold(host, ws, a, rows[..|rows| - 1]), rows[|rows| - 1]);
    }
  }

  // ------------------------------------------------------------- counting

  /** A row that lands in window `i` and is a request. */
  predicate IsRequestAt(host: Host, ws: seq<Window>, row: EventRow, i: int) {
    Assign(host, ws, row) == i && row.eventName == "request"
  }

  /** The number of rows that land in window `i` and are requests. */
  function RequestsAt(host: Host, ws: seq<Window>, rows: seq<EventRow>, i: int): nat
    decreases |rows|
  {
    if rows == [] then 0
    else RequestsAt(host, ws, rows[..|rows| - 1], i) + (if IsRequestAt(host, ws, rows[|rows| - 1], i) then 1 else 0)
  }

  /** The number of rows that land in window `i` and are failed requests. */
  function ErrorsAt(host: Host, ws: seq<Window>, rows: seq<EventRow>, i: int): nat
    decreases |rows|
  {
    if rows == [] then 0
    else
      var last := rows[|rows| - 1];
      ErrorsAt(host, ws, rows[..|rows| - 1], i)
        + (if IsRequestAt(host, ws, last, i) && IsFailedRequest(host, last) then 1 else 0)
  }

  /** A row that lands in some window. */
  predicate IsAssigned(host: Host, ws: seq<Window>, row: EventRow) {
    Assign(host, ws, row) >= 0
  }

  /** The number of requests that land in some window. */
  function AssignedRequests(host: Host, ws: seq<Window>, rows: seq<EventRow>): nat
    decreases |rows|
  {
    if rows == [] then 0
    else
      var last := rows[|rows| - 1];
      AssignedRequests(host, ws, rows[..|rows| - 1])
        + (if IsAssigned(host, ws, last) && last.eventName == "request" then 1 else 0)
  }

  /** The path a row's `props.url` yields. */
  function RowPath(host: Host, row: EventRow): Option<string> {
    ExtractPath(host, Get(Props(row), "url"))
  }

  /** The number of requests to an `/api` path that land in some window. */
  function ApiRequests(host: Host, ws: seq<Window>, rows: seq<EventRow>): nat
    decreases |rows|
  {
    if rows == [] then 0
    else
      var last := rows[|rows| - 1];
      ApiRequests(host, ws, rows[..|rows| - 1])
        + (if IsAssigned(host, ws, last) && last.eventName == "request" && IsApiPath(RowPath(host, last))
           then 1 else 0)
  }

  /** The number of page views with a usable path that land in some window. */
  function PageViews(host: Host, ws: seq<Window>, rows: seq<EventRow>): nat
    decreases |rows|
  {
    if rows == [] then 0
    else
      var last := rows[|rows| - 1];
      PageViews(host, ws, rows[..|rows| - 1])
        + (if IsAssigned(host, ws, last) && last.eventName == "page-view" && RowPath(host, last).Some?
           then 1 else 0)
  }

  /**
   * Each bucket counts exactly the request rows that fall into its window, and
   * exactly the failed ones among them as errors.
   */
  lemma {:induction false} FoldCountsPerWindow(host: Host, ws: seq<Window>, a: Aggregate, rows: seq<EventRow>, i: int)
    requires |a.stats| == |ws| && 0 <= i < |ws|
    ensures |Fold(host, ws, a, rows).stats| == |ws|
    ensures Fold(host, ws, a, rows).stats[i].requestCount == a.stats[i].requestCount + RequestsAt(host, ws, rows, i)
    ensures Fold(host, ws, a, rows).stats[i].errorCount == a.stats[i].errorCount + ErrorsAt(host, ws, rows, i)
    decreases |rows|
  {
    if rows != [] {
      var init := rows[..|rows| - 1];
      FoldCountsPerWindow(host, ws, a, init, i);
    }
  }

  /** The buckets together count every request that lands in some window, once. */
  lemma {:induction false} FoldCountsTotal(host: Host, ws: seq<Window>, a: Aggregate, rows: seq<EventRow>)
    requires |a.stats| == |ws|
    ensures SumRequests(Fold(host, ws, a, rows).stats) == SumRequests(a.stats) + AssignedRequests(host, ws, rows)
    decreases |rows|
  {
    if rows != [] {
      var init := rows[..|rows| - 1];
      var row := rows[|rows| - 1];
      FoldCountsTotal(host, ws, a, init);
      var prev := Fold(host, ws, a, init);
      var idx := Assign(host, ws, row);
      if 0 <= idx {
        var b' := RecordBucket(prev.stats[idx], Classify(host, row));
        RequestsUpdate(prev.stats, idx, b');
        assert Step(host, ws, prev, row).stats == prev.stats[idx := b'];
      }
    }
  }

  lemma StepCountsRoutes(host: Host, ws: seq<Window>, a: Aggregate, row: EventRow)
    requires |a.stats| == |ws|
    ensures Total(Step(host, ws, a, row).apiRoutes) == Total(a.apiRoutes)
      + (if IsAssigned(host, ws, row) && row.eventName == "request" && IsApiPath(RowPath(host, row)) then 1 else 0)
    ensures Total(Step(host, ws, a, row).pageRoutes) == Total(a.pageRoutes)
      + (if IsAssigned(host, ws, row) && row.eventName == "page-view" && RowPath(host, row).Some? then 1 else 0)
  {
    var idx := Assign(host, ws, row);
    if idx >= 0 {
      var s := Classify(host, row);
      var a0 := a.(stats := a.stats[idx := RecordBucket(a.stats[idx], s)]);
      assert Step(host, ws, a, row) == RecordRoutes(a0, s);
    }
  }

  /** The API route counter counts every `/api` request that lands in some window, once. */
  lemma {:induction false} FoldCountsApiRoutes(host: Host, ws: seq<Window>, a: Aggregate, rows: seq<EventRow>)
    requires |a.stats| == |ws|
    ensures Total(Fold(host, ws, a, rows).apiRoutes) == Total(a.apiRoutes) + ApiRequests(host, ws, rows)
    decreases |rows|
  {
    if rows != [] {
      var init := rows[..|rows| - 1];
      FoldCountsApiRoutes(host, ws, a, init);
      StepCountsRoutes(host, ws, Fold(host, ws, a, init), rows[|rows| - 1]);
    }
  }

  /** The page route counter counts every page view with a path that lands in some window, once. */
  lemma {:induction false} FoldCountsPageViews(host: Host, ws: seq<Window>, a: Aggregate, rows: seq<EventRow>)
    requires |a.stats| == |ws|
    ensures Total(Fold(host, ws, a, rows).pageRoutes) == Total(a.pageRoutes) + PageViews(host, ws, rows)
    decreases |rows|
  {
    if rows != [] {
      var init := rows[..|rows| - 1];
      FoldCountsPageViews(host, ws, a, init);
      StepCountsRoutes(host, ws, Fold(host, ws, a, init), rows[|rows| - 1]);
    }
  }

  /** The number of requests to the API path `p` that land in some window. */
  function ApiRequestsTo(host: Host, ws: seq<Window>, rows: seq<EventRow>, p: string): nat
    decreases |rows|
  {
    if rows == [] then 0
    else
      var last := rows[|rows| - 1];
      ApiRequestsTo(host, ws, rows[..|rows| - 1], p)
        + (if IsAssigned(host, ws, last) && last.eventName == "request" && IsApiPath(RowPath(host, last))
              && RowPath(host, last) == Some(p)
           then 1 else 0)
  }

  /** The number of page views of the path `p` that land in some window. */
  function PageViewsOf(host: Host, ws: seq<Window>, rows: seq<EventRow>, p: string): nat
    decreases |rows|
  {
    if rows == [] then 0
    else
      var last := rows[|rows| - 1];
      PageViewsOf(host, ws, rows[..|rows| - 1], p)
        + (if IsAssigned(host, ws, last) && last.eventName == "page-view" && RowPath(host, last) == Some(p)
           then 1 else 0)
  }

  /**
   * The durations the requests that land in some window carry, in row order:
   * the coerced `props.duration` of each, when it is non-negative.
   */
  function AssignedDurations(host: Host, ws: seq<Window>, rows: seq<EventRow>): seq<real>
    decreases |rows|
  {
    if rows == [] then []
    else
      var last := rows[|rows| - 1];
      AssignedDurations(host, ws, rows[..|rows| - 1])
        + (if IsAssigned(host, ws, last) && last.eventName == "request"
           then Opt(NonNegative(RawDuration(host, last))) else [])
  }

  /** What one row adds to the route counters and to the global duration list. */
  lemma StepPerRoute(host: Host, ws: seq<Window>, a: Aggregate, row: EventRow, p: string)
    requires |a.stats| == |ws|
    ensures CountOf(Step(host, ws, a, row).apiRoutes, p) == CountOf(a.apiRoutes, p)
      + (if IsAssigned(host, ws, row) && row.eventName == "request" && IsApiPath(RowPath(host, row))
            && RowPath(host, row) == Some(p)
         then 1 else 0)
    ensures CountOf(Step(host, ws, a, row).pageRoutes, p) == CountOf(a.pageRoutes, p)
      + (if IsAssigned(host, ws, row) && row.eventName == "page-view" && RowPath(host, row) == Some(p) then 1 else 0)
    ensures Step(host, ws, a, row).globalDurations == a.globalDurations
      + (if IsAssigned(host, ws, row) && row.eventName == "request" then Opt(NonNegative(RawDuration(host, row))) else [])
  {
    if IsAssigned(host, ws, row) {
      var s := Classify(host, row);
      var r := Step(host, ws, a, row);
      assert RangeWideRecorded(a, s, r);
      if row.eventName == "request" {
        assert s.request.path == RowPath(host, row);
        assert s.request.duration == NonNegative(RawDuration(host, row));
        assert ApiPath(s) == if IsApiPath(RowPath(host, row)) then RowPath(host, row) else None;
      } else {
        assert ApiPath(s) == None && SampleDuration(s) == [];
      }
      if row.eventName == "page-view" {
        assert s.path == RowPath(host, row);
        assert PagePath(s) == RowPath(host, row);
      } else {
        assert PagePath(s) == None;
      }
    }
  }

  /** The API route counter counts, under each path, every request to it that lands in some window. */
  lemma {:induction false} FoldApiRoutesPerPath(host: Host, ws: seq<Window>, a: Aggregate, rows: seq<EventRow>, p: string)
    requires |a.stats| == |ws|
    ensures CountOf(Fold(host, ws, a, rows).apiRoutes, p) == CountOf(a.apiRoutes, p) + ApiRequestsTo(host, ws, rows, p)
    decreases |rows|
  {
    if rows != [] {
      var init := rows[..|rows| - 1];
      FoldApiRoutesPerPath(host, ws, a, init, p);
      StepPerRoute(host, ws, Fold(host, ws, a, init), rows[|rows| - 1], p);
    }
  }

  /** The page route counter counts, under each path, every view of it that lands in some window. */
  lemma {:induction false} FoldPageRoutesPerPath(host: Host, ws: seq<Window>, a: Aggregate, rows: seq<EventRow>, p: string)
    requires |a.stats| == |ws|
    ensures CountOf(Fold(host, ws, a, rows).pageRoutes, p) == CountOf(a.pageRoutes, p) + PageViewsOf(host, ws, rows, p)
    decreases |rows|
  {
    if rows != [] {
      var init := rows[..|rows| - 1];
      FoldPageRoutesPerPath(host, ws, a, init, p);
      StepPerRoute(host, ws, Fold(host, ws, a, init), rows[|rows| - 1], p);
    }
  }

  /** The global duration list gains the durations of the assigned requests, in row order. */
  lemma {:induction false} FoldGlobalDurations(host: Host, ws: seq<Window>, a: Aggregate, rows: seq<EventRow>)
    requires |a.stats| == |ws|
    ensures Fold(host, ws, a, rows).globalDurations == a.globalDurations + AssignedDurations(host, ws, rows)
    decreases |rows|
  {
    if rows != [] {
      var init := rows[..|rows| - 1];
      var last := rows[|rows| - 1];
      FoldGlobalDurations(host, ws, a, init);
      StepPerRoute(host, ws, Fold(host, ws, a, init), last, "");
      var extra := if IsAssigned(host, ws, last) && last.eventName == "request"
                   then Opt(NonNegative(RawDuration(host, last))) else [];
      AppendTwice(Fold(host, ws, a, rows).globalDurations, Fold(host, ws, a, init).globalDurations,
                  a.globalDurations, AssignedDurations(host, ws, init), extra);
    }
  }

  /** `${method} ${path ?? "[unknown]"}` of a request row: its key in the slow-request counter. */
  function RowRequestKey(host: Host, row: EventRow): string {
    ToHttpMethod(Get(Props(row), "method")) + " " + RowPath(host, row).GetOr(UnknownName)
  }

  /** The resource entries a row's `props.resources` yields. */
  function RowResources(host: Host, row: EventRow): seq<ResourceEntry> {
    ToResourceSamples(host, Get(Props(row), "resources"))
  }

  /**
   * The durations the requests that land in some window carry under the
   * method-and-path key `k`, in row order.
   */
  function RequestDurationsUnder(host: Host, ws: seq<Window>, rows: seq<EventRow>, k: string): seq<real>
    decreases |rows|
  {
    if rows == [] then []
    else
      var last := rows[|rows| - 1];
      RequestDurationsUnder(host, ws, rows[..|rows| - 1], k)
        + (if IsAssigned(host, ws, last) && last.eventName == "request" && RowRequestKey(host, last) == k
           then Opt(NonNegative(RawDuration(host, last))) else [])
  }

  /** The durations the requests to the API path `p` that land in some window carry, in row order. */
  function ApiDurationsUnder(host: Host, ws: seq<Window>, rows: seq<EventRow>, p: string): seq<real>
    decreases |rows|
  {
    if rows == [] then []
    else
      var last := rows[|rows| - 1];
      ApiDurationsUnder(host, ws, rows[..|rows| - 1], p)
        + (if IsAssigned(host, ws, last) && last.eventName == "request" && IsApiPath(RowPath(host, last))
              && RowPath(host, last) == Some(p)
           then Opt(NonNegative(RawDuration(host, last))) else [])
  }

  /**
   * The durations of the resource entries with key `k` of the resource rows
   * that land in some window, in row order and entry order.
   */
  function ResourceDurationsUnder(host: Host, ws: seq<Window>, rows: seq<EventRow>, k: string): seq<real>
    decreases |rows|
  {
    if rows == [] then []
    else
      var last := rows[|rows| - 1];
      ResourceDurationsUnder(host, ws, rows[..|rows| - 1], k)
        + (if IsAssigned(host, ws, last) && last.eventName == "performance-resource"
           then DurationsWithKey(RowResources(host, last), k) else [])
  }

  /** What one row adds to the slow-request counter under `k`. */
  lemma StepRequestDurations(host: Host, ws: seq<Window>, a: Aggregate, row: EventRow, k: string)
    requires |a.stats| == |ws|
    ensures Lookup(Step(host, ws, a, row).requestDurations, k).GetOr([]) == Lookup(a.requestDurations, k).GetOr([])
      + (if IsAssigned(host, ws, row) && row.eventName == "request" && RowRequestKey(host, row) == k
         then Opt(NonNegative(RawDuration(host, row))) else [])
  {
    if IsAssigned(host, ws, row) {
      var s := Classify(host, row);
      assert RangeWideRecorded(a, s, Step(host, ws, a, row));
      if row.eventName == "request" {
        assert RequestKeyOf(s) == Some(RowRequestKey(host, row));
        assert SampleDuration(s) == Opt(NonNegative(RawDuration(host, row)));
      } else {
        assert RequestKeyOf(s) == None;
      }
    }
  }

  /** What one row adds to the API duration counter under `p`. */
  lemma StepApiDurations(host: Host, ws: seq<Window>, a: Aggregate, row: EventRow, p: string)
    requires |a.stats| == |ws|
    ensures Lookup(Step(host, ws, a, row).apiDurations, p).GetOr([]) == Lookup(a.apiDurations, p).GetOr([])
      + (if IsAssigned(host, ws, row) && row.eventName == "request" && IsApiPath(RowPath(host, row))
            && RowPath(host, row) == Some(p)
         then Opt(NonNegative(RawDuration(host, row))) else [])
  {
    if IsAssigned(host, ws, row) {
      var s := Classify(host, row);
      assert RangeWideRecorded(a, s, Step(host, ws, a, row));
      if row.eventName == "request" {
        assert ApiPath(s) == if IsApiPath(RowPath(host, row)) then RowPath(host, row) else None;
        assert SampleDuration(s) == Opt(NonNegative(RawDuration(host, row)));
      } else {
        assert ApiPath(s) == None;
      }
    }
  }

  /** What one row adds to the resource counter under `k`. */
  lemma StepResourceDurations(host: Host, ws: seq<Window>, a: Aggregate, row: EventRow, k: string)
    requires |a.stats| == |ws|
    ensures ResourceDurationsOf(Step(host, ws, a, row).resources, k) == ResourceDurationsOf(a.resources, k)
      + (if IsAssigned(host, ws, row) && row.eventName == "performance-resource"
         then DurationsWithKey(RowResources(host, row), k) else [])
  {
    if IsAssigned(host, ws, row) {
      var s := Classify(host, row);
      assert RangeWideRecorded(a, s, Step(host, ws, a, row));
      if row.eventName != "performance-resource" {
        assert ResourceDurationsOf(a.resources, k) + DurationsWithKey([], k) == ResourceDurationsOf(a.resources, k);
      }
    }
  }

  /** The slow-request counter gains, under each key, the durations of the assigned requests filed under it. */
  lemma {:induction false} FoldRequestDurations(host: Host, ws: seq<Window>, a: Aggregate, rows: seq<EventRow>, k: string)
    requires |a.stats| == |ws|
    ensures Lookup(Fold(host, ws, a, rows).requestDurations, k).GetOr([])
      == Lookup(a.requestDurations, k).GetOr([]) + RequestDurationsUnder(host, ws, rows, k)
    decreases |rows|
  {
    if rows != [] {
      var init := rows[..|rows| - 1];
      var last := rows[|rows| - 1];
      FoldRequestDurations(host, ws, a, init, k);
      StepRequestDurations(host, ws, Fold(host, ws, a, init), last, k);
      var extra := if IsAssigned(host, ws, last) && last.eventName == "request" && RowRequestKey(host, last) == k
                   then Opt(NonNegative(RawDuration(host, last))) else [];
      AppendTwice(Lookup(Fold(host, ws, a, rows).requestDurations, k).GetOr([]),
                  Lookup(Fold(host, ws, a, init).requestDurations, k).GetOr([]),
                  Lookup(a.requestDurations, k).GetOr([]), RequestDurationsUnder(host, ws, init, k), extra);
    }
  }

  /** The API duration counter gains, under each path, the durations of the assigned requests to it. */
  lemma {:induction false} FoldApiDurations(host: Host, ws: seq<Window>, a: Aggregate, rows: seq<EventRow>, p: string)
    requires |a.stats| == |ws|
    ensures Lookup(Fold(host, ws, a, rows).apiDurations, p).GetOr([])
      == Lookup(a.apiDurations, p).GetOr([]) + ApiDurationsUnder(host, ws, rows, p)
    decreases |rows|
  {
    if rows != [] {
      var init := rows[..|rows| - 1];
      var last := rows[|rows| - 1];
      FoldApiDurations(host, ws, a, init, p);
      StepApiDurations(host, ws, Fold(host, ws, a, init), last, p);
      var extra := if IsAssigned(host, ws, last) && last.eventName == "request" && IsApiPath(RowPath(host, last))
                      && RowPath(host, last) == Some(p)
                   then Opt(NonNegative(RawDuration(host, last))) else [];
      AppendTwice(Lookup(Fold(host, ws, a, rows).apiDurations, p).GetOr([]),
                  Lookup(Fold(host, ws, a, init).apiDurations, p).GetOr([]),
                  Lookup(a.apiDurations, p).GetOr([]), ApiDurationsUnder(host, ws, init, p), extra);
    }
  }

  /** The resource counter gains, under each key, the durations of the assigned rows' entries with that key. */
  lemma {:induction false} FoldResourceDurations(host: Host, ws: seq<Window>, a: Aggregate, rows: seq<EventRow>, k: string)
    requires |a.stats| == |ws|
    ensures ResourceDurationsOf(Fold(host, ws, a, rows).resources, k)
      == ResourceDurationsOf(a.resources, k) + ResourceDurationsUnder(host, ws, rows, k)
    decreases |rows|
  {
    if rows != [] {
      var init := rows[..|rows| - 1];
      var last := rows[|rows| - 1];
      FoldResourceDurations(host, ws, a, init, k);
      StepResourceDurations(host, ws, Fold(host, ws, a, init), last, k);
      var extra := if IsAssigned(host, ws, last) && last.eventName == "performance-resource"
                   then DurationsWithKey(RowResources(host, last), k) else [];
      AppendTwice(ResourceDurationsOf(Fold(host, ws, a, rows).resources, k),
                  ResourceDurationsOf(Fold(host, ws, a, init).resources, k),
                  ResourceDurationsOf(a.resources, k), ResourceDurationsUnder(host, ws, init, k), extra);
    }
  }

  /** The rows that land in some window, in their original order. */
  function AssignedRows(host: Host, ws: seq<Window>, rows: seq<EventRow>): (r: seq<EventRow>)
    ensures |r| <= |rows|
    ensures forall row :: row in r ==> row in rows && IsAssigned(host, ws, row)
    decreases |rows|
  {
    if rows == [] then []
    else
      var last := rows[|rows| - 1];
      AssignedRows(host, ws, rows[..|rows| - 1]) + (if IsAssigned(host, ws, last) then [last] else [])
  }

  lemma FoldAppend(host: Host, ws: seq<Window>, a: Aggregate, rows: seq<EventRow>, row: EventRow)
    ensures Fold(host, ws, a, rows + [row]) == Step(host, ws, Fold(host, ws, a, rows), row)
  {
    assert (rows + [row])[..|rows|] == rows;
  }

  /** A row whose time does not parse or precedes the first window leaves the state unchanged. */
  lemma {:induction false} FoldSkipsUnassigned(host: Host, ws: seq<Window>, a: Aggregate, rows: seq<EventRow>)
    ensures Fold(host, ws, a, rows) == Fold(host, ws, a, AssignedRows(host, ws, rows))
    decreases |rows|
  {
    if rows != [] {
      var init := rows[..|rows| - 1];
      var last := rows[|rows| - 1];
      FoldSkipsUnassigned(host, ws, a, init);
      if IsAssigned(host, ws, last) {
        FoldAppend(host, ws, a, AssignedRows(host, ws, init), last);
      } else {
        assert AssignedRows(host, ws, rows) == AssignedRows(host, ws, init) + [];
        assert AssignedRows(host, ws, init) + [] == AssignedRows(host, ws, init);
      }
    }
  }

  /** A row whose time parses to an instant inside the query range always lands in a window. */
  lemma InRangeRowAssigned(host: Host, from: int, to: int, row: EventRow)
    requires host.dateMs(row.occurredAt).Some?
    requires from <= host.dateMs(row.occurredAt).value <= to
    ensures IsAssigned(host, BuildWindows(host, from, to), row)
  {
    InRangeAssigned(host, from, to, host.dateMs(row.occurredAt).value);
  }

  lemma {:induction false} ErrorsWithinRequests(stats: seq<WindowStats>)
    requires forall i :: 0 <= i < |stats| ==> BucketOk(stats[i])
    ensures SumErrors(stats) <= SumRequests(stats)
  {
    if stats != [] {
      ErrorsWithinRequests(stats[1..]);
    }
  }

  /**
   * The buckets of `aggregateRows`: one per window, labelled with the
   * window's ISO start, each counting exactly the requests (and the failed
   * requests) that fall into its window.
   */
  lemma AggregateRowsPerWindow(host: Host, rows: seq<EventRow>, from: int, to: int)
    ensures var ws := BuildWindows(host, from, to); var a := AggregateRows(host, rows, from, to);
      && |a.stats| == |ws|
      && (forall i :: 0 <= i < |ws| ==> a.stats[i].isoLabel == host.isoString(ws[i].start))
      && (forall i :: 0 <= i < |ws| ==>
            a.stats[i].requestCount == RequestsAt(host, ws, rows, i)
            && a.stats[i].errorCount == ErrorsAt(host, ws, rows, i))
  {
    var ws := BuildWindows(host, from, to);
    var e := EmptyAggregate(ws);
    forall i | 0 <= i < |ws|
      ensures AggregateRows(host, rows, from, to).stats[i].requestCount == RequestsAt(host, ws, rows, i)
      ensures AggregateRows(host, rows, from, to).stats[i].errorCount == ErrorsAt(host, ws, rows, i)
    {
      FoldCountsPerWindow(host, ws, e, rows, i);
    }
  }

  /**
   * The totals of `aggregateRows`: the buckets together count every request
   * that lands in some window and never more errors than requests; the route
   * counters count every API request and every page view that lands in some
   * window.
   */
  lemma AggregateRowsCounts(host: Host, rows: seq<EventRow>, from: int, to: int)
    ensures var ws := BuildWindows(host, from, to); var a := AggregateRows(host, rows, from, to);
      && SumRequests(a.stats) == AssignedRequests(host, ws, rows)
      && SumErrors(a.stats) <= SumRequests(a.stats)
      && Total(a.apiRoutes) == ApiRequests(host, ws, rows)
      && Total(a.pageRoutes) == PageViews(host, ws, rows)
      && (forall p :: CountOf(a.apiRoutes, p) == ApiRequestsTo(host, ws, rows, p))
      && (forall p :: CountOf(a.pageRoutes, p) == PageViewsOf(host, ws, rows, p))
      && a.globalDurations == AssignedDurations(host, ws, rows)
      && (forall k :: Lookup(a.requestDurations, k).GetOr([]) == RequestDurationsUnder(host, ws, rows, k))
      && (forall p :: Lookup(a.apiDurations, p).GetOr([]) == ApiDurationsUnder(host, ws, rows, p))
      && (forall k :: ResourceDurationsOf(a.resources, k) == ResourceDurationsUnder(host, ws, rows, k))
  {
    var ws := BuildWindows(host, from, to);
    var e := EmptyAggregate(ws);
    EmptyStatsZero(e.stats);
    FoldCountsTotal(host, ws, e, rows);
    FoldCountsApiRoutes(host, ws, e, rows);
    FoldCountsPageViews(host, ws, e, rows);
    ErrorsWithinRequests(AggregateRows(host, rows, from, to).stats);
    FoldGlobalDurations(host, ws, e, rows);
    AggregateRowsPerRoute(host, rows, from, to);
    AggregateRowsDurations(host, rows, from, to);
  }

  /**
   * The keyed duration counters of `aggregateRows`: under each key, exactly
   * the durations the rows that land in some window file under it, in row
   * order.
   */
  lemma AggregateRowsDurations(host: Host, rows: seq<EventRow>, from: int, to: int)
    ensures var ws := BuildWindows(host, from, to); var a := AggregateRows(host, rows, from, to);
      && (forall k :: Lookup(a.requestDurations, k).GetOr([]) == RequestDurationsUnder(host, ws, rows, k))
      && (forall p :: Lookup(a.apiDurations, p).GetOr([]) == ApiDurationsUnder(host, ws, rows, p))
      && (forall k :: ResourceDurationsOf(a.resources, k) == ResourceDurationsUnder(host, ws, rows, k))
  {
    var ws := BuildWindows(host, from, to);
    var e := EmptyAggregate(ws);
    forall k
      ensures Lookup(AggregateRows(host, rows, from, to).requestDurations, k).GetOr([]) == RequestDurationsUnder(host, ws, rows, k)
      ensures Lookup(AggregateRows(host, rows, from, to).apiDurations, k).GetOr([]) == ApiDurationsUnder(host, ws, rows, k)
      ensures ResourceDurationsOf(AggregateRows(host, rows, from, to).resources, k) == ResourceDurationsUnder(host, ws, rows, k)
    {
      FoldRequestDurations(host, ws, e, rows, k);
      FoldApiDurations(host, ws, e, rows, k);
      FoldResourceDurations(host, ws, e, rows, k);
    }
  }

  lemma AggregateRowsPerRoute(host: Host, rows: seq<EventRow>, from: int, to: int)
    ensures var ws := BuildWindows(host, from, to); var a := AggregateRows(host, rows, from, to);
      && (forall p :: CountOf(a.apiRoutes, p) == ApiRequestsTo(host, ws, rows, p))
      && (forall p :: CountOf(a.pageRoutes, p) == PageViewsOf(host, ws, rows, p))
  {
    var ws := BuildWindows(host, from, to);
    var e := EmptyAggregate(ws);
    forall p
      ensures CountOf(AggregateRows(host, rows, from, to).apiRoutes, p) == ApiRequestsTo(host, ws, rows, p)
      ensures CountOf(AggregateRows(host, rows, from, to).pageRoutes, p) == PageViewsOf(host, ws, rows, p)
    {
      FoldApiRoutesPerPath(host, ws, e, rows, p);
      FoldPageRoutesPerPath(host, ws, e, rows, p);
    }
  }
}
