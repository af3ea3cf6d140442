/**
 * JavaScript records used as keyed accumulators (`Record<string, V>`): an
 * entry list in first-insertion order with distinct keys, which is also the
 * order `Object.entries` / `Object.values` enumerate them in.
 */
module Keyed {
  import opened Optional

  /** One own property of a record. */
  datatype Entry<V> = Entry(key: string, value: V)

  predicate DistinctKeys<V>(es: seq<Entry<V>>) {
    forall i, j :: 0 <= i < j < |es| ==> es[i].key != es[j].key
  }

  function Keys<V>(es: seq<Entry<V>>): (ks: seq<string>)
    ensures |ks| == |es| && forall i :: 0 <= i < |es| ==> ks[i] == es[i].key
  {
    if es == [] then [] else [es[0].key] + Keys(es[1..])
  }

  /** The position of key `k`, or -1 when the record has no such property. */
  function IndexOf<V>(es: seq<Entry<V>>, k: string): (i: int)
    ensures -1 <= i < |es|
    ensures i >= 0 ==> es[i].key == k
    ensures i < 0 <==> k !in Keys(es)
    ensures forall j :: 0 <= j < i ==> es[j].key != k
  {
    if es == [] then -1
    else if es[0].key == k then 0
    else
      var j := IndexOf(es[1..], k);
      assert Keys(es) == [es[0].key] + Keys(es[1..]);
      if j < 0 then -1 else j + 1
  }

  /** `record[k]`: the value stored under `k`, or undefined. */
  function Lookup<V>(es: seq<Entry<V>>, k: string): (r: Option<V>)
    ensures r.Some? <==> k in Keys(es)
  {
    var i := IndexOf(es, k);
    if i >= 0 then Some(es[i].value) else None
  }

  /** In a record with distinct keys, each entry is what its own key looks up. */
  lemma LookupAt<V>(es: seq<Entry<V>>, i: int)
    requires DistinctKeys(es) && 0 <= i < |es|
    ensures Lookup(es, es[i].key) == Some(es[i].value)
  {
    var j := IndexOf(es, es[i].key);
    assert es[i].key in Keys(es);
    assert j == i;
  }

  /**
   * `record[k] = v`: an existing property keeps its place, a new one is
   * appended, and every other property is untouched.
   */
  function Put<V>(es: seq<Entry<V>>, k: string, v: V): (r: seq<Entry<V>>)
    ensures Lookup(r, k) == Some(v)
    ensures forall k' :: k' != k ==> Lookup(r, k') == Lookup(es, k')
    ensures Keys(r) == if k in Keys(es) then Keys(es) else Keys(es) + [k]
    ensures DistinctKeys(es) ==> DistinctKeys(r)
  {
    var i := IndexOf(es, k);
    if i >= 0 then
      PutExistingLookup(es, i, k, v);
      PutExistingKeys(es, i, k, v);
      es[i := Entry(k, v)]
    else
      PutNewLookup(es, k, v);
      PutNewKeys(es, k, v);
      es + [Entry(k, v)]
  }

  lemma PutExistingLookup<V>(es: seq<Entry<V>>, i: int, k: string, v: V)
    requires i == IndexOf(es, k) && i >= 0
    ensures Lookup(es[i := Entry(k, v)], k) == Some(v)
    ensures forall k' :: k' != k ==> Lookup(es[i := Entry(k, v)], k') == Lookup(es, k')
  {
    var r := es[i := Entry(k, v)];
    forall k' | k' != k ensures IndexOf(r, k') == IndexOf(es, k') {
      PutPreservesIndex(es, i, k, v, k');
    }
    IndexOfFirst(r, k, i);
  }

  /** The first position holding `k` is the index of `k`. */
  lemma IndexOfFirst<V>(es: seq<Entry<V>>, k: string, i: int)
    requires 0 <= i < |es| && es[i].key == k
    requires forall j :: 0 <= j < i ==> es[j].key != k
    ensures IndexOf(es, k) == i
  {
    assert Keys(es)[i] == k;
  }

  lemma PutExistingKeys<V>(es: seq<Entry<V>>, i: int, k: string, v: V)
    requires i == IndexOf(es, k) && i >= 0
    ensures Keys(es[i := Entry(k, v)]) == Keys(es)
    ensures DistinctKeys(es) ==> DistinctKeys(es[i := Entry(k, v)])
  {
    var r := es[i := Entry(k, v)];
    assert Keys(r) == Keys(es);
  }

  lemma PutNewLookup<V>(es: seq<Entry<V>>, k: string, v: V)
    requires IndexOf(es, k) < 0
    ensures Lookup(es + [Entry(k, v)], k) == Some(v)
    ensures forall k' :: k' != k ==> Lookup(es + [Entry(k, v)], k') == Lookup(es, k')
  {
    var r := es + [Entry(k, v)];
    forall k' | k' != k ensures IndexOf(r, k') == IndexOf(es, k') {
      AppendPreservesIndex(es, Entry(k, v), k');
    }
    AppendIndex(es, Entry(k, v));
  }

  lemma PutNewKeys<V>(es: seq<Entry<V>>, k: string, v: V)
    requires IndexOf(es, k) < 0
    ensures Keys(es + [Entry(k, v)]) == Keys(es) + [k]
    ensures DistinctKeys(es) ==> DistinctKeys(es + [Entry(k, v)])
  {
    var r := es + [Entry(k, v)];
    assert Keys(r) == Keys(es) + [k];
    forall i | 0 <= i < |es| ensures es[i].key != k {
      assert es[i].key == Keys(es)[i];
    }
  }

  lemma {:induction false} PutPreservesIndex<V>(es: seq<Entry<V>>, i: int, k: string, v: V, k': string)
    requires 0 <= i < |es| && es[i].key == k && k' != k
    ensures IndexOf(es[i := Entry(k, v)], k') == IndexOf(es, k')
  {
    if i > 0 {
      PutPreservesIndex(es[1..], i - 1, k, v, k');
      assert es[i := Entry(k, v)][1..] == es[1..][i - 1 := Entry(k, v)];
    }
  }

  lemma {:induction false} AppendPreservesIndex<V>(es: seq<Entry<V>>, e: Entry<V>, k': string)
    requires k' != e.key
    ensures IndexOf(es + [e], k') == IndexOf(es, k')
  {
    if es != [] {
      AppendPreservesIndex(es[1..], e, k');
      assert (es + [e])[1..] == es[1..] + [e];
    }
  }

  lemma {:induction false} AppendIndex<V>(es: seq<Entry<V>>, e: Entry<V>)
    requires e.key !in Keys(es)
    ensures IndexOf(es + [e], e.key) == |es|
  {
    if es != [] {
      assert Keys(es) == [es[0].key] + Keys(es[1..]);
      AppendIndex(es[1..], e);
      assert (es + [e])[1..] == es[1..] + [e];
    }
  }

  /**
   * `after` is the counter `before` with one more count under `key` when
   * there is a key, and with every other count unchanged; a missing property
   * counts as 0. A property is added only for the key counted, and then
   * after every existing one.
   */
  ghost predicate CountedUnder(before: seq<Entry<nat>>, after: seq<Entry<nat>>, key: Option<string>) {
    && CountsUnder(before, after, key)
    && Keys(after) == Keys(before) + Added(Keys(before), key)
  }

  /** The per-key half of `CountedUnder`. */
  ghost predicate CountsUnder(before: seq<Entry<nat>>, after: seq<Entry<nat>>, key: Option<string>) {
    forall k ::
      && Lookup(after, k).GetOr(0) == Lookup(before, k).GetOr(0) + (if key == Some(k) then 1 else 0)
      && (Lookup(after, k).Some? <==> Lookup(before, k).Some? || key == Some(k))
  }

  /** The key a write under `key` appends to the keys `ks`: the key itself when it is new. */
  function Added(ks: seq<string>, key: Option<string>): seq<string> {
    if key.Some? && key.value !in ks then [key.value] else []
  }

  /**
   * `after` is the record of sample lists `before` with `ds` appended under
   * `key` when there is a key, and with every other list unchanged; a missing
   * property holds no samples. A property is added only for the key, only
   * when there is something to append, and then after every existing one.
   */
  ghost predicate AppendedUnder(before: seq<Entry<seq<real>>>, after: seq<Entry<seq<real>>>, key: Option<string>, ds: seq<real>) {
    && AppendsUnder(before, after, key, ds)
    && Keys(after) == Keys(before) + Added(Keys(before), if ds != [] then key else None)
  }

  /** The per-key half of `AppendedUnder`. */
  ghost predicate AppendsUnder(before: seq<Entry<seq<real>>>, after: seq<Entry<seq<real>>>, key: Option<string>, ds: seq<real>) {
    forall k ::
      && Lookup(after, k).GetOr([]) == Lookup(before, k).GetOr([]) + (if key == Some(k) then ds else [])
      && (Lookup(after, k).Some? <==> Lookup(before, k).Some? || (key == Some(k) && ds != []))
  }

  lemma NothingCounted(es: seq<Entry<nat>>)
    ensures CountedUnder(es, es, None)
  {
  }

  lemma NothingAppended(es: seq<Entry<seq<real>>>, key: Option<string>)
    ensures AppendedUnder(es, es, key, [])
  {
  }

  lemma NoKeyAppended(es: seq<Entry<seq<real>>>, ds: seq<real>)
    ensures AppendedUnder(es, es, None, ds)
  {
  }

  /** The count a counter record holds under `k`; a missing property counts as 0. */
  function CountOf(es: seq<Entry<nat>>, k: string): nat {
    Lookup(es, k).GetOr(0)
  }

  /** The sum of all counts of a counter record. */
  function Total(es: seq<Entry<nat>>): nat {
    if es == [] then 0 else es[0].value + Total(es[1..])
  }

  /** `counter[k] = (counter[k] ?? 0) + 1`. */
  function Increment(es: seq<Entry<nat>>, k: string): (r: seq<Entry<nat>>)
    ensures Lookup(r, k).Some? && Lookup(r, k).value == CountOf(es, k) + 1
    ensures forall k' :: k' != k ==> Lookup(r, k') == Lookup(es, k')
    ensures Total(r) == Total(es) + 1
    ensures DistinctKeys(es) ==> DistinctKeys(r)
    ensures CountedUnder(es, r, Some(k))
  {
    PutIncrement(es, k);
    Put(es, k, CountOf(es, k) + 1)
  }

  lemma PutIncrement(es: seq<Entry<nat>>, k: string)
    ensures var r := Put(es, k, CountOf(es, k) + 1);
      && Total(r) == Total(es) + 1
      && CountedUnder(es, r, Some(k))
  {
    PutTotal(es, k, CountOf(es, k) + 1);
    PutCounted(es, k);
  }

  lemma PutCounted(es: seq<Entry<nat>>, k: string)
    ensures CountedUnder(es, Put(es, k, CountOf(es, k) + 1), Some(k))
  {
    PutCounts(es, k);
    PutKeys(es, k, CountOf(es, k) + 1);
  }

  lemma PutCounts(es: seq<Entry<nat>>, k: string)
    ensures CountsUnder(es, Put(es, k, CountOf(es, k) + 1), Some(k))
  {
    forall k' {
      PutCountsAt(es, k, k');
    }
  }

  lemma PutCountsAt(es: seq<Entry<nat>>, k: string, k': string)
    ensures
      var r := Put(es, k, CountOf(es, k) + 1);
      && Lookup(r, k').GetOr(0) == Lookup(es, k').GetOr(0) + (if Some(k) == Some(k') then 1 else 0)
      && (Lookup(r, k').Some? <==> Lookup(es, k').Some? || Some(k) == Some(k'))
  {
    PutAt(es, k, CountOf(es, k) + 1, k');
  }

  /** What `record[k] = v` leaves under any one key. */
  lemma PutAt<V>(es: seq<Entry<V>>, k: string, v: V, k': string)
    ensures Lookup(Put(es, k, v), k') == if k' == k then Some(v) else Lookup(es, k')
  {
  }

  /** `record[k] = v` appends `k` to the keys exactly when it is new. */
  lemma PutKeys<V>(es: seq<Entry<V>>, k: string, v: V)
    ensures Keys(Put(es, k, v)) == Keys(es) + Added(Keys(es), Some(k))
  {
    if k in Keys(es) {
      assert Keys(es) + [] == Keys(es);
    }
  }

  lemma PutTotal(es: seq<Entry<nat>>, k: string, c: nat)
    ensures Total(Put(es, k, c)) == Total(es) - Lookup(es, k).GetOr(0) + c
  {
    var i := IndexOf(es, k);
    if i >= 0 {
      TotalUpdate(es, i, c);
    } else {
      TotalAppend(es, Entry(k, c));
    }
  }

  lemma {:induction false} TotalUpdate(es: seq<Entry<nat>>, i: int, c: nat)
    requires 0 <= i < |es|
    ensures Total(es[i := Entry(es[i].key, c)]) == Total(es) - es[i].value + c
  {
    if i > 0 {
      TotalUpdate(es[1..], i - 1, c);
      assert es[i := Entry(es[i].key, c)][1..] == es[1..][i - 1 := Entry(es[i].key, c)];
    }
  }

  lemma {:induction false} TotalAppend(es: seq<Entry<nat>>, e: Entry<nat>)
    ensures Total(es + [e]) == Total(es) + e.value
  {
    if es != [] {
      TotalAppend(es[1..], e);
      assert (es + [e])[1..] == es[1..] + [e];
    }
  }

  /** The number of samples held by a record of sample lists. */
  function SampleCount(es: seq<Entry<seq<real>>>): nat {
    if es == [] then 0 else |es[0].value| + SampleCount(es[1..])
  }

  /** Every sample held by a record of sample lists is non-negative. */
  predicate AllNonNegative(es: seq<Entry<seq<real>>>) {
    forall i, j :: 0 <= i < |es| && 0 <= j < |es[i].value| ==> es[i].value[j] >= 0.0
  }

  /**
   * `const current = record[k] ?? { durations: [] }; current.durations.push(d)`:
   * appends one sample under `k`.
   */
  function PushSample(es: seq<Entry<seq<real>>>, k: string, d: real): (r: seq<Entry<seq<real>>>)
    ensures Lookup(r, k).Some? && Lookup(r, k).value == Lookup(es, k).GetOr([]) + [d]
    ensures forall k' :: k' != k ==> Lookup(r, k') == Lookup(es, k')
    ensures SampleCount(r) == SampleCount(es) + 1
    ensures DistinctKeys(es) ==> DistinctKeys(r)
    ensures AllNonNegative(es) && d >= 0.0 ==> AllNonNegative(r)
    ensures AppendedUnder(es, r, Some(k), [d])
  {
    var current := Lookup(es, k).GetOr([]);
    PutSampleCount(es, k, current + [d]);
    PushSampleNonNegative(es, k, d);
    PutAppended(es, k, d);
    Put(es, k, current + [d])
  }

  lemma PutAppended(es: seq<Entry<seq<real>>>, k: string, d: real)
    ensures AppendedUnder(es, Put(es, k, Lookup(es, k).GetOr([]) + [d]), Some(k), [d])
  {
    PutAppends(es, k, d);
    PutKeys(es, k, Lookup(es, k).GetOr([]) + [d]);
    assert (if [d] != [] then Some(k) else None) == Some(k);
  }

  lemma PutAppends(es: seq<Entry<seq<real>>>, k: string, d: real)
    ensures AppendsUnder(es, Put(es, k, Lookup(es, k).GetOr([]) + [d]), Some(k), [d])
  {
    forall k' {
      PutAppendsAt(es, k, d, k');
    }
  }

  lemma PutAppendsAt(es: seq<Entry<seq<real>>>, k: string, d: real, k': string)
    ensures
      var r := Put(es, k, Lookup(es, k).GetOr([]) + [d]);
      && Lookup(r, k').GetOr([]) == Lookup(es, k').GetOr([]) + (if Some(k) == Some(k') then [d] else [])
      && (Lookup(r, k').Some? <==> Lookup(es, k').Some? || (Some(k) == Some(k') && [d] != []))
  {
    PutAt(es, k, Lookup(es, k).GetOr([]) + [d], k');
    if k' != k {
      assert Lookup(es, k').GetOr([]) + [] == Lookup(es, k').GetOr([]);
    }
  }

  lemma PushSampleNonNegative(es: seq<Entry<seq<real>>>, k: string, d: real)
    ensures AllNonNegative(es) && d >= 0.0 ==> AllNonNegative(Put(es, k, Lookup(es, k).GetOr([]) + [d]))
  {
    var v := Lookup(es, k).GetOr([]) + [d];
    if AllNonNegative(es) && d >= 0.0 {
      LookupNonNegative(es, k);
      assert forall j :: 0 <= j < |v| ==> v[j] >= 0.0;
      PutAllSamples(es, k, v);
    }
  }

  lemma LookupNonNegative(es: seq<Entry<seq<real>>>, k: string)
    ensures AllNonNegative(es) ==> forall j :: 0 <= j < |Lookup(es, k).GetOr([])| ==> Lookup(es, k).GetOr([])[j] >= 0.0
  {
    var i := IndexOf(es, k);
    if i >= 0 {
      assert Lookup(es, k).GetOr([]) == es[i].value;
    }
  }

  lemma PutSampleCount(es: seq<Entry<seq<real>>>, k: string, v: seq<real>)
    ensures SampleCount(Put(es, k, v)) == SampleCount(es) - |Lookup(es, k).GetOr([])| + |v|
  {
    var i := IndexOf(es, k);
    if i >= 0 {
      SampleCountUpdate(es, i, v);
    } else {
      SampleCountAppend(es, Entry(k, v));
    }
  }

  lemma PutAllSamples(es: seq<Entry<seq<real>>>, k: string, v: seq<real>)
    ensures AllNonNegative(es) && (forall j :: 0 <= j < |v| ==> v[j] >= 0.0) ==>
      AllNonNegative(Put(es, k, v))
  {
    var i := IndexOf(es, k);
    if AllNonNegative(es) && (forall j :: 0 <= j < |v| ==> v[j] >= 0.0) {
      var r := Put(es, k, v);
      if i >= 0 {
        assert r == es[i := Entry(k, v)];
      } else {
        assert r == es + [Entry(k, v)];
      }
      forall a, b | 0 <= a < |r| && 0 <= b < |r[a].value| ensures r[a].value[b] >= 0.0 {
        if a != i && a < |es| {
          assert r[a] == es[a];
        }
      }
    }
  }

  lemma {:induction false} SampleCountUpdate(es: seq<Entry<seq<real>>>, i: int, v: seq<real>)
    requires 0 <= i < |es|
    ensures SampleCount(es[i := Entry(es[i].key, v)]) == SampleCount(es) - |es[i].value| + |v|
  {
    if i > 0 {
      SampleCountUpdate(es[1..], i - 1, v);
      assert es[i := Entry(es[i].key, v)][1..] == es[1..][i - 1 := Entry(es[i].key, v)];
    }
  }

  lemma {:induction false} SampleCountAppend(es: seq<Entry<seq<real>>>, e: Entry<seq<real>>)
    ensures SampleCount(es + [e]) == SampleCount(es) + |e.value|
  {
    if es != [] {
      SampleCountAppend(es[1..], e);
      assert (es + [e])[1..] == es[1..] + [e];
    }
  }
}
