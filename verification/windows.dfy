/**
 * The window builder: the choice of hourly or daily granularity, local-time
 * alignment, the contiguous list of aligned windows spanning a query range,
 * and the lookup of the window a timestamp falls into.
 */
module Windows {
  import opened Js

  const HourMs: int := 60 * 60 * 1000
  const DayMs: int := 24 * HourMs
  /** Ranges longer than this are bucketed by day. */
  const DayWindowThresholdMs: int := 48 * HourMs

  datatype Granularity = Hour | Day

  /** `resolveWindowGranularity`: daily windows exactly when the range is longer than 48 hours. */
  function ResolveWindowGranularity(from: int, to: int): (g: Granularity)
    ensures g == Day <==> to - from > DayWindowThresholdMs
  {
    var durationMs := if to - from > 0 then to - from else 0;
    if durationMs > DayWindowThresholdMs then Day else Hour
  }

  function StepMs(g: Granularity): (r: int)
    ensures r == HourMs || r == DayMs
  {
    if g == Day then DayMs else HourMs
  }

  // Integer facts about a positive divisor, kept apart so that each proof sees one of them.

  lemma DivMod(x: int, d: int)
    requires d > 0
    ensures x == d * (x / d) + x % d
    ensures 0 <= x % d < d
  {
  }

  lemma MulMonotone(a: int, b: int, d: int)
    requires d > 0 && a <= b
    ensures d * a <= d * b
  {
  }

  lemma MulStrict(a: int, b: int, d: int)
    requires d > 0 && a < b
    ensures d * a < d * b
  {
  }

  lemma DivMonotone(a: int, b: int, d: int)
    requires d > 0 && a <= b
    ensures a / d <= b / d
  {
    DivMod(a, d);
    DivMod(b, d);
    if a / d > b / d {
      MulMonotone(b / d + 1, a / d, d);
    }
  }

  lemma DivOfMultiple(k: int, d: int)
    requires d > 0
    ensures (d * k) / d == k
    ensures (d * k) % d == 0
  {
    DivMod(d * k, d);
    var q := (d * k) / d;
    if q < k {
      MulMonotone(q + 1, k, d);
    }
    if q > k {
      MulMonotone(k + 1, q, d);
    }
  }

  /**
   * `setMinutes(0, 0, 0)` / `setHours(0, 0, 0, 0)`: the start of the local
   * hour or day containing `t`, where local time is `t + offset`.
   */
  function AlignDown(t: int, step: int, offset: int): (r: int)
    requires step > 0
    ensures r <= t < r + step
  {
    DivMod(t + offset, step);
    t - (t + offset) % step
  }

  /** The number of whole local steps before `t`: the grid line `AlignDown` lands on. */
  function GridIndex(t: int, step: int, offset: int): int
    requires step > 0
  {
    (t + offset) / step
  }

  /** An aligned instant is a whole number of steps from the local epoch. */
  lemma AlignDownOnGrid(t: int, step: int, offset: int)
    requires step > 0
    ensures AlignDown(t, step, offset) == step * GridIndex(t, step, offset) - offset
  {
    DivMod(t + offset, step);
  }

  /** An aligned instant falls on a local step boundary: midnight or the top of the hour. */
  lemma AlignDownAligned(t: int, step: int, offset: int)
    requires step > 0
    ensures (AlignDown(t, step, offset) + offset) % step == 0
  {
    AlignDownOnGrid(t, step, offset);
    DivOfMultiple(GridIndex(t, step, offset), step);
  }

  /** Alignment never reverses the order of two instants. */
  lemma AlignDownMonotone(t1: int, t2: int, step: int, offset: int)
    requires step > 0 && t1 <= t2
    ensures GridIndex(t1, step, offset) <= GridIndex(t2, step, offset)
    ensures AlignDown(t1, step, offset) <= AlignDown(t2, step, offset)
  {
    DivMonotone(t1 + offset, t2 + offset, step);
    MulMonotone(GridIndex(t1, step, offset), GridIndex(t2, step, offset), step);
    AlignDownOnGrid(t1, step, offset);
    AlignDownOnGrid(t2, step, offset);
  }

  /** One aligned window: its start instant and its ISO-8601 label. */
  datatype Window = Window(start: int, isoLabel: string)

  /** The `for (ts = start; ts <= end; ts += step)` loop of `buildWindows`. */
  function Starts(ts: int, end: int, step: int): seq<int>
    requires step > 0
    decreases end - ts
  {
    if ts > end then [] else [ts] + Starts(ts + step, end, step)
  }

  /** From `ts` to `ts + k * step` the loop emits `k + 1` instants, one step apart. */
  lemma {:induction false} StartsShape(ts: int, k: nat, step: int)
    requires step > 0
    ensures |Starts(ts, ts + k * step, step)| == k + 1
    ensures forall i :: 0 <= i <= k ==> Starts(ts, ts + k * step, step)[i] == ts + i * step
    decreases k
  {
    var end := ts + k * step;
    MulMonotone(0, k, step);
    if k > 0 {
      assert end == (ts + step) + (k - 1) * step;
      StartsShape(ts + step, k - 1, step);
      var rest := Starts(ts + step, end, step);
      assert Starts(ts, end, step) == [ts] + rest;
      forall i | 1 <= i <= k
        ensures Starts(ts, end, step)[i] == ts + i * step
      {
        assert Starts(ts, end, step)[i] == rest[i - 1] == (ts + step) + (i - 1) * step;
      }
    } else {
      assert Starts(ts + step, end, step) == [];
    }
  }

  /** Consecutive windows are exactly one step apart. */
  predicate Contiguous(ws: seq<Window>, step: int) {
    forall i :: 0 <= i < |ws| - 1 ==> ws[i + 1].start == ws[i].start + step
  }

  /** The windows start at `first` and advance by `step`. */
  predicate Arithmetic(ws: seq<Window>, first: int, step: int) {
    forall i :: 0 <= i < |ws| ==> ws[i].start == first + i * step
  }

  /** The step of the windows `buildWindows` produces for a range. */
  function RangeStep(from: int, to: int): (r: int)
    ensures r > 0
  {
    StepMs(ResolveWindowGranularity(from, to))
  }

  /**
   * `buildWindows`: one window per step from the aligned start of `from`
   * through the aligned start of `to`, inclusive, each labelled by its ISO
   * timestamp.
   */
  function BuildWindows(host: Host, from: int, to: int): (ws: seq<Window>)
    ensures from <= to ==> |ws| >= 1
    ensures Contiguous(ws, RangeStep(from, to))
    ensures |ws| >= 1 ==> Arithmetic(ws, ws[0].start, RangeStep(from, to))
    ensures |ws| >= 1 ==> ws[0].start <= from < ws[0].start + RangeStep(from, to)
    ensures |ws| >= 1 ==> ws[|ws| - 1].start <= to < ws[|ws| - 1].start + RangeStep(from, to)
    ensures forall i :: 0 <= i < |ws| ==> ws[i].isoLabel == host.isoString(ws[i].start)
    ensures |ws| >= 1 ==> (ws[0].start + host.utcOffsetMs) % RangeStep(from, to) == 0
  {
    var step := RangeStep(from, to);
    var start := AlignDown(from, step, host.utcOffsetMs);
    var end := AlignDown(to, step, host.utcOffsetMs);
    AlignDownAligned(from, step, host.utcOffsetMs);
    WindowStartsShape(from, to, step, host.utcOffsetMs);
    var ws := WindowsAt(host, Starts(start, end, step));
    ArithmeticIsContiguous(ws, start, step);
    ws
  }

  /** The labelled windows starting at the given instants. */
  function WindowsAt(host: Host, starts: seq<int>): (ws: seq<Window>)
    ensures |ws| == |starts|
    ensures forall i :: 0 <= i < |ws| ==> ws[i] == Window(starts[i], host.isoString(starts[i]))
  {
    seq(|starts|, i requires 0 <= i < |starts| => Window(starts[i], host.isoString(starts[i])))
  }

  lemma ArithmeticIsContiguous(ws: seq<Window>, first: int, step: int)
    requires Arithmetic(ws, first, step)
    ensures Contiguous(ws, step)
  {
    forall i | 0 <= i < |ws| - 1
      ensures ws[i + 1].start == ws[i].start + step
    {
      assert (i + 1) * step == i * step + step;
    }
  }

  /**
   * The instants the loop emits: none when the aligned start is past the
   * aligned end, otherwise a whole number of steps from one to the other.
   */
  lemma WindowStartsShape(from: int, to: int, step: int, offset: int)
    requires step > 0
    ensures var start := AlignDown(from, step, offset); var end := AlignDown(to, step, offset);
      var starts := Starts(start, end, step);
      && (from <= to ==> start <= end)
      && (start > end ==> starts == [])
      && (start <= end ==>
            && |starts| >= 1 && starts[|starts| - 1] == end
            && forall i :: 0 <= i < |starts| ==> starts[i] == start + i * step)
  {
    var start := AlignDown(from, step, offset);
    var end := AlignDown(to, step, offset);
    if from <= to {
      AlignDownMonotone(from, to, step, offset);
    }
    if start <= end {
      AlignDownOnGrid(from, step, offset);
      AlignDownOnGrid(to, step, offset);
      var g1, g2 := GridIndex(from, step, offset), GridIndex(to, step, offset);
      if g1 > g2 {
        MulStrict(g2, g1, step);
      }
      var k: nat := g2 - g1;
      assert end == start + k * step;
      StartsShape(start, k, step);
    }
  }

  /**
   * `getWindowIndex`, as a backward scan: the greatest index whose window
   * starts at or before `t`, or -1 when `t` precedes every window. There is
   * no upper bound: anything after the last start maps to the last window.
   */
  function WindowIndex(ws: seq<Window>, t: int): (i: int)
    ensures -1 <= i < |ws|
    ensures i >= 0 ==> ws[i].start <= t
    ensures forall j :: i < j < |ws| ==> ws[j].start > t
  {
    if ws == [] then -1
    else if t >= ws[|ws| - 1].start then |ws| - 1
    else WindowIndex(ws[..|ws| - 1], t)
  }

  /** The loop of `getWindowIndex`, scanning from the latest window to the earliest. */
  method GetWindowIndex(ws: seq<Window>, t: int) returns (i: int)
    ensures -1 <= i < |ws|
    ensures i >= 0 ==> ws[i].start <= t
    ensures forall j :: i < j < |ws| ==> ws[j].start > t
  {
    i := |ws| - 1;
    while i >= 0
      invariant -1 <= i < |ws|
      invariant forall j :: i < j < |ws| ==> ws[j].start > t
    {
      if t >= ws[i].start {
        return;
      }
      i := i - 1;
    }
  }

  function Min(a: int, b: int): int {
    if a < b then a else b
  }

  /** Arithmetic windows are strictly ascending. */
  lemma SortedStarts(ws: seq<Window>, s: int, step: int)
    requires step > 0 && Arithmetic(ws, s, step)
    ensures forall j, k :: 0 <= j < k < |ws| ==> ws[j].start < ws[k].start
  {
    forall j, k | 0 <= j < k < |ws|
      ensures ws[j].start < ws[k].start
    {
      MulStrict(j, k, step);
    }
  }

  /**
   * On the windows `buildWindows` produces, the lookup is arithmetic: -1
   * before the first start, otherwise the number of whole steps since the
   * first start, capped at the last window.
   */
  lemma WindowIndexArithmetic(host: Host, from: int, to: int, t: int)
    requires from <= to
    ensures var ws := BuildWindows(host, from, to); var step := RangeStep(from, to);
      var s := ws[0].start;
      WindowIndex(ws, t) == if t < s then -1 else Min((t - s) / step, |ws| - 1)
  {
    var ws := BuildWindows(host, from, to);
    IndexOfArithmetic(ws, ws[0].start, RangeStep(from, to), t);
  }

  /** The lookup on any arithmetic run of windows. */
  lemma IndexOfArithmetic(ws: seq<Window>, s: int, step: int, t: int)
    requires step > 0 && |ws| > 0 && Arithmetic(ws, s, step)
    ensures WindowIndex(ws, t) == if t < s then -1 else Min((t - s) / step, |ws| - 1)
  {
    SortedStarts(ws, s, step);
    if t < s {
      assert ws[0].start == s;
    } else {
      var q := (t - s) / step;
      DivMod(t - s, step);
      var k := Min(q, |ws| - 1);
      MulMonotone(k, q, step);
      assert ws[k].start <= t;
      if k < |ws| - 1 {
        assert ws[k + 1].start == s + step * q + step;
      }
      IndexPinned(ws, t, k);
    }
  }

  /** On ascending windows, the lookup returns the last window that starts no later than `t`. */
  lemma IndexPinned(ws: seq<Window>, t: int, k: int)
    requires forall j, l :: 0 <= j < l < |ws| ==> ws[j].start < ws[l].start
    requires 0 <= k < |ws| && ws[k].start <= t
    requires k + 1 < |ws| ==> ws[k + 1].start > t
    ensures WindowIndex(ws, t) == k
  {
  }

  /**
   * A row from inside the queried range always finds a window, and it is the
   * window whose step contains it.
   */
  lemma InRangeAssigned(host: Host, from: int, to: int, t: int)
    requires from <= t <= to
    ensures var ws := BuildWindows(host, from, to); var i := WindowIndex(ws, t);
      0 <= i < |ws| && ws[i].start <= t < ws[i].start + RangeStep(from, to)
  {
    var ws := BuildWindows(host, from, to);
    var i := WindowIndex(ws, t);
    if i < |ws| - 1 {
      assert ws[i + 1].start == ws[i].start + RangeStep(from, to);
    }
  }

  /**
   * The documented edge case: any instant at or after the end of the last
   * window is still assigned to the last window.
   */
  lemma LateRowsInLastWindow(host: Host, from: int, to: int, t: int)
    requires from <= to
    requires var ws := BuildWindows(host, from, to); t >= ws[|ws| - 1].start + RangeStep(from, to)
    ensures var ws := BuildWindows(host, from, to); WindowIndex(ws, t) == |ws| - 1
  {
  }
}
