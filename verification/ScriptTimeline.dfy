/** Normalising a load script: rows at ascending times become a gap-free timeline of seconds. */
module ScriptTimeline {
  import opened Common

  // Times are in microseconds, the resolution of the parsed timestamps.
  const SECOND := 1_000_000

  datatype Row = Row(at: int, counts: seq<nat>)
  datatype Point = Point(at: int, requests: nat, counts: seq<nat>)
  datatype LoadError = OutOfOrder(row: nat) | Duplicate(row: nat) | NoRows
  datatype Loaded = Points(points: seq<Point>) | Rejected(error: LoadError)

  function PointOf(row: Row): Point { Point(row.at, Total(row.counts, |row.counts|), row.counts) }

  /** A second without a row: no request of any class. */
  function ZeroPoint(at: int, classes: nat): Point { Point(at, 0, seq(classes, _ => 0)) }

  /** Zero points every second from `start` up to, not including, `stop`. */
  function Gap(start: int, stop: int, classes: nat): seq<Point>
    decreases stop - start
  {
    if start >= stop then [] else [ZeroPoint(start, classes)] + Gap(start + SECOND, stop, classes)
  }

  predicate Ascending(rows: seq<Row>, n: nat)
    requires n <= |rows|
  {
    forall i :: 0 < i < n ==> rows[i - 1].at < rows[i].at
  }

  /** The seconds without a row between row n - 1 and the one before it. */
  function Between(rows: seq<Row>, n: nat, classes: nat): seq<Point>
    requires 0 < n <= |rows|
  {
    if n == 1 then [] else Gap(rows[n - 2].at + SECOND, rows[n - 1].at, classes)
  }

  /** The timeline of the first n rows. */
  function Timeline(rows: seq<Row>, n: nat, classes: nat): seq<Point>
    requires n <= |rows|
  {
    if n == 0 then []
    else
      Timeline(rows, n - 1, classes) + Between(rows, n, classes) + [PointOf(rows[n - 1])]
  }

  /** The inner loop: a zero point for every second before the next row. */
  method FillGap(before: seq<Point>, first: int, stop: int, classes: nat) returns (points: seq<Point>)
    ensures points == before + Gap(first, stop, classes)
  {
    points := before;
    var current := first;
    while current < stop
      invariant points + Gap(current, stop, classes) == before + Gap(first, stop, classes)
    {
      points := points + [ZeroPoint(current, classes)];
      current := current + SECOND;
    }
  }

  /** The error names the first row that is not later than the one before it. */
  predicate Explains(error: LoadError, rows: seq<Row>) {
    match error
    case NoRows => |rows| == 0
    case OutOfOrder(i) => 0 < i < |rows| && Ascending(rows, i) && rows[i].at < rows[i - 1].at
    case Duplicate(i) => 0 < i < |rows| && Ascending(rows, i) && rows[i].at == rows[i - 1].at
  }

  lemma RowExtends(rows: seq<Row>, i: nat, classes: nat, current: int)
    requires i < |rows| && Ascending(rows, i) && (i > 0 ==> rows[i - 1].at < rows[i].at)
    requires current == if i == 0 then rows[i].at else rows[i - 1].at + SECOND
    ensures Ascending(rows, i + 1)
    ensures Timeline(rows, i + 1, classes) ==
            Timeline(rows, i, classes) + Gap(current, rows[i].at, classes) + [PointOf(rows[i])]
  {
  }

  method LoadScriptPoints(rows: seq<Row>, classes: nat) returns (r: Loaded)
    ensures r.Points? <==> |rows| > 0 && Ascending(rows, |rows|)
    ensures r.Points? ==> r.points == Timeline(rows, |rows|, classes)
    ensures r.Rejected? ==> Explains(r.error, rows)
  {
    var points: seq<Point> := [];
    var currentTime, lastTime: Option<int> := None, None;
    for i := 0 to |rows|
      invariant Ascending(rows, i) && points == Timeline(rows, i, classes)
      invariant i > 0 ==> |points| > 0
      invariant if i == 0 then currentTime.None? && lastTime.None?
                else lastTime == Some(rows[i - 1].at) && currentTime == Some(rows[i - 1].at + SECOND)
    {
      var timestamp := rows[i].at;
      if lastTime.Some? && timestamp < lastTime.value {
        return Rejected(OutOfOrder(i));
      }
      if lastTime.Some? && timestamp == lastTime.value {
        return Rejected(Duplicate(i));
      }
      var current := if currentTime.None? then timestamp else currentTime.value;
      RowExtends(rows, i, classes, current);
      points := FillGap(points, current, timestamp, classes);
      points := points + [Point(timestamp, Total(rows[i].counts, |rows[i].counts|), rows[i].counts)];
      assert points == Timeline(rows, i + 1, classes);
      currentTime := Some(timestamp + SECOND);
      lastTime := Some(timestamp);
    }
    if |points| == 0 {
      return Rejected(NoRows);
    }
    return Points(points);
  }

  // ---------------------------------------------------------------------
  // Totals
  // ---------------------------------------------------------------------

  /** What is counted: all requests, or those of one class. */
  datatype Measure = AllRequests | OfClass(k: nat)

  function CountOf(counts: seq<nat>, m: Measure): nat {
    match m
    case AllRequests => Total(counts, |counts|)
    case OfClass(k) => if k < |counts| then counts[k] else 0
  }

  /** What a point says about a measure: its request field, or its count of a class. */
  function Shown(p: Point, m: Measure): nat {
    match m
    case AllRequests => p.requests
    case OfClass(k) => CountOf(p.counts, m)
  }

  function ShownTo(points: seq<Point>, m: Measure, n: nat): nat
    requires n <= |points|
  {
    if n == 0 then 0 else ShownTo(points, m, n - 1) + Shown(points[n - 1], m)
  }

  function ShownTotal(points: seq<Point>, m: Measure): nat { ShownTo(points, m, |points|) }

  function Planned(rows: seq<Row>, m: Measure, n: nat): nat
    requires n <= |rows|
  {
    if n == 0 then 0 else Planned(rows, m, n - 1) + CountOf(rows[n - 1].counts, m)
  }

  lemma {:induction false} ShownPrefix(a: seq<Point>, b: seq<Point>, m: Measure, n: nat)
    requires n <= |a|
    ensures ShownTo(a + b, m, n) == ShownTo(a, m, n)
  {
    if n > 0 {
      ShownPrefix(a, b, m, n - 1);
    }
  }

  lemma {:induction false} ShownConcat(a: seq<Point>, b: seq<Point>, m: Measure, n: nat)
    requires n <= |b|
    ensures ShownTo(a + b, m, |a| + n) == ShownTotal(a, m) + ShownTo(b, m, n)
  {
    if n == 0 {
      ShownPrefix(a, b, m, |a|);
    } else {
      ShownConcat(a, b, m, n - 1);
    }
  }

  lemma ShownTotalConcat(a: seq<Point>, b: seq<Point>, m: Measure)
    ensures ShownTotal(a + b, m) == ShownTotal(a, m) + ShownTotal(b, m)
  {
    ShownConcat(a, b, m, |b|);
  }

  lemma ShownTotalOne(p: Point, m: Measure)
    ensures ShownTotal([p], m) == Shown(p, m)
  {
    assert ShownTo([p], m, 1) == ShownTo([p], m, 0) + Shown(p, m);
  }

  lemma {:induction false} GapIsQuiet(start: int, stop: int, classes: nat, m: Measure)
    ensures ShownTotal(Gap(start, stop, classes), m) == 0
    decreases stop - start
  {
    if start < stop {
      GapIsQuiet(start + SECOND, stop, classes, m);
      var zero := ZeroPoint(start, classes);
      ShownTotalConcat([zero], Gap(start + SECOND, stop, classes), m);
      ShownTotalOne(zero, m);
      assert Shown(zero, m) == 0;
    }
  }

  lemma BetweenIsQuiet(rows: seq<Row>, n: nat, classes: nat, m: Measure)
    requires 0 < n <= |rows|
    ensures ShownTotal(Between(rows, n, classes), m) == 0
  {
    if n > 1 {
      GapIsQuiet(rows[n - 2].at + SECOND, rows[n - 1].at, classes, m);
    }
  }

  lemma AppendRow(t: seq<Point>, gap: seq<Point>, last: Point, m: Measure)
    requires ShownTotal(gap, m) == 0
    ensures ShownTotal(t + gap + [last], m) == ShownTotal(t, m) + Shown(last, m)
  {
    ShownTotalConcat(t, gap, m);
    ShownTotalConcat(t + gap, [last], m);
    ShownTotalOne(last, m);
  }

  lemma RowAdds(rows: seq<Row>, n: nat, classes: nat, m: Measure)
    requires 0 < n <= |rows|
    ensures ShownTotal(Timeline(rows, n, classes), m) ==
            ShownTotal(Timeline(rows, n - 1, classes), m) + CountOf(rows[n - 1].counts, m)
  {
    BetweenIsQuiet(rows, n, classes, m);
    AppendRow(Timeline(rows, n - 1, classes), Between(rows, n, classes), PointOf(rows[n - 1]), m);
  }

  /** Filling gaps neither adds nor loses a request, in all and of each class. */
  lemma {:induction false} TotalsPreserved(rows: seq<Row>, n: nat, classes: nat, m: Measure)
    requires n <= |rows|
    ensures ShownTotal(Timeline(rows, n, classes), m) == Planned(rows, m, n)
  {
    if n == 0 {
      assert |Timeline(rows, n, classes)| == 0;
    } else {
      TotalsPreserved(rows, n - 1, classes, m);
      RowAdds(rows, n, classes, m);
    }
  }

  lemma {:induction false} TotalOfZeros(counts: seq<nat>, n: nat)
    requires n <= |counts| && forall i :: 0 <= i < |counts| ==> counts[i] == 0
    ensures Total(counts, n) == 0
  {
    if n > 0 {
      TotalOfZeros(counts, n - 1);
    }
  }

  /** Every point's request count is the sum of its class counts, so dispatch by class launches that many. */
  predicate AddsUp(points: seq<Point>) {
    forall i :: 0 <= i < |points| ==> points[i].requests == Total(points[i].counts, |points[i].counts|)
  }

  lemma ConcatAddsUp(a: seq<Point>, b: seq<Point>)
    requires AddsUp(a) && AddsUp(b)
    ensures AddsUp(a + b)
  {
  }

  lemma {:induction false} GapAddsUp(start: int, stop: int, classes: nat)
    ensures AddsUp(Gap(start, stop, classes))
    decreases stop - start
  {
    if start < stop {
      var zero := ZeroPoint(start, classes);
      TotalOfZeros(zero.counts, classes);
      GapAddsUp(start + SECOND, stop, classes);
      ConcatAddsUp([zero], Gap(start + SECOND, stop, classes));
    }
  }

  lemma BetweenAddsUp(rows: seq<Row>, n: nat, classes: nat)
    requires 0 < n <= |rows|
    ensures AddsUp(Between(rows, n, classes))
  {
    if n > 1 {
      GapAddsUp(rows[n - 2].at + SECOND, rows[n - 1].at, classes);
    }
  }

  lemma {:induction false} TimelineAddsUp(rows: seq<Row>, n: nat, classes: nat)
    requires n <= |rows|
    ensures AddsUp(Timeline(rows, n, classes))
  {
    if n > 0 {
      var t, gap, last := Timeline(rows, n - 1, classes), Between(rows, n, classes), PointOf(rows[n - 1]);
      TimelineAddsUp(rows, n - 1, classes);
      BetweenAddsUp(rows, n, classes);
      ConcatAddsUp(t, gap);
      ConcatAddsUp(t + gap, [last]);
    }
  }

  // ---------------------------------------------------------------------
  // One point per second
  // ---------------------------------------------------------------------

  predicate WholeSeconds(rows: seq<Row>, n: nat)
    requires 0 < n <= |rows|
  {
    forall j :: 0 <= j < n ==> (rows[j].at - rows[0].at) % SECOND == 0
  }

  /** Consecutive seconds, starting at the first row. */
  predicate EverySecond(points: seq<Point>, start: int) {
    forall i :: 0 <= i < |points| ==> points[i].at == start + i * SECOND
  }

  lemma {:induction false} GapSeconds(start: int, k: nat, classes: nat)
    ensures var g := Gap(start, start + k * SECOND, classes);
      |g| == k && forall i :: 0 <= i < k ==> g[i] == ZeroPoint(start + i * SECOND, classes)
    decreases k
  {
    if k > 0 {
      GapSeconds(start + SECOND, k - 1, classes);
      assert start + SECOND + (k - 1) * SECOND == start + k * SECOND;
    }
  }

  /** Each second carries the counts of the row at that second, or zero when there is none. */
  ghost predicate Carries(points: seq<Point>, rows: seq<Row>, n: nat, classes: nat)
    requires n <= |rows|
  {
    forall i :: 0 <= i < |points| ==>
      || (exists j :: 0 <= j < n && points[i] == PointOf(rows[j]))
      || (points[i] == ZeroPoint(points[i].at, classes) && forall j :: 0 <= j < n ==> rows[j].at != points[i].at)
  }

  lemma {:induction false} AscendingBound(rows: seq<Row>, n: nat, j: nat)
    requires j < n <= |rows| && Ascending(rows, n)
    ensures rows[j].at <= rows[n - 1].at
    ensures j < n - 1 ==> rows[j].at < rows[n - 1].at
  {
    if j < n - 1 {
      AscendingBound(rows, n - 1, j);
    }
  }

  /** The points are the seconds from the first of n rows to the last of them, each with its counts. */
  ghost predicate PerSecond(points: seq<Point>, rows: seq<Row>, n: nat, classes: nat)
    requires 0 < n <= |rows|
  {
    && |points| * SECOND == rows[n - 1].at - rows[0].at + SECOND
    && EverySecond(points, rows[0].at)
    && Carries(points, rows, n, classes)
  }

  lemma FirstSecond(rows: seq<Row>, classes: nat)
    requires |rows| > 0
    ensures PerSecond(Timeline(rows, 1, classes), rows, 1, classes)
  {
    assert Timeline(rows, 1, classes) == [PointOf(rows[0])];
  }

  /** Between two rows a whole number of seconds apart lie that many seconds less one. */
  lemma SecondsBetween(first: int, last: int, next: int) returns (k: nat)
    requires last < next && (last - first) % SECOND == 0 && (next - first) % SECOND == 0
    ensures last + SECOND + k * SECOND == next
  {
    assert next - last == (next - first) - (last - first);
    assert (next - last) % SECOND == 0;
    k := (next - last) / SECOND - 1;
  }

  /** For whole-second rows the timeline has exactly one point per second from first to last. */
  lemma {:induction false} OnePointPerSecond(rows: seq<Row>, n: nat, classes: nat)
    requires 0 < n <= |rows| && Ascending(rows, n) && WholeSeconds(rows, n)
    ensures PerSecond(Timeline(rows, n, classes), rows, n, classes)
  {
    if n == 1 {
      FirstSecond(rows, classes);
    } else {
      OnePointPerSecond(rows, n - 1, classes);
      var k := SecondsBetween(rows[0].at, rows[n - 2].at, rows[n - 1].at);
      GapSeconds(rows[n - 2].at + SECOND, k, classes);
      GapCarries(rows, n, classes, Timeline(rows, n - 1, classes), k);
    }
  }

  lemma GapCarries(rows: seq<Row>, n: nat, classes: nat, t: seq<Point>, k: nat)
    requires 1 < n <= |rows| && Ascending(rows, n)
    requires t == Timeline(rows, n - 1, classes) && PerSecond(t, rows, n - 1, classes)
    requires rows[n - 2].at + SECOND + k * SECOND == rows[n - 1].at
    requires var g := Gap(rows[n - 2].at + SECOND, rows[n - 1].at, classes);
      |g| == k && forall i :: 0 <= i < k ==> g[i] == ZeroPoint(rows[n - 2].at + SECOND + i * SECOND, classes)
    ensures PerSecond(Timeline(rows, n, classes), rows, n, classes)
  {
    var g := Gap(rows[n - 2].at + SECOND, rows[n - 1].at, classes);
    var r := Timeline(rows, n, classes);
    assert r == t + g + [PointOf(rows[n - 1])];
    forall i | 0 <= i < |r|
      ensures r[i].at == rows[0].at + i * SECOND
      ensures (exists j :: 0 <= j < n && r[i] == PointOf(rows[j])) ||
              (r[i] == ZeroPoint(r[i].at, classes) && forall j :: 0 <= j < n ==> rows[j].at != r[i].at)
    {
      if i < |t| {
        assert r[i] == t[i];
        assert rows[n - 1].at != r[i].at;
      } else if i < |t| + k {
        assert r[i] == g[i - |t|];
        forall j | 0 <= j < n ensures rows[j].at != r[i].at {
          if j < n - 1 {
            AscendingBound(rows, n - 1, j);
          }
        }
      } else {
        assert r[i] == PointOf(rows[n - 1]);
      }
    }
  }

  lemma AppendedMembers(t: seq<Point>, gap: seq<Point>, last: Point, p: Point)
    ensures p in t || p == last ==> p in t + gap + [last]
  {
    assert last in [last];
    assert p in t ==> p in t + gap;
  }

  lemma {:induction false} RowsAppear(rows: seq<Row>, n: nat, classes: nat, j: nat)
    requires j < n <= |rows|
    ensures PointOf(rows[j]) in Timeline(rows, n, classes)
  {
    if j < n - 1 {
      RowsAppear(rows, n - 1, classes, j);
    }
    AppendedMembers(Timeline(rows, n - 1, classes), Between(rows, n, classes), PointOf(rows[n - 1]), PointOf(rows[j]));
  }

  lemma RowsOnSeconds(rows: seq<Row>, classes: nat, j: nat)
    requires j < |rows| && EverySecond(Timeline(rows, |rows|, classes), rows[0].at)
    ensures (rows[j].at - rows[0].at) % SECOND == 0
  {
    RowsAppear(rows, |rows|, classes, j);
    OnSecond(Timeline(rows, |rows|, classes), rows[0].at, PointOf(rows[j]));
  }

  lemma OnSecond(points: seq<Point>, start: int, p: Point)
    requires EverySecond(points, start) && p in points
    ensures (p.at - start) % SECOND == 0
  {
    var i :| 0 <= i < |points| && points[i] == p;
    assert p.at - start == i * SECOND;
  }

  /** An accepted script gives one point per second exactly when its rows are whole seconds apart. */
  lemma PerSecondExactly(rows: seq<Row>, classes: nat)
    requires |rows| > 0 && Ascending(rows, |rows|)
    ensures EverySecond(Timeline(rows, |rows|, classes), rows[0].at) <==> WholeSeconds(rows, |rows|)
  {
    if WholeSeconds(rows, |rows|) {
      OnePointPerSecond(rows, |rows|, classes);
    } else if EverySecond(Timeline(rows, |rows|, classes), rows[0].at) {
      forall j | 0 <= j < |rows| ensures (rows[j].at - rows[0].at) % SECOND == 0 {
        RowsOnSeconds(rows, classes, j);
      }
    }
  }
}
