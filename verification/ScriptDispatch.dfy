/** From the rows of a script to the requests that all worker processes launch together. */
module ScriptDispatch {
  import opened Common
  import opened ScriptTimeline
  import Sharding

  /** The request counts of a timeline, from which the offsets of its seconds are taken. */
  function RequestCounts(points: seq<Point>): seq<nat> {
    seq(|points|, i requires 0 <= i < |points| => points[i].requests)
  }

  /** Requests of class k launched by all workers together in the first n seconds of a timeline. */
  function LaunchedTo(points: seq<Point>, workers: nat, k: nat, n: nat): nat
    requires workers > 0 && n <= |points|
  {
    if n == 0 then 0
    else
      var p, offset := points[n - 1], Total(RequestCounts(points), n - 1);
      LaunchedTo(points, workers, k, n - 1) +
      Sharding.ShardsOfClass(p.counts, offset, p.requests, workers, workers, k)
  }

  /** Every point of a timeline has a count for each class. */
  predicate FullPoints(points: seq<Point>, classes: nat) {
    forall i :: 0 <= i < |points| ==> |points[i].counts| == classes
  }

  lemma {:induction false} LaunchedIsShown(points: seq<Point>, classes: nat, workers: nat, k: nat, n: nat)
    requires workers > 0 && n <= |points| && AddsUp(points) && FullPoints(points, classes) && k < classes
    ensures LaunchedTo(points, workers, k, n) == ShownTo(points, OfClass(k), n)
  {
    if n > 0 {
      var p, offset := points[n - 1], Total(RequestCounts(points), n - 1);
      LaunchedIsShown(points, classes, workers, k, n - 1);
      Sharding.SecondIsExact(p.counts, offset, workers, k);
      assert p.requests == Total(p.counts, |p.counts|);
    }
  }

  /** Every row has a count for each class, as the loader reads it. */
  predicate FullRows(rows: seq<Row>, classes: nat) {
    forall i :: 0 <= i < |rows| ==> |rows[i].counts| == classes
  }

  lemma {:induction false} GapIsFull(start: int, stop: int, classes: nat)
    ensures FullPoints(Gap(start, stop, classes), classes)
    decreases stop - start
  {
    if start < stop {
      GapIsFull(start + SECOND, stop, classes);
    }
  }

  lemma ConcatIsFull(a: seq<Point>, b: seq<Point>, classes: nat)
    requires FullPoints(a, classes) && FullPoints(b, classes)
    ensures FullPoints(a + b, classes)
  {
  }

  lemma {:induction false} TimelineIsFull(rows: seq<Row>, n: nat, classes: nat)
    requires n <= |rows| && FullRows(rows, classes)
    ensures FullPoints(Timeline(rows, n, classes), classes)
  {
    if n > 0 {
      var t, gap, last := Timeline(rows, n - 1, classes), Between(rows, n, classes), PointOf(rows[n - 1]);
      TimelineIsFull(rows, n - 1, classes);
      if n > 1 {
        GapIsFull(rows[n - 2].at + SECOND, rows[n - 1].at, classes);
      }
      ConcatIsFull(t, gap, classes);
      ConcatIsFull(t + gap, [last], classes);
    }
  }

  /**
    End to end, for every script, every number of workers and every class: the requests of the class
    that all workers launch over the whole timeline are those the rows of the script ask for.
  */
  lemma ScriptIsLaunchedExactly(rows: seq<Row>, classes: nat, workers: nat, k: nat)
    requires workers > 0 && k < classes && FullRows(rows, classes)
    ensures var points := Timeline(rows, |rows|, classes);
      LaunchedTo(points, workers, k, |points|) == Planned(rows, OfClass(k), |rows|)
  {
    var points := Timeline(rows, |rows|, classes);
    TimelineAddsUp(rows, |rows|, classes);
    TimelineIsFull(rows, |rows|, classes);
    LaunchedIsShown(points, classes, workers, k, |points|);
    TotalsPreserved(rows, |rows|, classes, OfClass(k));
  }
}
