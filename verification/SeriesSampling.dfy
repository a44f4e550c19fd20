/** Summary and downsampling of a filled series, over exact arithmetic. */
module SeriesSampling {
  import opened Common

  function SumTo(points: seq<int>, n: nat): int
    requires n <= |points|
  {
    if n == 0 then 0 else SumTo(points, n - 1) + points[n - 1]
  }

  /** The sum of points[low..high]. */
  function SumOf(points: seq<int>, low: nat, high: nat): int
    requires low <= high <= |points|
  {
    SumTo(points, high) - SumTo(points, low)
  }

  /** The integer nearest to n / d, the even one when there are two. */
  function RoundHalfEven(n: nat, d: nat): nat
    requires d > 0
  {
    var q, r := n / d, n % d;
    if 2 * r < d || (2 * r == d && q % 2 == 0) then q else q + 1
  }

  /** Where bucket i of `buckets` starts in a series of `length` points. */
  function Boundary(i: nat, buckets: nat, length: nat): nat
    requires buckets > 0
  {
    RoundHalfEven(i * length, buckets)
  }

  /** One shown point: the position it is dated at, and the bucket whose average it shows. */
  datatype Sample = Sample(at: nat, start: nat, end: nat, sum: int)

  // ---------------------------------------------------------------------
  // Buckets
  // ---------------------------------------------------------------------

  /** r is an integer nearest to n / d, and the even one when two are. */
  predicate IsNearest(r: int, n: int, d: int) {
    && 2 * n - d <= 2 * (r * d) <= 2 * n + d
    && (2 * (r * d) == 2 * n - d || 2 * (r * d) == 2 * n + d ==> r % 2 == 0)
  }

  lemma RoundIsNearest(n: nat, d: nat)
    requires d > 0
    ensures IsNearest(RoundHalfEven(n, d), n, d)
  {
    var q, r := n / d, n % d;
    assert n == q * d + r;
    assert (q + 1) * d == q * d + d;
  }

  lemma RoundExact(k: nat, d: nat)
    requires d > 0
    ensures RoundHalfEven(k * d, d) == k
  {
    var n := k * d;
    var q, r := n / d, n % d;
    assert n == q * d + r;
    TimesMonotone(q + 1, k, d);
    TimesMonotone(k + 1, q, d);
    assert (q + 1) * d == q * d + d && (k + 1) * d == k * d + d;
  }

  /** Numbers more than one whole apart round to different integers. */
  lemma RoundSeparates(m: nat, n: nat, d: nat)
    requires d > 0 && n > m + d
    ensures RoundHalfEven(m, d) < RoundHalfEven(n, d)
  {
    RoundIsNearest(m, d);
    RoundIsNearest(n, d);
    TimesMonotone(RoundHalfEven(n, d), RoundHalfEven(m, d), d);
  }

  lemma BoundariesAtEnds(buckets: nat, length: nat)
    requires buckets > 0
    ensures Boundary(0, buckets, length) == 0 && Boundary(buckets, buckets, length) == length
  {
    RoundExact(0, buckets);
    RoundExact(length, buckets);
    assert buckets * length == length * buckets;
  }

  lemma BoundariesIncrease(i: nat, buckets: nat, length: nat)
    requires 0 < buckets < length
    ensures Boundary(i, buckets, length) < Boundary(i + 1, buckets, length)
  {
    assert (i + 1) * length == i * length + length;
    RoundSeparates(i * length, (i + 1) * length, buckets);
  }

  lemma {:induction false} BoundariesStayInside(i: nat, buckets: nat, length: nat)
    requires 0 < buckets < length && i <= buckets
    ensures Boundary(i, buckets, length) <= length
    decreases buckets - i
  {
    if i == buckets {
      BoundariesAtEnds(buckets, length);
    } else {
      BoundariesStayInside(i + 1, buckets, length);
      BoundariesIncrease(i, buckets, length);
    }
  }

  // ---------------------------------------------------------------------
  // Samples
  // ---------------------------------------------------------------------

  /** The first n samples cover the first points of the series, bucket by bucket, without gap or overlap. */
  predicate Cover(samples: seq<Sample>, points: seq<int>, n: nat, covered: nat)
    requires n <= |samples|
  {
    && covered <= |points|
    && (n == 0 ==> covered == 0)
    && (n > 0 ==> samples[0].start == 0 && samples[n - 1].end == covered)
    && (forall i :: 0 < i < n ==> samples[i].start == samples[i - 1].end)
    && (forall i :: 0 <= i < n ==>
          && samples[i].start <= samples[i].at < samples[i].end <= |points|
          && samples[i].sum == SumOf(points, samples[i].start, samples[i].end))
  }

  /** Requests of the first n buckets. */
  function SampledTo(samples: seq<Sample>, n: nat): int
    requires n <= |samples|
  {
    if n == 0 then 0 else SampledTo(samples, n - 1) + samples[n - 1].sum
  }

  /** Downsampling loses no request and counts none twice: the buckets add up to the series. */
  lemma {:induction false} SamplesKeepTotals(samples: seq<Sample>, points: seq<int>, n: nat, covered: nat)
    requires n <= |samples| && Cover(samples, points, n, covered)
    ensures SampledTo(samples, n) == SumTo(points, covered)
  {
    if n > 0 {
      SamplesKeepTotals(samples, points, n - 1, samples[n - 1].start);
    }
  }

  method SumSlice(points: seq<int>, low: nat, high: nat) returns (sum: int)
    requires low <= high <= |points|
    ensures sum == SumOf(points, low, high)
  {
    sum := 0;
    for i := low to high
      invariant sum == SumOf(points, low, i)
    {
      sum := sum + points[i];
    }
  }

  /** Bucket i starts at the integer nearest to i / buckets of the length, and its middle point dates it. */
  predicate IsPlaced(sample: Sample, i: int, buckets: int, length: int) {
    && IsNearest(sample.start, i * length, buckets)
    && sample.start <= sample.end && sample.at == sample.start + (sample.end - sample.start) / 2
  }

  predicate EvenlyPlaced(samples: seq<Sample>, buckets: int, length: int) {
    forall i :: 0 <= i < |samples| ==> IsPlaced(samples[i], i, buckets, length)
  }

  lemma CoverOneMore(samples: seq<Sample>, points: seq<int>, next: Sample)
    requires Cover(samples, points, |samples|, next.start)
    requires next.start <= next.at < next.end <= |points| && next.sum == SumOf(points, next.start, next.end)
    ensures Cover(samples + [next], points, |samples| + 1, next.end)
  {
  }

  lemma PlacedOneMore(samples: seq<Sample>, next: Sample, buckets: int, length: int)
    requires EvenlyPlaced(samples, buckets, length) && IsPlaced(next, |samples|, buckets, length)
    ensures EvenlyPlaced(samples + [next], buckets, length)
  {
  }

  method SampleBucket(points: seq<int>, buckets: nat, i: nat) returns (sample: Sample)
    requires 0 < buckets < |points| && i < buckets
    ensures IsPlaced(sample, i, buckets, |points|)
    ensures sample.start == Boundary(i, buckets, |points|) && sample.end == Boundary(i + 1, buckets, |points|)
    ensures sample.start <= sample.at < sample.end <= |points| && sample.sum == SumOf(points, sample.start, sample.end)
  {
    BoundariesIncrease(i, buckets, |points|);
    BoundariesStayInside(i + 1, buckets, |points|);
    RoundIsNearest(i * |points|, buckets);
    var start, end := Boundary(i, buckets, |points|), Boundary(i + 1, buckets, |points|);
    end := Max(end, start + 1);
    var sum := SumSlice(points, start, end);
    sample := Sample(start + (end - start) / 2, start, end, sum);
  }

  /** One sample per bucket of a series that is longer than the number of buckets. */
  method SampleBuckets(points: seq<int>, buckets: nat) returns (samples: seq<Sample>)
    requires 0 < buckets < |points|
    ensures |samples| == buckets && Cover(samples, points, buckets, |points|)
    ensures EvenlyPlaced(samples, buckets, |points|)
  {
    samples := [];
    BoundariesAtEnds(buckets, |points|);
    for i := 0 to buckets
      invariant |samples| == i && Cover(samples, points, i, Boundary(i, buckets, |points|))
      invariant EvenlyPlaced(samples, buckets, |points|)
    {
      var sample := SampleBucket(points, buckets, i);
      CoverOneMore(samples, points, sample);
      PlacedOneMore(samples, sample, buckets, |points|);
      samples := samples + [sample];
    }
  }

  method KeepPoints(points: seq<int>) returns (samples: seq<Sample>)
    ensures |samples| == |points| && Cover(samples, points, |points|, |points|)
    ensures forall i :: 0 <= i < |points| ==> samples[i] == Sample(i, i, i + 1, points[i])
  {
    samples := [];
    for i := 0 to |points|
      invariant |samples| == i
      invariant forall j :: 0 <= j < i ==> samples[j] == Sample(j, j, j + 1, points[j])
    {
      samples := samples + [Sample(i, i, i + 1, points[i])];
    }
    forall j | 0 <= j < |points| ensures points[j] == SumOf(points, j, j + 1) {
    }
  }

  /** At most maxPoints samples: the points themselves when they fit, otherwise one per non-empty bucket. */
  method DownsamplePoints(points: seq<int>, maxPoints: nat) returns (samples: seq<Sample>)
    requires maxPoints > 0
    ensures |samples| == Min(|points|, maxPoints)
    ensures Cover(samples, points, |samples|, |points|)
    ensures SampledTo(samples, |samples|) == SumTo(points, |points|)
    ensures |points| <= maxPoints ==> forall i :: 0 <= i < |points| ==> samples[i] == Sample(i, i, i + 1, points[i])
    ensures |points| > maxPoints ==> EvenlyPlaced(samples, maxPoints, |points|)
  {
    if |points| <= maxPoints {
      samples := KeepPoints(points);
    } else {
      samples := SampleBuckets(points, maxPoints);
    }
    SamplesKeepTotals(samples, points, |samples|, |points|);
  }

  /** The summary of a series: its total, and its peak when it is not empty. */
  method Summarize(points: seq<int>) returns (total: int, peak: int)
    ensures total == SumTo(points, |points|)
    ensures |points| == 0 ==> peak == 0
    ensures |points| > 0 ==> peak in points && forall i :: 0 <= i < |points| ==> points[i] <= peak
  {
    total, peak := 0, if |points| > 0 then points[0] else 0;
    for i := 0 to |points|
      invariant total == SumTo(points, i)
      invariant if |points| == 0 then peak == 0 else peak in points
      invariant forall j :: 0 <= j < i ==> points[j] <= peak
    {
      total := total + points[i];
      if points[i] > peak {
        peak := points[i];
      }
    }
  }
}
