/** Which worker process launches which request of a dispatched second, and with which class. */
module Sharding {
  import opened Common

  /** Position i of a second lies in the block of class k. */
  predicate InClass(counts: seq<nat>, i: nat, k: nat) {
    k < |counts| && Total(counts, k) <= i < Total(counts, k + 1)
  }

  /** The class of a request; None stands for the IndexError of the source. */
  method RequestClassForIndex(counts: seq<nat>, index: nat) returns (r: Option<nat>)
    ensures r.Some? ==> InClass(counts, index, r.value)
    ensures r.Some? ==> r.value < |counts| && Total(counts, r.value) <= index < Total(counts, r.value) + counts[r.value]
    ensures r.None? <==> index >= Total(counts, |counts|)
  {
    var runningTotal := 0;
    for k := 0 to |counts|
      invariant runningTotal == Total(counts, k) <= index
    {
      runningTotal := runningTotal + counts[k];
      if index < runningTotal {
        TotalMonotone(counts, k + 1, |counts|);
        return Some(k);
      }
    }
    return None;
  }

  lemma {:induction false} TotalMonotone(counts: seq<nat>, m: nat, n: nat)
    requires m <= n <= |counts|
    ensures Total(counts, m) <= Total(counts, n)
  {
    if m < n {
      TotalMonotone(counts, m, n - 1);
    }
  }

  lemma ClassIsUnique(counts: seq<nat>, i: nat, k: nat, l: nat)
    requires InClass(counts, i, k) && InClass(counts, i, l)
    ensures k == l
  {
    if k < l {
      TotalMonotone(counts, k + 1, l);
    } else if l < k {
      TotalMonotone(counts, l + 1, k);
    }
  }

  predicate Handles(worker: nat, workers: nat, globalIndex: nat)
    requires workers > 0
  {
    globalIndex % workers == worker
  }

  /** Requests of class k among the first n of a second that a worker launches. */
  function ShardOfClass(counts: seq<nat>, base: nat, n: nat, workers: nat, worker: nat, k: nat): nat
    requires workers > 0
  {
    if n == 0 then 0
    else ShardOfClass(counts, base, n - 1, workers, worker, k) +
         if Handles(worker, workers, base + n - 1) && InClass(counts, n - 1, k) then 1 else 0
  }

  /** The same summed over the first w workers. */
  function ShardsOfClass(counts: seq<nat>, base: nat, n: nat, workers: nat, w: nat, k: nat): nat
    requires workers > 0
  {
    if w == 0 then 0
    else ShardsOfClass(counts, base, n, workers, w - 1, k) + ShardOfClass(counts, base, n, workers, w - 1, k)
  }

  function ClassSize(counts: seq<nat>, n: nat, k: nat): nat {
    if n == 0 then 0 else ClassSize(counts, n - 1, k) + if InClass(counts, n - 1, k) then 1 else 0
  }

  lemma {:induction false} OneWorkerPerIndex(counts: seq<nat>, base: nat, n: nat, workers: nat, w: nat, k: nat)
    requires workers > 0 && n > 0
    ensures ShardsOfClass(counts, base, n, workers, w, k) ==
            ShardsOfClass(counts, base, n - 1, workers, w, k) +
            if (base + n - 1) % workers < w && InClass(counts, n - 1, k) then 1 else 0
  {
    if w > 0 {
      OneWorkerPerIndex(counts, base, n, workers, w - 1, k);
    }
  }

  lemma {:induction false} ShardsPartition(counts: seq<nat>, base: nat, n: nat, workers: nat, k: nat)
    requires workers > 0
    ensures ShardsOfClass(counts, base, n, workers, workers, k) == ClassSize(counts, n, k)
  {
    if n == 0 {
      NoRequests(counts, base, workers, workers, k);
    } else {
      ShardsPartition(counts, base, n - 1, workers, k);
      OneWorkerPerIndex(counts, base, n, workers, workers, k);
    }
  }

  lemma {:induction false} NoRequests(counts: seq<nat>, base: nat, workers: nat, w: nat, k: nat)
    requires workers > 0
    ensures ShardsOfClass(counts, base, 0, workers, w, k) == 0
  {
    if w > 0 {
      NoRequests(counts, base, workers, w - 1, k);
    }
  }

  lemma {:induction false} ClassSizeOfPrefix(counts: seq<nat>, n: nat, k: nat)
    requires k < |counts|
    ensures ClassSize(counts, n, k) == Positive(Min(n, Total(counts, k + 1)) - Total(counts, k))
  {
    if n > 0 {
      ClassSizeOfPrefix(counts, n - 1, k);
    }
  }

  /** Over all workers a dispatched second launches each class exactly as often as the script says,
      wherever the second starts in the global numbering. */
  lemma SecondIsExact(counts: seq<nat>, base: nat, workers: nat, k: nat)
    requires workers > 0 && k < |counts|
    ensures ShardsOfClass(counts, base, Total(counts, |counts|), workers, workers, k) == counts[k]
  {
    var n := Total(counts, |counts|);
    ShardsPartition(counts, base, n, workers, k);
    ClassSizeOfPrefix(counts, n, k);
    TotalMonotone(counts, k + 1, |counts|);
  }

  // ---------------------------------------------------------------------
  // Shard sizes
  // ---------------------------------------------------------------------

  /** Requests among the first n of a second that a worker launches. */
  function ShardSize(base: nat, n: nat, workers: nat, worker: nat): nat
    requires workers > 0
  {
    if n == 0 then 0
    else ShardSize(base, n - 1, workers, worker) + if Handles(worker, workers, base + n - 1) then 1 else 0
  }

  /** Position in the round-robin, counted from the worker that handles `base`. */
  function Turn(base: nat, workers: nat, worker: nat): nat
    requires workers > 0
  {
    (worker + workers - base % workers) % workers
  }

  /** A worker has had its turn in each full round, and in the last one if its turn came. */
  lemma {:induction false} ShardSizeIs(base: nat, n: nat, workers: nat, worker: nat)
    requires workers > 0 && worker < workers
    ensures ShardSize(base, n, workers, worker) ==
            n / workers + if Turn(base, workers, worker) < n % workers then 1 else 0
  {
    if n > 0 {
      ShardSizeIs(base, n - 1, workers, worker);
      TurnOf(base, n - 1, workers, worker);
      NextQuotient(n - 1, workers);
    } else {
      Divided(0, workers, 0, 0);
    }
  }

  lemma NextQuotient(n: nat, d: nat)
    requires d > 0
    ensures if n % d == d - 1 then (n + 1) / d == n / d + 1 && (n + 1) % d == 0
            else (n + 1) / d == n / d && (n + 1) % d == n % d + 1
  {
    QuotientStep(n, d, n / d, n % d);
  }

  lemma QuotientStep(n: nat, d: nat, q: nat, r: nat)
    requires n == q * d + r && r < d
    ensures if r == d - 1 then (n + 1) / d == q + 1 && (n + 1) % d == 0
            else (n + 1) / d == q && (n + 1) % d == r + 1
  {
    if r == d - 1 {
      Distribute(q, 1, d);
      Divided(n + 1, d, q + 1, 0);
    } else {
      Divided(n + 1, d, q, r + 1);
    }
  }

  lemma Divided(n: nat, d: nat, q: nat, r: nat)
    requires n == q * d + r && r < d
    ensures n / d == q && n % d == r
  {
    var p := n / d;
    assert n == p * d + n % d;
    TimesMonotone(q + 1, p, d);
    TimesMonotone(p + 1, q, d);
    assert p == q;
  }

  lemma Distribute(x: int, y: int, k: int)
    ensures (x + y) * k == x * k + y * k
  {
  }

  lemma SumOfParts(a: nat, b: nat, d: nat, p: nat, q: nat, r: nat, s: nat)
    requires a == p * d + r && b == q * d + s && r < d && s < d
    ensures (a + b) % d == if r + s < d then r + s else r + s - d
  {
    Distribute(p, q, d);
    if r + s < d {
      Divided(a + b, d, p + q, r + s);
    } else {
      Distribute(p + q, 1, d);
      Divided(a + b, d, p + q + 1, r + s - d);
    }
  }

  lemma SumModulo(a: nat, b: nat, d: nat)
    requires d > 0
    ensures (a + b) % d == if a % d + b % d < d then a % d + b % d else a % d + b % d - d
  {
    SumOfParts(a, b, d, a / d, b / d, a % d, b % d);
  }

  /** The worker whose turn it is at position i handles the request at base + i. */
  lemma TurnOf(base: nat, i: nat, workers: nat, worker: nat)
    requires workers > 0 && worker < workers
    ensures Handles(worker, workers, base + i) <==> Turn(base, workers, worker) == i % workers
  {
    SumModulo(base, i, workers);
    var b := base % workers;
    if worker >= b {
      Divided(worker + workers - b, workers, 1, worker - b);
    } else {
      Divided(worker + workers - b, workers, 0, worker + workers - b);
    }
  }

  /** Sizes of any two shards of a second differ by at most one. */
  lemma ShardsAreEven(base: nat, n: nat, workers: nat, a: nat, b: nat)
    requires workers > 0 && a < workers && b < workers
    ensures ShardSize(base, n, workers, a) <= ShardSize(base, n, workers, b) + 1
  {
    ShardSizeIs(base, n, workers, a);
    ShardSizeIs(base, n, workers, b);
  }

  // ---------------------------------------------------------------------
  // The whole script
  // ---------------------------------------------------------------------

  /** The global number of each second's first request. */
  method BuildSecondRequestOffsets(requests: seq<nat>) returns (offsets: seq<nat>)
    ensures |offsets| == |requests|
    ensures forall i :: 0 <= i < |requests| ==> offsets[i] == Total(requests, i)
    ensures forall g: nat, i: nat, j: nat :: InClass(requests, g, i) && InClass(requests, g, j) ==> i == j
  {
    offsets := [];
    var runningTotal := 0;
    for i := 0 to |requests|
      invariant |offsets| == i && runningTotal == Total(requests, i)
      invariant forall k :: 0 <= k < i ==> offsets[k] == Total(requests, k)
    {
      offsets := offsets + [runningTotal];
      runningTotal := runningTotal + requests[i];
    }
    forall g: nat, i: nat, j: nat | InClass(requests, g, i) && InClass(requests, g, j) ensures i == j {
      ClassIsUnique(requests, g, i, j);
    }
  }

  /** The global indices among base, ..., base + n - 1 that a worker handles, in order. */
  function Share(base: nat, n: nat, workers: nat, worker: nat): seq<nat>
    requires workers > 0
  {
    if n == 0 then []
    else Share(base, n - 1, workers, worker) +
         if Handles(worker, workers, base + n - 1) then [base + n - 1] else []
  }

  lemma {:induction false} ShareIs(base: nat, n: nat, workers: nat, worker: nat)
    requires workers > 0
    ensures |Share(base, n, workers, worker)| == ShardSize(base, n, workers, worker)
    ensures forall g: nat :: g in Share(base, n, workers, worker) <==>
                             base <= g < base + n && Handles(worker, workers, g)
    ensures forall i, j :: 0 <= i < j < |Share(base, n, workers, worker)| ==>
                           Share(base, n, workers, worker)[i] < Share(base, n, workers, worker)[j]
  {
    if n > 0 {
      ShareIs(base, n - 1, workers, worker);
      var before, g := Share(base, n - 1, workers, worker), base + n - 1;
      assert forall i :: 0 <= i < |before| ==> before[i] in before;
    }
  }

  /** The global indices a worker launches in the first n seconds, each second starting at its offset. */
  function RunShare(requests: seq<nat>, n: nat, workers: nat, worker: nat): seq<nat>
    requires workers > 0 && n <= |requests|
  {
    if n == 0 then []
    else RunShare(requests, n - 1, workers, worker) + Share(Total(requests, n - 1), requests[n - 1], workers, worker)
  }

  lemma {:induction false} ShareSplits(base: nat, a: nat, b: nat, workers: nat, worker: nat)
    requires workers > 0
    ensures Share(base, a + b, workers, worker) ==
            Share(base, a, workers, worker) + Share(base + a, b, workers, worker)
  {
    if b > 0 {
      ShareSplits(base, a, b - 1, workers, worker);
      assert base + (a + b) - 1 == (base + a) + b - 1;
      assert (a + b) - 1 == a + (b - 1);
    } else {
      assert Share(base, a, workers, worker) + [] == Share(base, a, workers, worker);
    }
  }

  /**
    Second by second a worker launches exactly the indices of 0, 1, 2, ... that are its own, each once
    and in order: the seconds neither overlap nor leave gaps.
  */
  lemma {:induction false} RunShareIsContiguous(requests: seq<nat>, n: nat, workers: nat, worker: nat)
    requires workers > 0 && n <= |requests|
    ensures RunShare(requests, n, workers, worker) == Share(0, Total(requests, n), workers, worker)
  {
    if n > 0 {
      RunShareIsContiguous(requests, n - 1, workers, worker);
      ShareSplits(0, Total(requests, n - 1), requests[n - 1], workers, worker);
    }
  }

  /** Every global index of the script is launched by exactly one worker. */
  lemma EachIndexIsLaunchedByOne(requests: seq<nat>, n: nat, workers: nat, g: nat, worker: nat)
    requires workers > 0 && n <= |requests| && g < Total(requests, n)
    ensures g in RunShare(requests, n, workers, worker) <==> worker == g % workers
  {
    RunShareIsContiguous(requests, n, workers, worker);
    ShareIs(0, Total(requests, n), workers, worker);
  }

  /** Over a script of any length two workers' loads differ by at most one request, not one per second. */
  lemma RunSharesAreEven(requests: seq<nat>, n: nat, workers: nat, a: nat, b: nat)
    requires workers > 0 && n <= |requests| && a < workers && b < workers
    ensures |RunShare(requests, n, workers, a)| <= |RunShare(requests, n, workers, b)| + 1
  {
    RunShareIsContiguous(requests, n, workers, a);
    RunShareIsContiguous(requests, n, workers, b);
    ShareIs(0, Total(requests, n), workers, a);
    ShareIs(0, Total(requests, n), workers, b);
    ShardsAreEven(0, Total(requests, n), workers, a, b);
  }

  // ---------------------------------------------------------------------
  // Dispatching one second
  // ---------------------------------------------------------------------

  function CountOf(classes: seq<nat>, k: nat): nat {
    if |classes| == 0 then 0
    else CountOf(classes[..|classes| - 1], k) + if classes[|classes| - 1] == k then 1 else 0
  }

  /**
    One worker dispatches a second: what it plans is what it launches, it launches the global indices
    that are its own, each class as often as its shard holds it, and looking a class up never fails.
  */
  method DispatchSecond(counts: seq<nat>, base: nat, workers: nat, worker: nat)
    returns (planned: nat, indices: seq<nat>, launched: seq<nat>, indexError: bool)
    requires worker < workers
    ensures !indexError
    ensures planned == |launched| == ShardSize(base, Total(counts, |counts|), workers, worker)
    ensures indices == Share(base, Total(counts, |counts|), workers, worker)
    ensures forall k :: 0 <= k < |counts| ==>
      CountOf(launched, k) == ShardOfClass(counts, base, Total(counts, |counts|), workers, worker, k)
  {
    var requestCount := Total(counts, |counts|);
    planned := 0;
    for i := 0 to requestCount
      invariant planned == ShardSize(base, i, workers, worker)
    {
      if (base + i) % workers == worker {
        planned := planned + 1;
      }
    }
    indices, launched, indexError := [], [], false;
    for i := 0 to requestCount
      invariant !indexError && |launched| == ShardSize(base, i, workers, worker)
      invariant indices == Share(base, i, workers, worker)
      invariant forall k :: 0 <= k < |counts| ==>
        CountOf(launched, k) == ShardOfClass(counts, base, i, workers, worker, k)
    {
      if (base + i) % workers != worker {
        continue;
      }
      var class_ := RequestClassForIndex(counts, i);
      if class_.None? {
        indexError := true;
        return;
      }
      forall k | 0 <= k < |counts| && InClass(counts, i, k) ensures k == class_.value {
        ClassIsUnique(counts, i, k, class_.value);
      }
      assert (launched + [class_.value])[..|launched|] == launched;
      indices := indices + [base + i];
      launched := launched + [class_.value];
    }
  }
}
