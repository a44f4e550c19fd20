/** How many workers a number of pods needs: the two capacity strategies and their node snapshots. */
module WorkerCapacity {
  import opened Common

  datatype Snapshot = Snapshot(nodeName: string, allocatable: int, reserved: int, appSlots: nat)

  datatype Computation = Computation(
    target: int,
    requiredReady: int,
    missingSlots: int,
    totalSlots: int,
    readyWorkers: int)

  /** Slots offered by the first n nodes of a list. */
  function SlotsTo(s: seq<Snapshot>, n: nat): (sum: nat)
    requires n <= |s|
  {
    if n == 0 then 0 else SlotsTo(s, n - 1) + s[n - 1].appSlots
  }

  function Slots(s: seq<Snapshot>): nat { SlotsTo(s, |s|) }

  /** A choice of some of the ready nodes, each at most once. */
  ghost predicate Selection(chosen: seq<Snapshot>, ready: seq<Snapshot>) {
    multiset(chosen) <= multiset(ready)
  }

  /** k is the least size of a choice of ready nodes whose slots cover the demand. */
  ghost predicate LeastCover(ready: seq<Snapshot>, demand: int, k: int) {
    && (exists chosen :: Selection(chosen, ready) && Slots(chosen) >= demand && |chosen| == k)
    && (forall chosen :: Selection(chosen, ready) && Slots(chosen) >= demand ==> k <= |chosen|)
  }

  /** f is the least number of fresh workers whose slots reach the demand. */
  predicate LeastFresh(demand: int, podsPerWorker: int, f: int) {
    f * podsPerWorker >= demand && (f - 1) * podsPerWorker < demand
  }

  // Ceiling of a quotient of an integer by a positive integer.
  function CeilDiv(a: int, b: int): (q: int)
    requires b > 0
    ensures q * b >= a && (q - 1) * b < a
  {
    (a + b - 1) / b
  }

  lemma CeilDivUnique(a: int, b: int, q: int)
    requires b > 0 && q * b >= a && (q - 1) * b < a
    ensures q == CeilDiv(a, b)
  {
    var c := CeilDiv(a, b);
    TimesMonotone(q, c - 1, b);
    TimesMonotone(c, q - 1, b);
  }

  // ---------------------------------------------------------------------
  // Sorting by slots and the exchange argument
  // ---------------------------------------------------------------------

  predicate Descending(s: seq<Snapshot>) {
    forall i, j :: 0 <= i < j < |s| ==> s[i].appSlots >= s[j].appSlots
  }

  function Insert(s: seq<Snapshot>, x: Snapshot): (r: seq<Snapshot>)
    ensures |r| == |s| + 1 && multiset(r) == multiset(s) + multiset{x}
  {
    if |s| == 0 || s[|s| - 1].appSlots >= x.appSlots then s + [x]
    else
      assert s == s[..|s| - 1] + [s[|s| - 1]];
      Insert(s[..|s| - 1], x) + [s[|s| - 1]]
  }

  lemma {:induction false} InsertKeepsOrder(s: seq<Snapshot>, x: Snapshot)
    requires Descending(s)
    ensures Descending(Insert(s, x))
  {
    if |s| == 0 || s[|s| - 1].appSlots >= x.appSlots {
    } else {
      var init, last := s[..|s| - 1], s[|s| - 1];
      InsertKeepsOrder(init, x);
      var r := Insert(init, x);
      forall i | 0 <= i < |r| ensures r[i].appSlots >= last.appSlots {
        assert r[i] in multiset(r);
        assert r[i] == x || r[i] in multiset(init);
      }
    }
  }

  /** The library sort: a permutation in descending order of slots. Every result of this module
      is the same for every order of ties. */
  function SortBySlots(s: seq<Snapshot>): (r: seq<Snapshot>)
    ensures multiset(r) == multiset(s) && |r| == |s| && Descending(r)
  {
    if |s| == 0 then []
    else
      var init := s[..|s| - 1];
      assert s == init + [s[|s| - 1]];
      InsertKeepsOrder(SortBySlots(init), s[|s| - 1]);
      Insert(SortBySlots(init), s[|s| - 1])
  }

  lemma {:induction false} SlotsPrefix(a: seq<Snapshot>, b: seq<Snapshot>, n: nat)
    requires n <= |a| && n <= |b| && a[..n] == b[..n]
    ensures SlotsTo(a, n) == SlotsTo(b, n)
  {
    if n > 0 {
      assert a[..n][..n - 1] == a[..n - 1] && b[..n][..n - 1] == b[..n - 1];
      assert a[n - 1] == a[..n][n - 1] && b[n - 1] == b[..n][n - 1];
      SlotsPrefix(a, b, n - 1);
    }
  }

  function Without(s: seq<Snapshot>, j: nat): seq<Snapshot>
    requires j < |s|
  {
    s[..j] + s[j + 1..]
  }

  lemma Cancel(a: multiset<Snapshot>, b: multiset<Snapshot>, x: Snapshot)
    requires a + multiset{x} <= b + multiset{x}
    ensures a <= b
  {
    forall y ensures a[y] <= b[y] {
      assert (a + multiset{x})[y] <= (b + multiset{x})[y];
    }
  }

  lemma TakeOut(s: seq<Snapshot>, j: nat)
    requires j < |s|
    ensures multiset(s) == multiset(Without(s, j)) + multiset{s[j]}
  {
    assert s == s[..j] + [s[j]] + s[j + 1..];
  }

  lemma {:induction false} SlotsWithout(s: seq<Snapshot>, j: nat, n: nat)
    requires j < n <= |s|
    ensures SlotsTo(s, n) == SlotsTo(Without(s, j), n - 1) + s[j].appSlots
  {
    if n == j + 1 {
      SlotsPrefix(s, Without(s, j), j);
    } else {
      SlotsWithout(s, j, n - 1);
    }
  }

  lemma {:induction false} SlotsMonotone(s: seq<Snapshot>, m: nat, n: nat)
    requires m <= n <= |s|
    ensures SlotsTo(s, m) <= SlotsTo(s, n)
  {
    if m < n {
      SlotsMonotone(s, m, n - 1);
    }
  }

  lemma PrefixBag(s: seq<Snapshot>, n: nat)
    requires 0 < n <= |s|
    ensures multiset(s[..n]) == multiset(s[..n - 1]) + multiset{s[n - 1]}
  {
    assert s[..n] == s[..n - 1] + [s[n - 1]];
  }

  lemma DropAbsent(a: multiset<Snapshot>, b: multiset<Snapshot>, x: Snapshot)
    requires a <= b + multiset{x} && x !in a
    ensures a <= b
  {
    forall y | y in a ensures a[y] <= b[y] {
      assert (b + multiset{x})[y] == b[y];
    }
  }

  /** Taking the last node out of a choice leaves a choice among the nodes before it. */
  lemma TakeOutLast(sorted: seq<Snapshot>, chosen: seq<Snapshot>, n: nat, j: nat)
    requires 0 < n <= |sorted| && multiset(chosen) <= multiset(sorted[..n])
    requires j < |chosen| && chosen[j] == sorted[n - 1]
    ensures multiset(Without(chosen, j)) <= multiset(sorted[..n - 1])
  {
    PrefixBag(sorted, n);
    TakeOut(chosen, j);
    Cancel(multiset(Without(chosen, j)), multiset(sorted[..n - 1]), sorted[n - 1]);
  }

  /** The exchange argument: no choice of k nodes has more slots than the k largest nodes. */
  lemma {:induction false} LargestAreBest(sorted: seq<Snapshot>, chosen: seq<Snapshot>, n: nat)
    requires Descending(sorted) && n <= |sorted| && multiset(chosen) <= multiset(sorted[..n])
    ensures |chosen| <= n && Slots(chosen) <= SlotsTo(sorted, |chosen|)
  {
    if n == 0 {
      assert |multiset(chosen)| <= |multiset(sorted[..0])|;
    } else {
      var last := sorted[n - 1];
      if last in chosen {
        var j :| 0 <= j < |chosen| && chosen[j] == last;
        TakeOutLast(sorted, chosen, n, j);
        LargestAreBest(sorted, Without(chosen, j), n - 1);
        Exchange(sorted, chosen, j, n);
      } else {
        PrefixBag(sorted, n);
        DropAbsent(multiset(chosen), multiset(sorted[..n - 1]), last);
        LargestAreBest(sorted, chosen, n - 1);
      }
    }
  }

  /** Without its smallest node the choice is no better than the largest ones; with it neither. */
  lemma Exchange(sorted: seq<Snapshot>, chosen: seq<Snapshot>, j: nat, n: nat)
    requires Descending(sorted) && 0 < n <= |sorted| && j < |chosen| && chosen[j] == sorted[n - 1]
    requires |Without(chosen, j)| <= n - 1
    requires Slots(Without(chosen, j)) <= SlotsTo(sorted, |Without(chosen, j)|)
    ensures Slots(chosen) <= SlotsTo(sorted, |chosen|)
  {
    var k := |chosen| - 1;
    SlotsWithout(chosen, j, |chosen|);
    assert sorted[k].appSlots >= sorted[n - 1].appSlots;
    assert SlotsTo(sorted, k + 1) == SlotsTo(sorted, k) + sorted[k].appSlots;
  }

  lemma NoSmallerCover(ready: seq<Snapshot>, sorted: seq<Snapshot>, demand: int, k: nat, chosen: seq<Snapshot>)
    requires multiset(sorted) == multiset(ready) && Descending(sorted) && k <= |sorted|
    requires k > 0 ==> SlotsTo(sorted, k - 1) < demand
    requires Selection(chosen, ready) && Slots(chosen) >= demand
    ensures k <= |chosen|
  {
    assert sorted[..|sorted|] == sorted;
    LargestAreBest(sorted, chosen, |sorted|);
    if |chosen| < k {
      SlotsMonotone(sorted, |chosen|, k - 1);
    }
  }

  /** The shortest prefix of the sorted nodes that covers the demand is a least cover. */
  lemma ShortestPrefixIsLeast(ready: seq<Snapshot>, sorted: seq<Snapshot>, demand: int, k: nat)
    requires multiset(sorted) == multiset(ready) && Descending(sorted)
    requires k <= |sorted| && SlotsTo(sorted, k) >= demand
    requires k > 0 ==> SlotsTo(sorted, k - 1) < demand
    ensures LeastCover(ready, demand, k)
  {
    var prefix := sorted[..k];
    assert sorted == prefix + sorted[k..];
    SlotsPrefix(sorted, prefix, k);
    assert Selection(prefix, ready) && Slots(prefix) >= demand && |prefix| == k;
    forall chosen | Selection(chosen, ready) && Slots(chosen) >= demand ensures k <= |chosen| {
      NoSmallerCover(ready, sorted, demand, k, chosen);
    }
  }

  lemma SameMultisetSameLength(a: seq<Snapshot>, b: seq<Snapshot>)
    requires multiset(a) == multiset(b)
    ensures |a| == |b|
  {
    assert |multiset(a)| == |a| && |multiset(b)| == |b|;
  }

  lemma {:induction false} SlotsPermuted(s: seq<Snapshot>, a: seq<Snapshot>)
    requires multiset(a) == multiset(s)
    ensures Slots(a) == Slots(s)
    decreases |s|
  {
    SameMultisetSameLength(a, s);
    if |s| > 0 {
      var n := |s|;
      var x := s[n - 1];
      assert s == s[..n - 1] + [x];
      assert x in multiset(a);
      var j :| 0 <= j < |a| && a[j] == x;
      TakeOut(a, j);
      assert multiset(s) == multiset(s[..n - 1]) + multiset{x};
      Cancel(multiset(Without(a, j)), multiset(s[..n - 1]), x);
      Cancel(multiset(s[..n - 1]), multiset(Without(a, j)), x);
      SlotsPermuted(s[..n - 1], Without(a, j));
      SlotsWithout(a, j, n);
      SlotsPrefix(s, s[..n - 1], n - 1);
    }
  }

  // ---------------------------------------------------------------------
  // The two strategies
  // ---------------------------------------------------------------------

  function DirectDivideTarget(desired: int, podsPerWorker: int): (target: int)
    requires podsPerWorker > 0
    ensures desired > 0 ==> LeastFresh(desired, podsPerWorker, target)
    ensures desired <= 0 ==> target == 0
  {
    if desired > 0 then CeilDiv(desired, podsPerWorker) else 0
  }

  /** What the free-slots strategy promises. */
  ghost predicate FreeSlotsPromise(ready: seq<Snapshot>, desired: int, podsPerWorker: int, c: Computation) {
    && c.totalSlots == Slots(ready) && c.readyWorkers == |ready|
    && (desired <= 0 ==> c.target == 0 && c.requiredReady == 0 && c.missingSlots == 0)
    && (0 < desired <= Slots(ready) ==>
          LeastCover(ready, desired, c.requiredReady) && c.target == c.requiredReady && c.missingSlots == 0)
    && (desired > Slots(ready) && desired > 0 ==>
          && c.requiredReady == |ready| && c.missingSlots == desired - Slots(ready)
          && LeastFresh(c.missingSlots, podsPerWorker, c.target - |ready|))
  }

  /**
    Greedy selection over the nodes in descending order of slots. The result is the least number
    of ready nodes that covers the demand, or all of them plus the least number of fresh workers.
  */
  method ResolveWorkerTargetCountByFreeSlots(snapshots: seq<Snapshot>, desired: int, podsPerWorker: int)
    returns (c: Computation)
    requires podsPerWorker > 0
    ensures FreeSlotsPromise(snapshots, desired, podsPerWorker, c)
  {
    var total := 0;
    for i := 0 to |snapshots|
      invariant total == SlotsTo(snapshots, i)
    {
      total := total + snapshots[i].appSlots;
    }
    if desired <= 0 {
      return Computation(0, 0, 0, total, |snapshots|);
    }
    var sorted := SortBySlots(snapshots);
    SlotsPermuted(snapshots, sorted);
    var required, remaining := TakeLargestFirst(sorted, desired);
    if remaining <= 0 {
      SlotsMonotone(sorted, required, |sorted|);
      ShortestPrefixIsLeast(snapshots, sorted, desired, required);
      return Computation(required, required, 0, total, |snapshots|);
    }
    var fresh_ := CeilDiv(remaining, podsPerWorker);
    return Computation(|snapshots| + fresh_, |snapshots|, remaining, total, |snapshots|);
  }

  /** The greedy loop: stops at the shortest covering prefix, or runs out of slots. */
  method TakeLargestFirst(sorted: seq<Snapshot>, desired: int) returns (required: nat, remaining: int)
    requires Descending(sorted) && desired > 0
    ensures required <= |sorted| && remaining == desired - SlotsTo(sorted, required)
    ensures required > 0 ==> SlotsTo(sorted, required - 1) < desired
    ensures remaining > 0 ==> remaining == desired - Slots(sorted)
  {
    remaining, required := desired, 0;
    var i := 0;
    while i < |sorted| && remaining > 0
      invariant required <= i <= |sorted|
      invariant remaining == desired - SlotsTo(sorted, required) == desired - SlotsTo(sorted, i)
      invariant required > 0 ==> SlotsTo(sorted, required - 1) < desired
      invariant required < i ==> sorted[required].appSlots == 0
    {
      var snapshot := sorted[i];
      i := i + 1;
      if snapshot.appSlots <= 0 {
        continue;
      }
      required := required + 1;
      remaining := remaining - snapshot.appSlots;
    }
  }

  lemma {:induction false} UniformSlots(s: seq<Snapshot>, p: nat, n: nat)
    requires n <= |s| && forall i :: 0 <= i < |s| ==> s[i].appSlots == p
    ensures SlotsTo(s, n) == n * p
  {
    if n > 0 {
      UniformSlots(s, p, n - 1);
      assert n * p == (n - 1) * p + p;
    }
  }

  lemma UniformSelection(ready: seq<Snapshot>, p: nat, chosen: seq<Snapshot>)
    requires forall i :: 0 <= i < |ready| ==> ready[i].appSlots == p
    requires Selection(chosen, ready)
    ensures Slots(chosen) == |chosen| * p
  {
    forall i | 0 <= i < |chosen| ensures chosen[i].appSlots == p {
      assert chosen[i] in multiset(chosen);
      assert chosen[i] in multiset(ready);
    }
    UniformSlots(chosen, p, |chosen|);
  }

  /** Any c nodes of a uniform list cover what c times their slots reach. */
  lemma UniformPrefixCovers(ready: seq<Snapshot>, desired: int, p: nat, k: int, c: nat)
    requires LeastCover(ready, desired, k) && c <= |ready| && c * p >= desired
    requires forall i :: 0 <= i < |ready| ==> ready[i].appSlots == p
    ensures k <= c
  {
    var least := ready[..c];
    assert ready == least + ready[c..];
    assert Selection(least, ready);
    UniformSelection(ready, p, least);
  }

  lemma UniformCoverReaches(ready: seq<Snapshot>, desired: int, p: nat, k: int)
    requires LeastCover(ready, desired, k)
    requires forall i :: 0 <= i < |ready| ==> ready[i].appSlots == p
    ensures k >= 0 && k * p >= desired
  {
    var chosen :| Selection(chosen, ready) && Slots(chosen) >= desired && |chosen| == k;
    UniformSelection(ready, p, chosen);
  }

  lemma UniformCover(ready: seq<Snapshot>, desired: int, p: nat, k: int)
    requires p > 0 && 0 < desired <= Slots(ready) && LeastCover(ready, desired, k)
    requires forall i :: 0 <= i < |ready| ==> ready[i].appSlots == p
    ensures k == CeilDiv(desired, p)
  {
    var c := CeilDiv(desired, p);
    UniformSlots(ready, p, |ready|);
    TimesMonotone(|ready|, c - 1, p);
    TimesMonotone(c, 0, p);
    UniformPrefixCovers(ready, desired, p, k, c);
    UniformCoverReaches(ready, desired, p, k);
    TimesMonotone(k, c - 1, p);
  }

  lemma UniformShortage(n: nat, desired: int, p: nat, f: int)
    requires p > 0 && LeastFresh(desired - n * p, p, f)
    ensures n + f == CeilDiv(desired, p)
  {
    assert (n + f) * p == f * p + n * p;
    assert (n + f - 1) * p == (f - 1) * p + n * p;
    CeilDivUnique(desired, p, n + f);
  }

  /** When every ready node has exactly podsPerWorker slots the strategies give the same target. */
  lemma StrategiesAgree(ready: seq<Snapshot>, desired: int, podsPerWorker: int, c: Computation)
    requires podsPerWorker > 0 && FreeSlotsPromise(ready, desired, podsPerWorker, c)
    requires forall i :: 0 <= i < |ready| ==> ready[i].appSlots == podsPerWorker
    ensures c.target == DirectDivideTarget(desired, podsPerWorker)
  {
    if 0 < desired <= Slots(ready) {
      UniformCover(ready, desired, podsPerWorker, c.requiredReady);
    } else if desired > 0 {
      UniformSlots(ready, podsPerWorker, |ready|);
      UniformShortage(|ready|, desired, podsPerWorker, c.target - |ready|);
    }
  }

  /** A count that respects the bounds; a maximum that is not positive is no bound. */
  predicate Admissible(b: int, minWorkers: int, maxWorkers: int) {
    b >= minWorkers && (maxWorkers > 0 ==> b <= maxWorkers)
  }

  function Distance(a: int, b: int): nat { if a < b then b - a else a - b }

  /** The admissible count nearest to the target; the maximum when the bounds exclude each other. */
  function ApplyWorkerTargetBounds(target: int, minWorkers: int, maxWorkers: int): (r: int)
    ensures maxWorkers <= 0 || minWorkers <= maxWorkers ==> Admissible(r, minWorkers, maxWorkers)
    ensures forall b :: Admissible(b, minWorkers, maxWorkers) ==> Distance(r, target) <= Distance(b, target)
    ensures minWorkers > maxWorkers > 0 ==> r == maxWorkers
  {
    var raised := if target < minWorkers then minWorkers else target;
    if maxWorkers > 0 && raised > maxWorkers then maxWorkers else raised
  }

  // ---------------------------------------------------------------------
  // Node snapshots
  // ---------------------------------------------------------------------

  datatype Node = Node(name: string, ready: bool, cpuMilli: Option<int>)
  datatype Pod = Pod(node: string, deleting: bool, finished: bool, ofDeployment: bool, requestMilli: int)

  /** The reported CPU when it is positive, otherwise the default. */
  function Allocatable(node: Node, default_: int): (cpu: int)
    ensures (node.cpuMilli == Some(cpu) && cpu > 0) ||
            (cpu == default_ && (node.cpuMilli.Some? ==> node.cpuMilli.value <= 0))
  {
    if node.cpuMilli.Some? && node.cpuMilli.value > 0 then node.cpuMilli.value else default_
  }

  /** The ready nodes of a list, in its order. */
  function ReadyNodes(nodes: seq<Node>, n: nat): seq<Node>
    requires n <= |nodes|
  {
    if n == 0 then []
    else ReadyNodes(nodes, n - 1) + if nodes[n - 1].ready then [nodes[n - 1]] else []
  }

  predicate Occupies(pod: Pod, nodeName: string) {
    !pod.deleting && pod.node != "" && !pod.finished && pod.node == nodeName
  }

  /** CPU held on a node by pods of other workloads. */
  function HeldByOthers(pods: seq<Pod>, nodeName: string, n: nat): int
    requires n <= |pods|
  {
    if n == 0 then 0
    else HeldByOthers(pods, nodeName, n - 1) +
         if Occupies(pods[n - 1], nodeName) && !pods[n - 1].ofDeployment then pods[n - 1].requestMilli else 0
  }

  predicate OnSome(pod: Pod, ready: seq<Node>) {
    exists j :: 0 <= j < |ready| && Occupies(pod, ready[j].name)
  }

  /** How many of the first n pods are the deployment's own, placed on a ready node. */
  function OwnPodsOn(pods: seq<Pod>, ready: seq<Node>, n: nat): nat
    requires n <= |pods|
  {
    if n == 0 then 0
    else OwnPodsOn(pods, ready, n - 1) + if OnSome(pods[n - 1], ready) && pods[n - 1].ofDeployment then 1 else 0
  }

  /** The greatest number of pods of the given size that fit in the free CPU; none when overcommitted. */
  predicate MostThatFit(slots: int, free: int, podMilli: int) {
    slots >= 0 && (slots + 1) * podMilli > free && (slots > 0 ==> slots * podMilli <= free)
  }

  /** Exactly the ready nodes are listed. */
  lemma {:induction false} ReadyNodesExactly(nodes: seq<Node>, n: nat, node: Node)
    requires n <= |nodes|
    ensures node in ReadyNodes(nodes, n) <==> node.ready && exists i :: 0 <= i < n && nodes[i] == node
    ensures |ReadyNodes(nodes, n)| <= n
  {
    if n > 0 {
      ReadyNodesExactly(nodes, n - 1, node);
      var rest, last := ReadyNodes(nodes, n - 1), nodes[n - 1];
      assert node in ReadyNodes(nodes, n) <==> node in rest || (last.ready && node == last);
    }
  }

  /** A live, placed, unfinished pod of another workload holds its request on its own node and on no other. */
  lemma HeldExactly(pods: seq<Pod>, nodeName: string, n: nat)
    requires 0 < n <= |pods|
    ensures var pod := pods[n - 1];
      HeldByOthers(pods, nodeName, n) - HeldByOthers(pods, nodeName, n - 1) ==
      if pod.node == nodeName && |nodeName| > 0 && !pod.deleting && !pod.finished && !pod.ofDeployment
      then pod.requestMilli else 0
  {
  }

  /** A live, placed, unfinished pod of the deployment is counted when its node is ready. */
  lemma OwnPodsExactly(pods: seq<Pod>, ready: seq<Node>, n: nat)
    requires 0 < n <= |pods|
    ensures var pod := pods[n - 1];
      OwnPodsOn(pods, ready, n) - OwnPodsOn(pods, ready, n - 1) ==
      if |pod.node| > 0 && !pod.deleting && !pod.finished && pod.ofDeployment &&
         exists node :: node in ready && node.name == pod.node
      then 1 else 0
  {
    var pod := pods[n - 1];
    if OnSome(pod, ready) {
      var j :| 0 <= j < |ready| && Occupies(pod, ready[j].name);
      assert ready[j] in ready;
    }
  }

  /** What is known of snapshot j after the first n pods. */
  predicate Describes(s: Snapshot, node: Node, default_: int, pods: seq<Pod>, n: nat)
    requires n <= |pods|
  {
    s.nodeName == node.name && s.allocatable == Allocatable(node, default_) &&
    s.reserved == HeldByOthers(pods, node.name, n)
  }

  /** The map from names to positions. */
  predicate NamesOf(byName: map<string, nat>, ready: seq<Node>) {
    && (forall j :: 0 <= j < |ready| ==> ready[j].name in byName && byName[ready[j].name] == j)
    && (forall name :: name in byName ==> byName[name] < |ready| && ready[byName[name]].name == name)
  }

  lemma NameAdded(byName: map<string, nat>, ready: seq<Node>, node: Node)
    requires NamesOf(byName, ready) && node.name !in byName
    ensures NamesOf(byName[node.name := |ready|], ready + [node])
  {
  }

  method SnapshotReadyNodes(nodes: seq<Node>, default_: int)
    returns (snapshots: seq<Snapshot>, byName: map<string, nat>)
    requires forall i, j :: 0 <= i < j < |nodes| ==> nodes[i].name != nodes[j].name
    ensures var ready := ReadyNodes(nodes, |nodes|);
      && |snapshots| == |ready|
      && (forall j :: 0 <= j < |ready| ==> Describes(snapshots[j], ready[j], default_, [], 0))
      && NamesOf(byName, ready)
  {
    snapshots, byName := [], map[];
    for i := 0 to |nodes|
      invariant var ready := ReadyNodes(nodes, i);
        && |snapshots| == |ready|
        && (forall j :: 0 <= j < |ready| ==> Describes(snapshots[j], ready[j], default_, [], 0))
        && NamesOf(byName, ready)
      invariant forall k :: i <= k < |nodes| ==> nodes[k].name !in byName
    {
      if nodes[i].ready {
        snapshots := snapshots + [Snapshot(nodes[i].name, Allocatable(nodes[i], default_), 0, 0)];
        NameAdded(byName, ReadyNodes(nodes, i), nodes[i]);
        byName := byName[nodes[i].name := |snapshots| - 1];
      }
    }
  }

  /** Slots of the ready nodes: free CPU after other workloads, in pods; the deployment's own pods do not count. */
  method BuildWorkerNodeCapacitySnapshots(nodes: seq<Node>, pods: seq<Pod>, defaultAllocatable: int, appPodMilli: int)
    returns (snapshots: seq<Snapshot>, ownScheduledPods: nat)
    requires forall i, j :: 0 <= i < j < |nodes| ==> nodes[i].name != nodes[j].name
    ensures ownScheduledPods == OwnPodsOn(pods, ReadyNodes(nodes, |nodes|), |pods|)
    ensures var ready := ReadyNodes(nodes, |nodes|);
      && |snapshots| == |ready|
      && (forall j :: 0 <= j < |ready| ==>
            && Describes(snapshots[j], ready[j], defaultAllocatable, pods, |pods|)
            && MostThatFit(snapshots[j].appSlots, snapshots[j].allocatable - snapshots[j].reserved,
                           Max(appPodMilli, 1)))
  {
    var podMilli := if appPodMilli <= 0 then 1 else appPodMilli;
    ghost var ready := ReadyNodes(nodes, |nodes|);
    var byName: map<string, nat>;
    snapshots, byName := SnapshotReadyNodes(nodes, defaultAllocatable);
    ownScheduledPods := 0;
    for i := 0 to |pods|
      invariant |snapshots| == |ready| && ownScheduledPods == OwnPodsOn(pods, ready, i)
      invariant forall j :: 0 <= j < |ready| ==> Describes(snapshots[j], ready[j], defaultAllocatable, pods, i)
    {
      var pod := pods[i];
      if pod.deleting || pod.node == "" || pod.finished || pod.node !in byName {
        continue;
      }
      var j := byName[pod.node];
      assert Occupies(pod, ready[j].name);
      if pod.ofDeployment {
        ownScheduledPods := ownScheduledPods + 1;
        continue;
      }
      snapshots := snapshots[j := snapshots[j].(reserved := snapshots[j].reserved + pod.requestMilli)];
    }
    snapshots := AssignSlots(snapshots, podMilli);
  }

  method AssignSlots(before: seq<Snapshot>, podMilli: int) returns (snapshots: seq<Snapshot>)
    requires podMilli > 0
    ensures |snapshots| == |before|
    ensures forall j :: 0 <= j < |before| ==>
      && snapshots[j] == before[j].(appSlots := snapshots[j].appSlots)
      && MostThatFit(snapshots[j].appSlots, before[j].allocatable - before[j].reserved, podMilli)
  {
    snapshots := before;
    for i := 0 to |snapshots|
      invariant |snapshots| == |before|
      invariant forall j :: i <= j < |before| ==> snapshots[j] == before[j]
      invariant forall j :: 0 <= j < i ==>
        && snapshots[j] == before[j].(appSlots := snapshots[j].appSlots)
        && MostThatFit(snapshots[j].appSlots, before[j].allocatable - before[j].reserved, podMilli)
    {
      var free := snapshots[i].allocatable - snapshots[i].reserved;
      if free < 0 {
        free := 0;
      }
      snapshots := snapshots[i := snapshots[i].(appSlots := free / podMilli)];
    }
  }
}
