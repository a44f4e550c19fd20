/** What every sequence of arrivals, worker messages, failures and shutdowns keeps. */
module WorkerPoolSafety {
  import opened Common
  import opened WorkerPool

  function Holds(slot: Slot, p: Promise): nat {
    if slot.active.Some? && slot.active.value.promise == p then 1 else 0
  }

  /** How many of the first n slots run promise p. */
  function ActiveCount(slots: seq<Slot>, n: nat, p: Promise): nat
    requires n <= |slots|
  {
    if n == 0 then 0 else ActiveCount(slots, n - 1, p) + Holds(slots[n - 1], p)
  }

  /** How many of the first n settlements are for promise p. */
  function SettledCount(log: seq<Settlement>, n: nat, p: Promise): nat
    requires n <= |log|
  {
    if n == 0 then 0 else SettledCount(log, n - 1, p) + if log[n - 1].promise == p then 1 else 0
  }

  function QueueCount(queue: seq<Promise>, n: nat, p: Promise): nat
    requires n <= |queue|
  {
    if n == 0 then 0 else QueueCount(queue, n - 1, p) + if queue[n - 1] == p then 1 else 0
  }

  /** How often promise p is settled. */
  function Settlements(s: State, p: Promise): nat { SettledCount(s.settled, |s.settled|, p) }

  /** How many places promise p is in: waiting, running, or settled. */
  function Places(s: State, p: Promise): nat {
    QueueCount(s.queue, |s.queue|, p) + ActiveCount(s.slots, |s.slots|, p) + Settlements(s, p)
  }

  /** Each accepted promise is in exactly one place; no other promise is anywhere. */
  ghost predicate Partition(s: State) {
    forall p: Promise :: Places(s, p) == if p < s.accepted then 1 else 0
  }

  /** A slot that is not busy never holds a task; shutdown, which leaves the busy flags, keeps this. */
  predicate IdleIsEmpty(s: State) {
    forall k :: 0 <= k < |s.slots| && !s.slots[k].busy ==> s.slots[k].active.None?
  }

  // ---------------------------------------------------------------------
  // Moving promises between places
  // ---------------------------------------------------------------------

  lemma {:induction false} ActiveUpdate(slots: seq<Slot>, k: nat, x: Slot, n: nat, p: Promise)
    requires k < |slots| && n <= |slots|
    ensures ActiveCount(slots[k := x], n, p) ==
            ActiveCount(slots, n, p) + if k < n then Holds(x, p) - Holds(slots[k], p) else 0
  {
    if n > 0 {
      ActiveUpdate(slots, k, x, n - 1, p);
    }
  }

  lemma {:induction false} SettledPrefix(a: seq<Settlement>, b: seq<Settlement>, n: nat, p: Promise)
    requires n <= |a|
    ensures SettledCount(a + b, n, p) == SettledCount(a, n, p)
  {
    if n > 0 {
      SettledPrefix(a, b, n - 1, p);
    }
  }

  lemma {:induction false} SettledConcat(a: seq<Settlement>, b: seq<Settlement>, n: nat, p: Promise)
    requires n <= |b|
    ensures SettledCount(a + b, |a| + n, p) == SettledCount(a, |a|, p) + SettledCount(b, n, p)
  {
    if n == 0 {
      SettledPrefix(a, b, |a|, p);
    } else {
      SettledConcat(a, b, n - 1, p);
      assert (a + b)[|a| + n - 1] == b[n - 1];
    }
  }

  lemma {:induction false} QueuePrefix(queue: seq<Promise>, x: Promise, n: nat, p: Promise)
    requires n <= |queue|
    ensures QueueCount(queue + [x], n, p) == QueueCount(queue, n, p)
  {
    if n > 0 {
      QueuePrefix(queue, x, n - 1, p);
    }
  }

  lemma {:induction false} QueueShift(queue: seq<Promise>, n: nat, p: Promise)
    requires 0 < n <= |queue|
    ensures QueueCount(queue, n, p) == QueueCount(queue[1..], n - 1, p) + if queue[0] == p then 1 else 0
  {
    if n > 1 {
      QueueShift(queue, n - 1, p);
    } else {
      assert QueueCount(queue, 1, p) == QueueCount(queue, 0, p) + if queue[0] == p then 1 else 0;
    }
  }

  lemma SettleMoves(s: State, q: Promise, resolved: bool, p: Promise)
    ensures Places(Settle(s, q, resolved), p) == Places(s, p) + if q == p then 1 else 0
    ensures Settlements(Settle(s, q, resolved), p) == Settlements(s, p) + if q == p then 1 else 0
  {
    var one := [Settlement(q, resolved)];
    SettledPrefix(s.settled, one, |s.settled|, p);
    assert (s.settled + one)[|s.settled|] == one[0];
  }

  lemma FreeMoves(s: State, k: nat, p: Promise)
    requires k < |s.slots|
    ensures Places(Free(s, k), p) + Holds(s.slots[k], p) == Places(s, p)
  {
    ActiveUpdate(s.slots, k, Slot(false, None), |s.slots|, p);
  }

  lemma AssignMoves(s: State, k: nat, q: Promise, p: Promise)
    requires k < |s.slots| && s.slots[k].active.None?
    ensures Places(Assign(s, k, q), p) == Places(s, p) + if q == p then 1 else 0
  {
    ActiveUpdate(s.slots, k, Slot(true, Some(ActiveTask(s.nextTaskId, q))), |s.slots|, p);
  }

  lemma DispatchMoves(s: State, p: Promise)
    requires IdleIsEmpty(s)
    ensures Places(Dispatch(s), p) == Places(s, p)
    ensures IdleIsEmpty(Dispatch(s)) && Dispatch(s).accepted == s.accepted && Dispatch(s).settled == s.settled
  {
    var k := FirstFree(s.slots);
    if !s.shuttingDown && k < |s.slots| && |s.queue| > 0 {
      QueueShift(s.queue, |s.queue|, p);
      AssignMoves(s.(queue := s.queue[1..]), k, s.queue[0], p);
    }
  }

  lemma ArrivalMoves(capacity: nat, s: State, p: Promise)
    requires IdleIsEmpty(s)
    ensures IdleIsEmpty(Arrival(capacity, s)) && Arrival(capacity, s).settled == s.settled
    ensures var t := Arrival(capacity, s);
      s.accepted <= t.accepted && Places(t, p) == Places(s, p) + if s.accepted <= p < t.accepted then 1 else 0
  {
    var k := FirstFree(s.slots);
    if k < |s.slots| {
      AssignMoves(s.(accepted := s.accepted + 1), k, s.accepted, p);
    } else if |s.queue| < capacity {
      QueuePrefix(s.queue, s.accepted, |s.queue|, p);
      assert (s.queue + [s.accepted])[|s.queue|] == s.accepted;
    }
  }

  /** Freeing a slot and settling its task keeps every promise in one place. */
  lemma RetireMoves(s: State, k: nat, resolved: bool, p: Promise)
    requires k < |s.slots| && s.slots[k].active.Some? && IdleIsEmpty(s)
    ensures var t := Settle(Free(s, k), s.slots[k].active.value.promise, resolved);
      Places(t, p) == Places(s, p) && IdleIsEmpty(t) && t.accepted == s.accepted && s.settled <= t.settled
  {
    FreeMoves(s, k, p);
    SettleMoves(Free(s, k), s.slots[k].active.value.promise, resolved, p);
  }

  lemma {:induction false} RejectionsSettle(queue: seq<Promise>, n: nat, p: Promise)
    requires n <= |queue|
    ensures SettledCount(Rejections(queue), n, p) == QueueCount(queue, n, p)
  {
    if n > 0 {
      RejectionsSettle(queue, n - 1, p);
    }
  }

  lemma {:induction false} ActiveRejectionsSettle(slots: seq<Slot>, n: nat, p: Promise)
    requires n <= |slots|
    ensures SettledCount(ActiveRejections(slots, n), |ActiveRejections(slots, n)|, p) == ActiveCount(slots, n, p)
  {
    if n > 0 {
      ActiveRejectionsSettle(slots, n - 1, p);
      var before := ActiveRejections(slots, n - 1);
      if slots[n - 1].active.Some? {
        var one := [Settlement(slots[n - 1].active.value.promise, false)];
        SettledConcat(before, one, 1, p);
        assert SettledCount(one, 1, p) == SettledCount(one, 0, p) + Holds(slots[n - 1], p);
      } else {
        assert ActiveRejections(slots, n) == before;
      }
    }
  }

  lemma {:induction false} NoneActive(slots: seq<Slot>, n: nat, p: Promise)
    requires n <= |slots| && forall k :: 0 <= k < |slots| ==> slots[k].active.None?
    ensures ActiveCount(slots, n, p) == 0
  {
    if n > 0 {
      NoneActive(slots, n - 1, p);
    }
  }

  lemma ShutdownSettles(s: State, p: Promise)
    ensures Settlements(OnShutdown(s), p) == Places(s, p)
  {
    var a, b := Rejections(s.queue), ActiveRejections(s.slots, |s.slots|);
    RejectionsSettle(s.queue, |s.queue|, p);
    ActiveRejectionsSettle(s.slots, |s.slots|, p);
    SettledConcat(s.settled, a, |a|, p);
    SettledConcat(s.settled + a, b, |b|, p);
  }

  /** Shutdown settles everything that was waiting or running, in one sweep. */
  lemma ShutdownMoves(s: State, p: Promise)
    ensures var t := OnShutdown(s);
      Places(t, p) == Places(s, p) == Settlements(t, p) && IdleIsEmpty(t) && t.accepted == s.accepted
    ensures s.settled <= OnShutdown(s).settled
  {
    var t := OnShutdown(s);
    NoneActive(t.slots, |t.slots|, p);
    ShutdownSettles(s, p);
  }

  lemma FailureMoves(s: State, k: nat, p: Promise)
    requires IdleIsEmpty(s)
    ensures var t := OnFailure(s, k);
      Places(t, p) == Places(s, p) && IdleIsEmpty(t) && t.accepted == s.accepted && s.settled <= t.settled
  {
    if !s.shuttingDown && k < |s.slots| {
      if s.slots[k].active.Some? {
        RetireMoves(s, k, false, p);
        DispatchMoves(Settle(Free(s, k), s.slots[k].active.value.promise, false), p);
      } else {
        FreeMoves(s, k, p);
        DispatchMoves(Free(s, k), p);
      }
    }
  }

  lemma MessageMoves(s: State, k: nat, taskId: nat, reply: Reply, p: Promise)
    requires IdleIsEmpty(s)
    ensures var t := OnMessage(s, k, taskId, reply);
      Places(t, p) == Places(s, p) && IdleIsEmpty(t) && t.accepted == s.accepted && s.settled <= t.settled
  {
    if Answers(s, k, taskId) {
      RetireMoves(s, k, reply.Result?, p);
      DispatchMoves(Settle(Free(s, k), s.slots[k].active.value.promise, reply.Result?), p);
    }
  }

  /** From s to t promise p gains a place if its request was accepted in between; settlements stay. */
  predicate Moves(s: State, t: State, p: Promise) {
    && IdleIsEmpty(t) && s.accepted <= t.accepted && s.settled <= t.settled
    && Places(t, p) == Places(s, p) + if s.accepted <= p < t.accepted then 1 else 0
  }

  /** One event: a promise appears when its request is accepted, and is never lost or duplicated. */
  lemma StepMoves(capacity: nat, s: State, e: Event, p: Promise)
    requires IdleIsEmpty(s)
    ensures Moves(s, Step(capacity, s, e), p)
  {
    match e {
      case Arrive => ArrivalMoves(capacity, s, p);
      case Message(k, taskId, reply) => MessageMoves(s, k, taskId, reply, p);
      case WorkerError(k) => FailureMoves(s, k, p);
      case WorkerExit(k, code) => FailureMoves(s, k, p);
      case Shutdown => ShutdownMoves(s, p);
    }
  }

  // ---------------------------------------------------------------------
  // Runs: each promise in exactly one place, settled at most once
  // ---------------------------------------------------------------------

  lemma MovesNowhere(s: State, p: Promise)
    requires IdleIsEmpty(s)
    ensures Moves(s, s, p)
  {
  }

  lemma MovesCompose(s: State, t: State, u: State, p: Promise)
    requires Moves(s, t, p) && Moves(t, u, p)
    ensures Moves(s, u, p)
  {
  }

  lemma StepMovesOn(capacity: nat, s: State, t: State, e: Event, p: Promise)
    requires Moves(s, t, p)
    ensures Moves(s, Step(capacity, t, e), p)
  {
    StepMoves(capacity, t, e, p);
    MovesCompose(s, t, Step(capacity, t, e), p);
  }

  lemma {:induction false} RunMoves(capacity: nat, s: State, run: seq<Event>, n: nat, p: Promise)
    requires n <= |run| && IdleIsEmpty(s)
    ensures Moves(s, After(capacity, s, run, n), p)
  {
    if n > 0 {
      var t, e := After(capacity, s, run, n - 1), run[n - 1];
      RunMoves(capacity, s, run, n - 1, p);
      StepMovesOn(capacity, s, t, e, p);
      assert After(capacity, s, run, n) == Step(capacity, t, e);
    } else {
      assert After(capacity, s, run, n) == s;
      MovesNowhere(s, p);
    }
  }

  ghost predicate Sound(s: State) { Partition(s) && IdleIsEmpty(s) }

  lemma FreshPoolIsSound(poolSize: nat)
    ensures Sound(Initial(poolSize))
  {
    var s := Initial(poolSize);
    forall p: Promise ensures Places(s, p) == 0 {
      NoneActive(s.slots, |s.slots|, p);
    }
  }

  lemma MovesKeepsSound(s: State, t: State)
    requires Sound(s) && forall p: Promise :: Moves(s, t, p)
    ensures Sound(t) && s.settled <= t.settled
  {
    assert Moves(s, t, 0);
    forall p: Promise ensures Places(t, p) == if p < t.accepted then 1 else 0 {
      assert Moves(s, t, p);
    }
  }

  /**
   * At every point of every run, each accepted request is in exactly one place, and a settlement,
   * once logged, is there for good.
   */
  lemma RunIsSound(capacity: nat, s: State, run: seq<Event>, n: nat)
    requires n <= |run| && Sound(s)
    ensures Sound(After(capacity, s, run, n)) && s.settled <= After(capacity, s, run, n).settled
  {
    var t := After(capacity, s, run, n);
    forall p: Promise ensures Moves(s, t, p) {
      RunMoves(capacity, s, run, n, p);
    }
    MovesKeepsSound(s, t);
  }

  lemma {:induction false} SettlementsGrow(a: seq<Settlement>, b: seq<Settlement>, p: Promise)
    requires a <= b
    ensures SettledCount(a, |a|, p) <= SettledCount(b, |b|, p)
  {
    var rest := b[|a|..];
    assert b == a + rest;
    SettledConcat(a, rest, |rest|, p);
  }

  /** Settled once and in one place means settled exactly once, for as long as the partition holds. */
  lemma SettledOnceStays(s: State, t: State, p: Promise)
    requires Settlements(s, p) == 1 && s.settled <= t.settled && Partition(t)
    ensures Settlements(t, p) == 1
  {
    SettlementsGrow(s.settled, t.settled, p);
    assert Places(t, p) <= 1;
  }

  lemma ShutdownPlaces(s: State, p: Promise)
    requires Partition(s) && p < s.accepted
    ensures Settlements(OnShutdown(s), p) == 1
  {
    ShutdownSettles(s, p);
    assert Places(s, p) == 1;
  }

  lemma ShutdownIsSound(s: State)
    requires Sound(s)
    ensures Sound(OnShutdown(s))
  {
    forall p: Promise ensures Moves(s, OnShutdown(s), p) {
      ShutdownMoves(s, p);
    }
    MovesKeepsSound(s, OnShutdown(s));
  }

  /**
   * Whatever happened before, a request accepted before the shutdown is settled exactly once when
   * the shutdown ends, and exactly once after any further arrivals, messages and failures.
   */
  lemma ShutdownSettlesExactlyOnce(poolSize: nat, capacity: nat, before: seq<Event>, later: seq<Event>, n: nat,
                                   p: Promise)
    requires n <= |later| && p < After(capacity, Initial(poolSize), before, |before|).accepted
    ensures var t := OnShutdown(After(capacity, Initial(poolSize), before, |before|));
      Settlements(t, p) == 1 && Settlements(After(capacity, t, later, n), p) == 1
  {
    FreshPoolIsSound(poolSize);
    RunIsSound(capacity, Initial(poolSize), before, |before|);
    var s := After(capacity, Initial(poolSize), before, |before|);
    ShutdownIsSound(s);
    ShutdownPlaces(s, p);
    RunIsSound(capacity, OnShutdown(s), later, n);
    SettledOnceStays(OnShutdown(s), After(capacity, OnShutdown(s), later, n), p);
  }

  // ---------------------------------------------------------------------
  // Stale and repeated messages
  // ---------------------------------------------------------------------

  /** Task ids of running tasks are distinct and below the next one to be handed out. */
  predicate TaskIds(s: State) {
    && (forall k :: 0 <= k < |s.slots| && s.slots[k].active.Some? ==> s.slots[k].active.value.taskId < s.nextTaskId)
    && (forall j, k :: 0 <= j < k < |s.slots| && s.slots[j].active.Some? && s.slots[k].active.Some?
          ==> s.slots[j].active.value.taskId != s.slots[k].active.value.taskId)
  }

  /** The id has been handed out and no slot runs it any more. */
  predicate Retired(s: State, taskId: nat) {
    taskId < s.nextTaskId && forall k :: 0 <= k < |s.slots| ==> !Runs(s.slots[k], taskId)
  }

  lemma AssignIds(s: State, k: nat, p: Promise, taskId: nat)
    requires k < |s.slots|
    ensures TaskIds(s) ==> TaskIds(Assign(s, k, p))
    ensures Retired(s, taskId) ==> Retired(Assign(s, k, p), taskId)
  {
  }

  lemma FreeIds(s: State, k: nat, taskId: nat)
    requires k < |s.slots|
    ensures TaskIds(s) ==> TaskIds(Free(s, k))
    ensures Retired(s, taskId) ==> Retired(Free(s, k), taskId)
    ensures TaskIds(s) && Answers(s, k, taskId) ==> Retired(Free(s, k), taskId)
  {
  }

  lemma DispatchIds(s: State, taskId: nat)
    ensures TaskIds(s) ==> TaskIds(Dispatch(s))
    ensures Retired(s, taskId) ==> Retired(Dispatch(s), taskId)
  {
    var k := FirstFree(s.slots);
    if !s.shuttingDown && k < |s.slots| && |s.queue| > 0 {
      AssignIds(s.(queue := s.queue[1..]), k, s.queue[0], taskId);
    }
  }

  lemma ArrivalIds(capacity: nat, s: State, taskId: nat)
    ensures TaskIds(s) ==> TaskIds(Arrival(capacity, s))
    ensures Retired(s, taskId) ==> Retired(Arrival(capacity, s), taskId)
  {
    var k := FirstFree(s.slots);
    if k < |s.slots| {
      AssignIds(s.(accepted := s.accepted + 1), k, s.accepted, taskId);
    }
  }

  lemma FailureIds(s: State, k: nat, taskId: nat)
    ensures TaskIds(s) ==> TaskIds(OnFailure(s, k))
    ensures Retired(s, taskId) ==> Retired(OnFailure(s, k), taskId)
  {
    if !s.shuttingDown && k < |s.slots| {
      var t := Free(s, k);
      FreeIds(s, k, taskId);
      DispatchIds(if s.slots[k].active.Some? then Settle(t, s.slots[k].active.value.promise, false) else t, taskId);
    }
  }

  /** An answered task id is retired, and no other id comes back. */
  lemma MessageIds(s: State, k: nat, id: nat, reply: Reply, taskId: nat)
    ensures TaskIds(s) ==> TaskIds(OnMessage(s, k, id, reply))
    ensures Retired(s, taskId) ==> Retired(OnMessage(s, k, id, reply), taskId)
    ensures TaskIds(s) && Answers(s, k, id) ==> Retired(OnMessage(s, k, id, reply), id)
  {
    if Answers(s, k, id) {
      var t := Settle(Free(s, k), s.slots[k].active.value.promise, reply.Result?);
      FreeIds(s, k, taskId);
      DispatchIds(t, taskId);
      FreeIds(s, k, id);
      DispatchIds(t, id);
    }
  }

  lemma StepIds(capacity: nat, s: State, e: Event, taskId: nat)
    ensures TaskIds(s) ==> TaskIds(Step(capacity, s, e))
    ensures Retired(s, taskId) ==> Retired(Step(capacity, s, e), taskId)
  {
    match e {
      case Arrive => ArrivalIds(capacity, s, taskId);
      case Message(k, id, reply) => MessageIds(s, k, id, reply, taskId);
      case WorkerError(k) => FailureIds(s, k, taskId);
      case WorkerExit(k, code) => FailureIds(s, k, taskId);
      case Shutdown =>
    }
  }

  predicate IdsKept(s: State, t: State, taskId: nat) {
    (TaskIds(s) ==> TaskIds(t)) && (Retired(s, taskId) ==> Retired(t, taskId))
  }

  lemma StepIdsOn(capacity: nat, s: State, t: State, e: Event, taskId: nat)
    requires IdsKept(s, t, taskId)
    ensures IdsKept(s, Step(capacity, t, e), taskId)
  {
    StepIds(capacity, t, e, taskId);
  }

  lemma IdsKeptAtStart(s: State, taskId: nat)
    ensures IdsKept(s, s, taskId)
  {
  }

  lemma {:induction false} RunIds(capacity: nat, s: State, run: seq<Event>, n: nat, taskId: nat)
    requires n <= |run|
    ensures IdsKept(s, After(capacity, s, run, n), taskId)
  {
    if n > 0 {
      RunIds(capacity, s, run, n - 1, taskId);
      StepIdsOn(capacity, s, After(capacity, s, run, n - 1), run[n - 1], taskId);
    } else {
      IdsKeptAtStart(s, taskId);
    }
  }

  lemma RetiredIsIgnored(capacity: nat, s: State, j: nat, taskId: nat, reply: Reply)
    requires Retired(s, taskId)
    ensures Step(capacity, s, Message(j, taskId, reply)) == s
  {
  }

  lemma AnswerRetires(s: State, k: nat, taskId: nat, reply: Reply)
    requires TaskIds(s) && Answers(s, k, taskId)
    ensures Retired(OnMessage(s, k, taskId, reply), taskId)
  {
    MessageIds(s, k, taskId, reply, taskId);
  }

  /**
   * Once a task has been answered, a repeated or late message for it, from any slot and at any
   * later time, changes nothing at all.
   */
  lemma RepeatedAnswerIsIgnored(poolSize: nat, capacity: nat, before: seq<Event>, later: seq<Event>, n: nat,
                                k: nat, taskId: nat, reply: Reply, j: nat, again: Reply)
    requires n <= |later|
    requires Answers(After(capacity, Initial(poolSize), before, |before|), k, taskId)
    ensures var t := OnMessage(After(capacity, Initial(poolSize), before, |before|), k, taskId, reply);
      var u := After(capacity, t, later, n);
      Step(capacity, u, Message(j, taskId, again)) == u
  {
    var s := After(capacity, Initial(poolSize), before, |before|);
    RunIds(capacity, Initial(poolSize), before, |before|, taskId);
    AnswerRetires(s, k, taskId, reply);
    var t := OnMessage(s, k, taskId, reply);
    RunIds(capacity, t, later, n, taskId);
    RetiredIsIgnored(capacity, After(capacity, t, later, n), j, taskId, again);
  }

  // ---------------------------------------------------------------------
  // Work conservation and order, until shutdown
  // ---------------------------------------------------------------------

  /** The promises handed to workers, then those queued, are 0, 1, ..., accepted - 1 in this order. */
  predicate Fifo(s: State) {
    && |s.handedOut| + |s.queue| == s.accepted
    && (forall i :: 0 <= i < |s.handedOut| ==> s.handedOut[i] == i)
    && (forall i :: 0 <= i < |s.queue| ==> s.queue[i] == |s.handedOut| + i)
  }

  predicate BusyIsActive(s: State) {
    forall k :: 0 <= k < |s.slots| ==> (s.slots[k].busy <==> s.slots[k].active.Some?)
  }

  /** A running task's id is one more than the promise it works for. */
  predicate IdsFollowPromises(s: State) {
    && s.nextTaskId == |s.handedOut| + 1
    && forall k :: 0 <= k < |s.slots| && s.slots[k].active.Some?
         ==> s.slots[k].active.value.taskId == s.slots[k].active.value.promise + 1
  }

  /** No slot but possibly k is idle while something waits. */
  predicate SaturatedBut(s: State, k: nat) {
    |s.queue| > 0 ==> forall j :: 0 <= j < |s.slots| && j != k ==> s.slots[j].busy
  }

  /** While requests wait, every worker is busy. */
  predicate WorkConserving(s: State) {
    |s.queue| > 0 ==> forall j :: 0 <= j < |s.slots| ==> s.slots[j].busy
  }

  predicate Working(capacity: nat, s: State) {
    && !s.shuttingDown && |s.queue| <= capacity
    && Fifo(s) && BusyIsActive(s) && IdsFollowPromises(s) && WorkConserving(s)
  }

  lemma DispatchKeepsWorking(capacity: nat, s: State, k: nat)
    requires !s.shuttingDown && |s.queue| <= capacity && k < |s.slots|
    requires Fifo(s) && BusyIsActive(s) && IdsFollowPromises(s) && SaturatedBut(s, k)
    ensures Working(capacity, Dispatch(s))
  {
  }

  lemma ArrivalKeepsWorking(capacity: nat, s: State)
    requires Working(capacity, s)
    ensures Working(capacity, Arrival(capacity, s))
  {
  }

  lemma FreeKeeps(s: State, k: nat)
    requires k < |s.slots| && Fifo(s) && BusyIsActive(s) && IdsFollowPromises(s) && WorkConserving(s)
    ensures var t := Free(s, k); Fifo(t) && BusyIsActive(t) && IdsFollowPromises(t) && SaturatedBut(t, k)
  {
  }

  lemma StepKeepsWorking(capacity: nat, s: State, e: Event)
    requires Working(capacity, s) && e != Shutdown
    ensures Working(capacity, Step(capacity, s, e))
  {
    match e {
      case Arrive => ArrivalKeepsWorking(capacity, s);
      case Message(k, taskId, reply) =>
        if Answers(s, k, taskId) {
          FreeKeeps(s, k);
          DispatchKeepsWorking(capacity, Settle(Free(s, k), s.slots[k].active.value.promise, reply.Result?), k);
        }
      case WorkerError(k) => FailureKeepsWorking(capacity, s, k);
      case WorkerExit(k, code) => FailureKeepsWorking(capacity, s, k);
    }
  }

  lemma FailureKeepsWorking(capacity: nat, s: State, k: nat)
    requires Working(capacity, s)
    ensures Working(capacity, OnFailure(s, k))
  {
    if k < |s.slots| {
      FreeKeeps(s, k);
      var t := Free(s, k);
      if s.slots[k].active.Some? {
        DispatchKeepsWorking(capacity, Settle(t, s.slots[k].active.value.promise, false), k);
      } else {
        DispatchKeepsWorking(capacity, t, k);
      }
    }
  }

  /**
   * Until the first shutdown, through every success, error and crash: the queue is within its
   * capacity and empty unless all workers are busy, busy means running a task, and requests reach
   * the workers in the order they were accepted.
   */
  lemma {:induction false} RunIsFifoAndWorkConserving(capacity: nat, s: State, run: seq<Event>, n: nat)
    requires n <= |run| && Working(capacity, s) && forall i :: 0 <= i < n ==> run[i] != Shutdown
    ensures Working(capacity, After(capacity, s, run, n))
  {
    if n > 0 {
      RunIsFifoAndWorkConserving(capacity, s, run, n - 1);
      StepKeepsWorking(capacity, After(capacity, s, run, n - 1), run[n - 1]);
    }
  }

  lemma FreshPoolWorks(poolSize: nat, capacity: nat)
    ensures Working(capacity, Initial(poolSize))
  {
  }

  /** So a fresh pool works until its first shutdown. */
  lemma FreshPoolStaysWorking(poolSize: nat, capacity: nat, run: seq<Event>, n: nat)
    requires n <= |run| && forall i :: 0 <= i < n ==> run[i] != Shutdown
    ensures Working(capacity, After(capacity, Initial(poolSize), run, n))
  {
    FreshPoolWorks(poolSize, capacity);
    RunIsFifoAndWorkConserving(capacity, Initial(poolSize), run, n);
  }

  /** While the pool works, a request is refused exactly when every worker is busy and the queue is full. */
  lemma RefusedExactlyWhenSaturated(capacity: nat, s: State)
    requires Working(capacity, s)
    ensures Arrival(capacity, s) == s <==>
            |s.queue| == capacity && forall k :: 0 <= k < |s.slots| ==> s.slots[k].active.Some?
  {
  }

  /** After shutdown the queue is never served again: what enters it stays, in place. */
  lemma QueuedAfterShutdownIsStranded(capacity: nat, s: State, e: Event)
    requires s.shuttingDown && e != Shutdown
    ensures var t := Step(capacity, s, e); t.shuttingDown && s.queue <= t.queue
  {
  }
}
