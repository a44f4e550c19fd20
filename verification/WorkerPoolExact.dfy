/** How each promise is settled, and what each event does to a slot, told from the events of a run. */
module WorkerPoolExact {
  import opened Common
  import opened WorkerPool
  import opened WorkerPoolSafety

  // ---------------------------------------------------------------------
  // Resolved or rejected
  // ---------------------------------------------------------------------

  /** The slot runs this task for this promise. */
  predicate Serves(slot: Slot, taskId: nat, p: Promise) {
    slot.active == Some(ActiveTask(taskId, p))
  }

  /** The event is a message with a result, for the task that its slot runs for promise p. */
  predicate BringsResult(s: State, e: Event, p: Promise) {
    e.Message? && e.reply.Result? && e.slot < |s.slots| && Serves(s.slots[e.slot], e.taskId, p)
  }

  /** Some event of the first n brought the result of promise p. */
  predicate HasResult(capacity: nat, s: State, run: seq<Event>, n: nat, p: Promise)
    requires n <= |run|
  {
    n > 0 && (HasResult(capacity, s, run, n - 1, p) || BringsResult(After(capacity, s, run, n - 1), run[n - 1], p))
  }

  predicate IsResolved(s: State, p: Promise) { Settlement(p, true) in s.settled }

  predicate IsRejected(s: State, p: Promise) { Settlement(p, false) in s.settled }

  lemma DispatchSettlesNothing(s: State)
    ensures Dispatch(s).settled == s.settled
  {
  }

  lemma MessageResolves(s: State, k: nat, taskId: nat, reply: Reply, p: Promise)
    ensures IsResolved(OnMessage(s, k, taskId, reply), p) <==>
            IsResolved(s, p) || BringsResult(s, Message(k, taskId, reply), p)
  {
    if Answers(s, k, taskId) {
      DispatchSettlesNothing(Settle(Free(s, k), s.slots[k].active.value.promise, reply.Result?));
    }
  }

  lemma FailureResolvesNothing(s: State, k: nat, p: Promise)
    ensures IsResolved(OnFailure(s, k), p) <==> IsResolved(s, p)
  {
    if !s.shuttingDown && k < |s.slots| {
      var t := Free(s, k);
      DispatchSettlesNothing(if s.slots[k].active.Some? then Settle(t, s.slots[k].active.value.promise, false) else t);
    }
  }

  lemma {:induction false} RejectionsResolveNothing(slots: seq<Slot>, n: nat, p: Promise)
    requires n <= |slots|
    ensures Settlement(p, true) !in ActiveRejections(slots, n)
  {
    if n > 0 {
      RejectionsResolveNothing(slots, n - 1, p);
    }
  }

  lemma ShutdownResolvesNothing(s: State, p: Promise)
    ensures IsResolved(OnShutdown(s), p) <==> IsResolved(s, p)
  {
    RejectionsResolveNothing(s.slots, |s.slots|, p);
    assert Settlement(p, true) !in Rejections(s.queue);
  }

  lemma StepResolves(capacity: nat, s: State, e: Event, p: Promise)
    ensures IsResolved(Step(capacity, s, e), p) <==> IsResolved(s, p) || BringsResult(s, e, p)
  {
    match e {
      case Arrive =>
      case Message(k, taskId, reply) => MessageResolves(s, k, taskId, reply, p);
      case WorkerError(k) => FailureResolvesNothing(s, k, p);
      case WorkerExit(k, code) => FailureResolvesNothing(s, k, p);
      case Shutdown => ShutdownResolvesNothing(s, p);
    }
  }

  lemma {:induction false} RunResolves(capacity: nat, poolSize: nat, run: seq<Event>, n: nat, p: Promise)
    requires n <= |run|
    ensures IsResolved(After(capacity, Initial(poolSize), run, n), p) <==>
            HasResult(capacity, Initial(poolSize), run, n, p)
  {
    if n == 0 {
      assert After(capacity, Initial(poolSize), run, n) == Initial(poolSize);
    } else {
      RunResolves(capacity, poolSize, run, n - 1, p);
      StepResolves(capacity, After(capacity, Initial(poolSize), run, n - 1), run[n - 1], p);
    }
  }

  lemma {:induction false} CountedIsLogged(log: seq<Settlement>, n: nat, p: Promise)
    requires n <= |log|
    ensures SettledCount(log, n, p) > 0 <==> exists i :: 0 <= i < n && log[i].promise == p
    ensures SettledCount(log, n, p) >= 2 <==> exists i, j :: 0 <= i < j < n && log[i].promise == log[j].promise == p
  {
    if n > 0 {
      CountedIsLogged(log, n - 1, p);
      LastCount(log, n, p);
    }
  }

  lemma LastCount(log: seq<Settlement>, n: nat, p: Promise)
    requires 0 < n <= |log|
    ensures SettledCount(log, n, p) == SettledCount(log, n - 1, p) + if log[n - 1].promise == p then 1 else 0
  {
  }

  /** A promise is settled when it is logged, and never both ways. */
  lemma SettledOneWay(s: State, p: Promise)
    requires Sound(s)
    ensures Settlements(s, p) > 0 <==> IsResolved(s, p) || IsRejected(s, p)
    ensures !(IsResolved(s, p) && IsRejected(s, p))
  {
    CountedIsLogged(s.settled, |s.settled|, p);
    assert Places(s, p) <= 1;
    forall i | 0 <= i < |s.settled| && s.settled[i].promise == p
      ensures s.settled[i] == Settlement(p, s.settled[i].resolved)
    {
    }
  }

  /**
    Over every run of a fresh pool: a settled promise is resolved if and only if a message brought the
    result of the task that ran for it. Every other way of settling, by a task error, a missing result,
    a worker's failure or shutdown, rejects it.
  */
  lemma ResolvedExactly(capacity: nat, poolSize: nat, run: seq<Event>, n: nat, p: Promise)
    requires n <= |run|
    ensures var s := After(capacity, Initial(poolSize), run, n);
      && (IsResolved(s, p) <==> HasResult(capacity, Initial(poolSize), run, n, p))
      && (IsRejected(s, p) <==> Settlements(s, p) > 0 && !HasResult(capacity, Initial(poolSize), run, n, p))
  {
    RunResolves(capacity, poolSize, run, n, p);
    FreshPoolIsSound(poolSize);
    RunIsSound(capacity, Initial(poolSize), run, n);
    SettledOneWay(After(capacity, Initial(poolSize), run, n), p);
  }

  // ---------------------------------------------------------------------
  // What ends a task
  // ---------------------------------------------------------------------

  /** Slot k no longer runs what it ran before, and the promise is logged as settled. */
  predicate Ended(s: State, t: State, k: nat, p: Promise, resolved: bool)
    requires k < |s.slots|
  {
    && |t.settled| == |s.settled| + 1 && t.settled == s.settled + [Settlement(p, resolved)]
    && |t.slots| == |s.slots|
    && if |s.queue| > 0 && forall j :: 0 <= j < |s.slots| ==> s.slots[j].busy then
         && t.slots[k] == Slot(true, Some(ActiveTask(s.nextTaskId, s.queue[0]))) && t.queue == s.queue[1..]
         && forall j :: 0 <= j < |s.slots| && j != k ==> t.slots[j] == s.slots[j]
       else |s.queue| == 0 ==>
         t.slots[k] == Slot(false, None) && forall j :: 0 <= j < |s.slots| && j != k ==> t.slots[j] == s.slots[j]
  }

  lemma {:induction false} OnlyFree(slots: seq<Slot>, k: nat)
    requires k < |slots| && !slots[k].busy && forall j :: 0 <= j < |slots| && j != k ==> slots[j].busy
    ensures FirstFree(slots) == k
  {
    assert FirstFree(slots) <= k;
  }

  /** The worker running a task fails, by an error or a non-zero exit, before shutdown. */
  predicate Fails(s: State, e: Event, k: nat) {
    !s.shuttingDown && (e == WorkerError(k) || (e.WorkerExit? && e.slot == k && e.code != 0))
  }

  /** A failure before shutdown rejects the task the worker ran and hands its slot to the head of the queue. */
  lemma FailureEndsTask(capacity: nat, s: State, e: Event, k: nat)
    requires k < |s.slots| && s.slots[k].active.Some? && Fails(s, e, k)
    ensures Ended(s, Step(capacity, s, e), k, s.slots[k].active.value.promise, false)
  {
    if |s.queue| > 0 && forall j :: 0 <= j < |s.slots| ==> s.slots[j].busy {
      OnlyFree(Free(s, k).slots, k);
    }
  }

  /** A failed worker without a task is idle again; a clean exit, or a failure during shutdown, changes nothing. */
  lemma OtherFailures(capacity: nat, s: State, e: Event, k: nat)
    requires e == WorkerError(k) || (e.WorkerExit? && e.slot == k)
    ensures s.shuttingDown || (e.WorkerExit? && e.code == 0) ==> Step(capacity, s, e) == s
    ensures k < |s.slots| && s.slots[k].active.None? && Fails(s, e, k) && |s.queue| == 0 ==>
            Step(capacity, s, e) == s.(slots := s.slots[k := Slot(false, None)])
  {
  }

  /** The answer to a task, of whatever kind, settles it and hands its slot to the head of the queue. */
  lemma AnswerEndsTask(capacity: nat, s: State, k: nat, taskId: nat, reply: Reply, p: Promise)
    requires !s.shuttingDown && k < |s.slots| && Serves(s.slots[k], taskId, p)
    ensures Ended(s, Step(capacity, s, Message(k, taskId, reply)), k, p, reply == Result)
  {
    if |s.queue| > 0 && forall j :: 0 <= j < |s.slots| ==> s.slots[j].busy {
      OnlyFree(Free(s, k).slots, k);
    }
  }

  /** An arrival goes to the first idle worker, else to the end of the queue, else it is refused. */
  lemma ArrivalExactly(capacity: nat, s: State)
    ensures var t := Step(capacity, s, Arrive);
      if exists k :: 0 <= k < |s.slots| && !s.slots[k].busy then
        exists k :: 0 <= k < |s.slots| && !s.slots[k].busy && (forall j :: 0 <= j < k ==> s.slots[j].busy) &&
          t.slots == s.slots[k := Slot(true, Some(ActiveTask(s.nextTaskId, s.accepted)))] && t.queue == s.queue
      else if |s.queue| < capacity then t.slots == s.slots && t.queue == s.queue + [s.accepted]
      else t == s
  {
    var k := FirstFree(s.slots);
    if j :| 0 <= j < |s.slots| && !s.slots[j].busy {
      assert k <= j;
    }
  }
}
