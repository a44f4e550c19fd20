/** The resource-demand service: a fixed pool of worker threads fed from a bounded queue. */
module WorkerPool {
  import opened Common

  /** Promises are numbered in the order in which their requests are accepted. */
  type Promise = nat

  datatype ActiveTask = ActiveTask(taskId: nat, promise: Promise)

  datatype Slot = Slot(busy: bool, active: Option<ActiveTask>)

  /** How a promise was settled. */
  datatype Settlement = Settlement(promise: Promise, resolved: bool)

  /** What a worker thread posts back for a task. */
  datatype Reply = TaskError | NoResult | Result

  datatype Event =
    | Arrive
    | Message(slot: nat, taskId: nat, reply: Reply)
    | WorkerError(slot: nat)
    | WorkerExit(slot: nat, code: int)
    | Shutdown

  /** `accepted` counts the promises handed out; `handedOut` and `settled` are logs of the run. */
  datatype State = State(
    slots: seq<Slot>,
    queue: seq<Promise>,
    nextTaskId: nat,
    shuttingDown: bool,
    accepted: nat,
    handedOut: seq<Promise>,
    settled: seq<Settlement>)

  function Initial(poolSize: nat): State {
    State(seq(poolSize, i requires 0 <= i < poolSize => Slot(false, None)), [], 1, false, 0, [], [])
  }

  /** The first slot that is not busy, or the number of slots. */
  function FirstFree(slots: seq<Slot>): (k: nat)
    ensures k <= |slots|
    ensures forall j :: 0 <= j < k ==> slots[j].busy
    ensures k < |slots| ==> !slots[k].busy
  {
    if |slots| == 0 || !slots[0].busy then 0 else 1 + FirstFree(slots[1..])
  }

  function Assign(s: State, k: nat, p: Promise): State
    requires k < |s.slots|
  {
    s.(slots := s.slots[k := Slot(true, Some(ActiveTask(s.nextTaskId, p)))],
       nextTaskId := s.nextTaskId + 1, handedOut := s.handedOut + [p])
  }

  /** An accepted request goes to a free worker or to the queue; with neither it is refused. */
  function Arrival(capacity: nat, s: State): State {
    var k := FirstFree(s.slots);
    if k == |s.slots| && |s.queue| >= capacity then s
    else
      var p, t := s.accepted, s.(accepted := s.accepted + 1);
      if k < |s.slots| then Assign(t, k, p) else t.(queue := t.queue + [p])
  }

  function Dispatch(s: State): State {
    var k := FirstFree(s.slots);
    if s.shuttingDown || k == |s.slots| || |s.queue| == 0 then s
    else Assign(s.(queue := s.queue[1..]), k, s.queue[0])
  }

  function Settle(s: State, p: Promise, resolved: bool): State {
    s.(settled := s.settled + [Settlement(p, resolved)])
  }

  function Free(s: State, k: nat): State
    requires k < |s.slots|
  {
    s.(slots := s.slots[k := Slot(false, None)])
  }

  predicate Runs(slot: Slot, taskId: nat) {
    slot.active.Some? && slot.active.value.taskId == taskId
  }

  predicate Answers(s: State, k: nat, taskId: nat) {
    k < |s.slots| && Runs(s.slots[k], taskId)
  }

  function OnMessage(s: State, k: nat, taskId: nat, reply: Reply): State {
    if !Answers(s, k, taskId) then s
    else Dispatch(Settle(Free(s, k), s.slots[k].active.value.promise, reply.Result?))
  }

  function OnFailure(s: State, k: nat): State {
    if s.shuttingDown || k >= |s.slots| then s
    else
      var t := Free(s, k);
      Dispatch(if s.slots[k].active.Some? then Settle(t, s.slots[k].active.value.promise, false) else t)
  }

  /** Rejections of the queued promises, in order. */
  function Rejections(queue: seq<Promise>): seq<Settlement> {
    seq(|queue|, i requires 0 <= i < |queue| => Settlement(queue[i], false))
  }

  /** Rejections of the active tasks of the first n slots, in slot order. */
  function ActiveRejections(slots: seq<Slot>, n: nat): seq<Settlement>
    requires n <= |slots|
  {
    if n == 0 then []
    else ActiveRejections(slots, n - 1) +
         if slots[n - 1].active.Some? then [Settlement(slots[n - 1].active.value.promise, false)] else []
  }

  /** Shutting down rejects everything and clears the slots' tasks; the busy flags stay as they are. */
  function OnShutdown(s: State): State {
    s.(shuttingDown := true, queue := [],
       settled := s.settled + Rejections(s.queue) + ActiveRejections(s.slots, |s.slots|),
       slots := seq(|s.slots|, i requires 0 <= i < |s.slots| => s.slots[i].(active := None)))
  }

  function Step(capacity: nat, s: State, e: Event): State {
    match e
    case Arrive => Arrival(capacity, s)
    case Message(k, taskId, reply) => OnMessage(s, k, taskId, reply)
    case WorkerError(k) => OnFailure(s, k)
    case WorkerExit(k, code) => if code != 0 && !s.shuttingDown then OnFailure(s, k) else s
    case Shutdown => OnShutdown(s)
  }

  /** The state after the first n events of a run. */
  function After(capacity: nat, s: State, run: seq<Event>, n: nat): State
    requires n <= |run|
  {
    if n == 0 then s else Step(capacity, After(capacity, s, run, n - 1), run[n - 1])
  }

  // ---------------------------------------------------------------------
  // The service object
  // ---------------------------------------------------------------------

  class ResourceDemandService {
    const queueCapacity: nat
    var workers: seq<Slot>
    var pendingQueue: seq<Promise>
    var nextTaskId: nat
    var isShuttingDown: bool
    var accepted: nat
    ghost var handedOut: seq<Promise>
    var settled: seq<Settlement>

    ghost function View(): State
      reads this
    {
      State(workers, pendingQueue, nextTaskId, isShuttingDown, accepted, handedOut, settled)
    }

    constructor (poolSize: nat, queueCapacity: nat)
      ensures this.queueCapacity == queueCapacity && View() == Initial(poolSize)
    {
      this.queueCapacity := queueCapacity;
      workers := seq(poolSize, i requires 0 <= i < poolSize => Slot(false, None));
      pendingQueue, nextTaskId, isShuttingDown := [], 1, false;
      accepted, handedOut, settled := 0, [], [];
    }

    method FindFreeWorker() returns (k: nat)
      ensures k == FirstFree(workers)
    {
      k := 0;
      while k < |workers| && workers[k].busy
        invariant k <= |workers|
        invariant FirstFree(workers) == k + FirstFree(workers[k..])
      {
        assert workers[k..][1..] == workers[k + 1..];
        k := k + 1;
      }
    }

    method AssignTaskToWorker(k: nat, promise: Promise)
      requires k < |workers|
      modifies this
      ensures View() == Assign(old(View()), k, promise)
    {
      var taskId := nextTaskId;
      nextTaskId := nextTaskId + 1;
      workers := workers[k := Slot(true, Some(ActiveTask(taskId, promise)))];
      handedOut := handedOut + [promise];
    }

    /** Returns the promise, or None for the 503 refusal. */
    method ExecuteRequestClass() returns (promise: Option<Promise>)
      modifies this
      ensures View() == Arrival(queueCapacity, old(View()))
      ensures promise == if accepted > old(accepted) then Some(old(accepted)) else None
    {
      var slot := FindFreeWorker();
      if slot == |workers| && |pendingQueue| >= queueCapacity {
        return None;
      }
      promise := Some(accepted);
      accepted := accepted + 1;
      if slot < |workers| {
        AssignTaskToWorker(slot, promise.value);
        return;
      }
      pendingQueue := pendingQueue + [promise.value];
    }

    method DispatchNextPendingTask()
      modifies this
      ensures View() == Dispatch(old(View()))
    {
      if isShuttingDown {
        return;
      }
      var slot := FindFreeWorker();
      if |pendingQueue| == 0 {
        return;
      }
      var pendingTask := pendingQueue[0];
      pendingQueue := pendingQueue[1..];
      if slot == |workers| {
        pendingQueue := [pendingTask] + pendingQueue;
        return;
      }
      AssignTaskToWorker(slot, pendingTask);
    }

    method HandleMessage(k: nat, taskId: nat, reply: Reply)
      requires k < |workers|
      modifies this
      ensures View() == OnMessage(old(View()), k, taskId, reply)
    {
      var active := workers[k].active;
      if active.None? || active.value.taskId != taskId {
        return;
      }
      workers := workers[k := Slot(false, None)];
      settled := settled + [Settlement(active.value.promise, reply.Result?)];
      DispatchNextPendingTask();
    }

    method HandleWorkerFailure(k: nat)
      requires k < |workers|
      modifies this
      ensures View() == OnFailure(old(View()), k)
    {
      if isShuttingDown {
        return;
      }
      if workers[k].active.Some? {
        settled := settled + [Settlement(workers[k].active.value.promise, false)];
      }
      workers := workers[k := Slot(false, None)];
      DispatchNextPendingTask();
    }

    method HandleWorkerExit(k: nat, code: int)
      requires k < |workers|
      modifies this
      ensures View() == Step(queueCapacity, old(View()), WorkerExit(k, code))
    {
      if code != 0 && !isShuttingDown {
        HandleWorkerFailure(k);
      }
    }

    method OnModuleDestroy()
      modifies this
      ensures View() == OnShutdown(old(View()))
    {
      ghost var before := View();
      isShuttingDown := true;
      var drained := 0;
      while |pendingQueue| > 0
        invariant drained <= |before.queue| && pendingQueue == before.queue[drained..]
        invariant settled == before.settled + Rejections(before.queue[..drained])
        invariant View() == before.(shuttingDown := true, queue := pendingQueue, settled := settled)
      {
        var pendingTask := pendingQueue[0];
        pendingQueue := pendingQueue[1..];
        settled := settled + [Settlement(pendingTask, false)];
        assert Rejections(before.queue[..drained + 1]) ==
               Rejections(before.queue[..drained]) + [Settlement(pendingTask, false)];
        drained := drained + 1;
      }
      assert before.queue[..drained] == before.queue;
      for i := 0 to |workers|
        invariant |workers| == |before.slots|
        invariant settled == before.settled + Rejections(before.queue) + ActiveRejections(before.slots, i)
        invariant forall j :: 0 <= j < i ==> workers[j] == before.slots[j].(active := None)
        invariant forall j :: i <= j < |workers| ==> workers[j] == before.slots[j]
        invariant View() == before.(shuttingDown := true, queue := [], slots := workers, settled := settled)
      {
        if workers[i].active.Some? {
          settled := settled + [Settlement(workers[i].active.value.promise, false)];
          workers := workers[i := workers[i].(active := None)];
        }
      }
    }
  }
}
