/** The planner: how many workers one reconcile decides to create or delete. */
module WorkerPlanner {
  import opened Common
  import opened WorkerOperations

  datatype Planned = Planned(status: Status, creates: int, deletes: int)

  /** What the planner reads besides the previous status. */
  datatype Demand = Demand(
    target: int,
    maxBatchSize: Option<int>,
    ready: int,
    unschedulablePods: int,
    maxCreate: int,
    maxDelete: int)

  function Limit(configured: int): (r: int)
    ensures r >= 1
    ensures configured >= 1 ==> r == configured
    ensures configured < 1 ==> r == 1
  {
    if configured <= 0 then 1 else configured
  }

  function Batch(d: Demand): (r: int)
    ensures r >= 1
    ensures d.maxBatchSize.Some? && d.maxBatchSize.value >= 1 ==> r == d.maxBatchSize.value
    ensures d.maxBatchSize.None? || d.maxBatchSize.value < 1 ==>
            r >= d.maxCreate && r >= d.maxDelete && (r == 1 || r == d.maxCreate || r == d.maxDelete)
  {
    if d.maxBatchSize.Some? && d.maxBatchSize.value > 0 then d.maxBatchSize.value
    else Max(Limit(d.maxCreate), Limit(d.maxDelete))
  }

  function ReadyOf(s: Option<Status>): int {
    if s.Some? then s.value.ready else 0
  }

  /** By how much the ready count moved in the direction operation type t works. */
  function Moved(t: OperationType, before: int, after: int): int {
    match t
    case Create => Positive(after - before)
    case Delete => Positive(before - after)
    case Unknown(_) => 0
  }

  /** The part of the tracked workers the planner takes to be done already. */
  function Credited(current: Option<Status>, ready: int, t: OperationType): int {
    Min(Tracked(ActiveOperations(current), t), Moved(t, ReadyOf(current), ready))
  }

  /** Tracked workers that still occupy a slot after the credit. */
  function Outstanding(current: Option<Status>, ready: int, t: OperationType): int {
    Tracked(ActiveOperations(current), t) - Credited(current, ready, t)
  }

  /** Worker count expected once everything outstanding has happened. */
  function Forecast(current: Option<Status>, ready: int): int {
    ready + Outstanding(current, ready, Create) - Outstanding(current, ready, Delete)
  }

  function CreatesWanted(current: Option<Status>, d: Demand): int {
    var missing := d.target - Forecast(current, d.ready);
    if missing <= 0 || Outstanding(current, d.ready, Delete) > 0 then 0
    else Min(missing, Min(Batch(d), Positive(Limit(d.maxCreate) - Outstanding(current, d.ready, Create))))
  }

  function DeletesWanted(current: Option<Status>, d: Demand): int {
    var excess := Forecast(current, d.ready) - d.target;
    if excess <= 0 || Outstanding(current, d.ready, Create) > 0 || d.unschedulablePods > 0 then 0
    else Min(excess, Min(Batch(d), Positive(Limit(d.maxDelete) - Outstanding(current, d.ready, Delete))))
  }

  function Plan(current: Option<Status>, d: Demand): Planned {
    var creates, deletes := CreatesWanted(current, d), DeletesWanted(current, d);
    Planned(
      WithMirror(Status(
        d.target, d.ready,
        Outstanding(current, d.ready, Create) + creates,
        Outstanding(current, d.ready, Delete) + deletes,
        Forecast(current, d.ready) + creates - deletes,
        ActiveOperations(current), None)),
      creates, deletes)
  }

  /** The planner never plans both ways, never passes the target, stays inside its
      slots and its batch, and keeps effective = ready + pending creates - pending deletes. */
  lemma PlanIsSafe(current: Option<Status>, d: Demand)
    ensures var p := Plan(current, d);
      && p.creates >= 0 && p.deletes >= 0 && (p.creates == 0 || p.deletes == 0)
      && p.creates <= Batch(d) && p.deletes <= Batch(d)
      && (p.creates > 0 ==>
            p.status.effective <= d.target && Outstanding(current, d.ready, Delete) == 0 &&
            p.status.pendingCreate <= Limit(d.maxCreate))
      && (p.deletes > 0 ==>
            p.status.effective >= d.target && Outstanding(current, d.ready, Create) == 0 &&
            d.unschedulablePods <= 0 && p.status.pendingDelete <= Limit(d.maxDelete))
      && p.status.effective == d.ready + p.status.pendingCreate - p.status.pendingDelete
      && p.status.pendingCreate >= 0 && p.status.pendingDelete >= 0
  {
  }

  /** The plan object: decided operations are pending from the start, and the mirror is synced. */
  method BuildPlan(target: int, ready: int, operations: seq<Operation>, outstandingCreate: int, outstandingDelete: int,
                   workersToCreate: int, workersToDelete: int)
    returns (plan: WorkerPlan)
    ensures fresh(plan) && plan.workersToCreate == workersToCreate && plan.workersToDelete == workersToDelete
    ensures plan.status == WithMirror(Status(
      target, ready, outstandingCreate + workersToCreate, outstandingDelete + workersToDelete,
      ready + (outstandingCreate + workersToCreate) - (outstandingDelete + workersToDelete), operations, None))
  {
    var pendingCreate := outstandingCreate + workersToCreate;
    var pendingDelete := outstandingDelete + workersToDelete;
    var effective := ready + pendingCreate - pendingDelete;
    plan := new WorkerPlan(
      Status(target, ready, pendingCreate, pendingDelete, effective, operations, None),
      workersToCreate, workersToDelete);
    plan.SyncLegacyActiveOperation();
  }

  method EnsureWorkers(
    maxBatchSizeSetting: Option<int>, targetWorkerCount: int, current: Option<Status>, observedReady: int,
    unschedulablePods: int, maxConcurrentCreateOps: int, maxConcurrentDeleteOps: int)
    returns (plan: WorkerPlan)
    ensures fresh(plan)
    ensures Planned(plan.status, plan.workersToCreate, plan.workersToDelete) ==
            Plan(current, Demand(targetWorkerCount, maxBatchSizeSetting, observedReady, unschedulablePods,
                                 maxConcurrentCreateOps, maxConcurrentDeleteOps))
  {
    ghost var d := Demand(targetWorkerCount, maxBatchSizeSetting, observedReady, unschedulablePods,
                          maxConcurrentCreateOps, maxConcurrentDeleteOps);
    var maxCreate, maxDelete, maxBatchSize :=
      NormalizeLimits(maxBatchSizeSetting, maxConcurrentCreateOps, maxConcurrentDeleteOps, d);
    var operations, pendingCreate, pendingDelete := CreditObservations(current, observedReady);
    var effective := observedReady + pendingCreate - pendingDelete;
    assert effective == Forecast(current, observedReady);
    var workersToCreate, workersToDelete :=
      DecideOperations(targetWorkerCount, effective,
                       maxBatchSize, maxCreate, maxDelete, pendingCreate, pendingDelete, unschedulablePods);
    assert workersToCreate == CreatesWanted(current, d) && workersToDelete == DeletesWanted(current, d);
    plan := BuildPlan(targetWorkerCount, observedReady, operations, pendingCreate, pendingDelete,
                      workersToCreate, workersToDelete);
  }

  method DecideOperations(target: int, effective: int, maxBatchSize: int, maxCreate: int, maxDelete: int,
                          createSlotsUsed: int, deleteSlotsUsed: int, unschedulablePods: int)
    returns (workersToCreate: int, workersToDelete: int)
    requires maxBatchSize > 0
    ensures workersToCreate ==
            if target <= effective || deleteSlotsUsed > 0 then 0
            else Min(target - effective, Min(maxBatchSize, Positive(maxCreate - createSlotsUsed)))
    ensures workersToDelete ==
            if effective <= target || createSlotsUsed > 0 || unschedulablePods > 0 then 0
            else Min(effective - target, Min(maxBatchSize, Positive(maxDelete - deleteSlotsUsed)))
  {
    workersToCreate, workersToDelete := 0, 0;
    var delta := target - effective;
    if delta > 0 {
      if deleteSlotsUsed > 0 {
        return;
      }
      var availableSlots := Positive(maxCreate - createSlotsUsed);
      if availableSlots <= 0 {
        return;
      }
      workersToCreate := Min(delta, Min(maxBatchSize, availableSlots));
    } else if delta < 0 {
      if createSlotsUsed > 0 || unschedulablePods > 0 {
        return;
      }
      var availableSlots := Positive(maxDelete - deleteSlotsUsed);
      if availableSlots <= 0 {
        return;
      }
      workersToDelete := Min(-delta, Min(maxBatchSize, availableSlots));
    }
  }

  method NormalizeLimits(
    maxBatchSizeSetting: Option<int>, maxConcurrentCreateOps: int, maxConcurrentDeleteOps: int, ghost d: Demand)
    returns (maxCreate: int, maxDelete: int, maxBatchSize: int)
    requires d.maxBatchSize == maxBatchSizeSetting
    requires d.maxCreate == maxConcurrentCreateOps && d.maxDelete == maxConcurrentDeleteOps
    ensures maxCreate == Limit(d.maxCreate) && maxDelete == Limit(d.maxDelete) && maxBatchSize == Batch(d)
  {
    maxCreate, maxDelete := maxConcurrentCreateOps, maxConcurrentDeleteOps;
    if maxCreate <= 0 { maxCreate := 1; }
    if maxDelete <= 0 { maxDelete := 1; }
    maxBatchSize := maxCreate;
    if maxDelete > maxBatchSize { maxBatchSize := maxDelete; }
    if maxBatchSizeSetting.Some? && maxBatchSizeSetting.value > 0 {
      maxBatchSize := maxBatchSizeSetting.value;
    }
  }

  /** The first half of the planner: clone the tracked operations and subtract the credit. */
  method CreditObservations(current: Option<Status>, observedReady: int)
    returns (operations: seq<Operation>, pendingCreate: int, pendingDelete: int)
    ensures operations == ActiveOperations(current)
    ensures pendingCreate == Outstanding(current, observedReady, Create)
    ensures pendingDelete == Outstanding(current, observedReady, Delete)
  {
    operations := CloneActiveOperations(current);
    pendingCreate, pendingDelete := SumActiveOperationCounts(operations);
    var previousReady := 0;
    if current.Some? { previousReady := current.value.ready; }
    if observedReady > previousReady {
      var completedCreates := Min(pendingCreate, observedReady - previousReady);
      pendingCreate := pendingCreate - completedCreates;
    } else if observedReady < previousReady {
      var completedDeletes := Min(pendingDelete, previousReady - observedReady);
      pendingDelete := pendingDelete - completedDeletes;
    }
  }
}
