/**
  The executor: one pass over the tracked operations (acknowledge, roll back,
  time out or keep each of them), then the start of the newly planned ones.
*/
module WorkerExecutor {
  import opened Common
  import opened WorkerOperations
  import opened WorkerPlanner

  datatype Config = Config(
    createEnabled: bool,
    deleteEnabled: bool,
    observationTimeout: int,
    maxCreate: int,
    maxDelete: int)

  /** Result of looking up the job of one tracked operation. */
  datatype Lookup = NotFound | LookupError | Found(failed: bool, succeeded: bool)

  /** Result of one attempt to prepare and create a job. */
  datatype Attempt = PrepareError | NoTarget | JobCreateError | JobCreated(targetNode: string, job: string)

  predicate EnabledFor(cfg: Config, t: OperationType) {
    match t
    case Create => cfg.createEnabled
    case Delete => cfg.deleteEnabled
    case Unknown(_) => false
  }

  // ---------------------------------------------------------------------
  // Rolling planned work back
  // ---------------------------------------------------------------------

  function Pending(s: Status, t: OperationType): int {
    match t
    case Create => s.pendingCreate
    case Delete => s.pendingDelete
    case Unknown(_) => 0
  }

  function WithPending(s: Status, t: OperationType, n: int): Status {
    match t
    case Create => s.(pendingCreate := n, effective := s.ready + n - s.pendingDelete)
    case Delete => s.(pendingDelete := n, effective := s.ready + s.pendingCreate - n)
    case Unknown(_) => s.(effective := s.ready + s.pendingCreate - s.pendingDelete)
  }

  function Rollback(s: Status, t: OperationType, count: int): Status {
    if count <= 0 then s else WithPending(s, t, Pending(s, t) - Positive(Min(Pending(s, t), count)))
  }

  method RollbackUnstartedWorkerOperations(plan: WorkerPlan, t: OperationType, count: int)
    modifies plan`status
    ensures plan.status == Rollback(old(plan.status), t, count)
  {
    if count <= 0 {
      return;
    }
    match t {
      case Create =>
        var rollbackCount := Min(plan.status.pendingCreate, count);
        if rollbackCount > 0 {
          plan.status := plan.status.(pendingCreate := plan.status.pendingCreate - rollbackCount);
        }
      case Delete =>
        var rollbackCount := Min(plan.status.pendingDelete, count);
        if rollbackCount > 0 {
          plan.status := plan.status.(pendingDelete := plan.status.pendingDelete - rollbackCount);
        }
      case Unknown(_) =>
    }
    plan.status := plan.status.(effective := plan.status.ready + plan.status.pendingCreate - plan.status.pendingDelete);
  }

  // ---------------------------------------------------------------------
  // One pass over the tracked operations
  // ---------------------------------------------------------------------

  /** Progress of the pass; `observed` and `rolledBack` name the operations it dropped. */
  datatype Sweep = Sweep(
    status: Status,
    createBudget: int,
    deleteBudget: int,
    kept: seq<Operation>,
    observed: seq<Operation>,
    rolledBack: seq<Operation>)

  predicate TimedOut(op: Operation, now: int, timeout: int) {
    if timeout <= 0 then false
    else if op.finishedAt.Some? then now - op.finishedAt.value >= timeout
    else op.startedAt.Some? && now - op.startedAt.value >= timeout
  }

  /** A running operation whose job succeeded starts waiting to be observed. */
  function Refreshed(op: Operation, found: Lookup, now: int): Operation {
    if found.Found? && found.succeeded && op.phase.Running?
    then op.(phase := WaitingForObservation, finishedAt := Some(now)) else op
  }

  predicate Gone(found: Lookup) {
    found.NotFound? || (found.Found? && found.failed)
  }

  predicate Observable(w: Sweep, active: Operation) {
    active.phase.WaitingForObservation? &&
    ((active.opType.Create? && w.createBudget > 0) || (active.opType.Delete? && w.deleteBudget > 0))
  }

  datatype Fate = Keep | Observe | RollBack

  function FateOf(timeout: int, now: int, w: Sweep, op: Operation, found: Lookup): Fate {
    var active := Refreshed(op, found, now);
    if Gone(found) then RollBack
    else if Observable(w, active) then Observe
    else if active.phase.WaitingForObservation? && TimedOut(active, now, timeout) then RollBack
    else Keep
  }

  function Spend(w: Sweep, op: Operation): Sweep {
    if op.opType.Create? then w.(createBudget := w.createBudget - Weight(op))
    else w.(deleteBudget := w.deleteBudget - Weight(op))
  }

  function Advance(timeout: int, now: int, w: Sweep, op: Operation, found: Lookup): Sweep {
    match FateOf(timeout, now, w, op, found)
    case Keep => w.(kept := w.kept + [Refreshed(op, found, now)])
    case Observe => Spend(w, op).(observed := w.observed + [op])
    case RollBack => w.(status := Rollback(w.status, op.opType, Weight(op)), rolledBack := w.rolledBack + [op])
  }

  function SweepStart(s: Status, previousReady: int): Sweep {
    Sweep(s, Moved(Create, previousReady, s.ready), Moved(Delete, previousReady, s.ready), [], [], [])
  }

  /** The pass after its first i operations. */
  function SweepTo(timeout: int, now: int, start: Sweep, ops: seq<Operation>, lookup: nat -> Lookup, i: nat): Sweep
    requires i <= |ops|
  {
    if i == 0 then start
    else Advance(timeout, now, SweepTo(timeout, now, start, ops, lookup, i - 1), ops[i - 1], lookup(i - 1))
  }

  function Swept(timeout: int, now: int, s: Status, previousReady: int, lookup: nat -> Lookup): Sweep {
    var ops := ActiveOperations(Some(s));
    SweepTo(timeout, now, SweepStart(s, previousReady), ops, lookup, |ops|)
  }

  predicate Readable(s: Status, lookup: nat -> Lookup) {
    forall i: nat :: i < |ActiveOperations(Some(s))| ==> !lookup(i).LookupError?
  }

  /** The status the pass leaves behind when no lookup failed. */
  function Reconciled(timeout: int, now: int, s: Status, previousReady: int, lookup: nat -> Lookup): Status {
    var w := Swept(timeout, now, s, previousReady, lookup);
    WithMirror(w.status.(operations := w.kept))
  }

  method WorkerOperationTimedOut(active: Operation, now: int, timeout: int) returns (r: bool)
    ensures r == TimedOut(active, now, timeout)
  {
    if timeout <= 0 {
      return false;
    }
    var reference := active.finishedAt;
    if reference.None? {
      reference := active.startedAt;
    }
    if reference.None? {
      return false;
    }
    return now - reference.value >= timeout;
  }

  method ReconcileActiveWorkerOperations(cfg: Config, previousStatus: Option<Status>, plan: WorkerPlan,
                                         lookup: nat -> Lookup, now: int)
    returns (ok: bool)
    modifies plan`status
    ensures ok == Readable(old(plan.status), lookup)
    ensures ok ==> plan.status ==
                   Reconciled(cfg.observationTimeout, now, old(plan.status), ReadyOf(previousStatus), lookup)
  {
    ghost var before := plan.status;
    ghost var timeout := cfg.observationTimeout;
    var operations := CloneActiveOperations(Some(plan.status));
    if |operations| == 0 {
      plan.SyncLegacyActiveOperation();
      return true;
    }

    var previousReady := 0;
    if previousStatus.Some? {
      previousReady := previousStatus.value.ready;
    }
    var createBudget := Positive(plan.status.ready - previousReady);
    var deleteBudget := Positive(previousReady - plan.status.ready);
    var remaining := [];
    ghost var start := SweepStart(before, previousReady);
    for i := 0 to |operations|
      invariant forall j: nat :: j < i ==> !lookup(j).LookupError?
      invariant var w := SweepTo(timeout, now, start, operations, lookup, i);
        && plan.status == w.status && remaining == w.kept
        && createBudget == w.createBudget && deleteBudget == w.deleteBudget
    {
      ghost var w := SweepTo(timeout, now, start, operations, lookup, i);
      assert SweepTo(timeout, now, start, operations, lookup, i + 1) ==
             Advance(timeout, now, w, operations[i], lookup(i));
      var active := operations[i];
      var job := lookup(i);
      if job.LookupError? {
        return false;
      }
      if job.NotFound? || job.failed {
        RollbackUnstartedWorkerOperations(plan, active.opType, Weight(active));
        continue;
      }
      if job.succeeded && active.phase.Running? {
        active := active.(phase := WaitingForObservation, finishedAt := Some(now));
      }
      if active.phase.WaitingForObservation? && active.opType.Create? && createBudget > 0 {
        createBudget := createBudget - Weight(active);
        continue;
      }
      if active.phase.WaitingForObservation? && active.opType.Delete? && deleteBudget > 0 {
        deleteBudget := deleteBudget - Weight(active);
        continue;
      }
      var expired := WorkerOperationTimedOut(active, now, cfg.observationTimeout);
      if active.phase.WaitingForObservation? && expired {
        RollbackUnstartedWorkerOperations(plan, active.opType, Weight(active));
        continue;
      }
      remaining := remaining + [active];
    }
    plan.status := plan.status.(operations := remaining);
    plan.SyncLegacyActiveOperation();
    return true;
  }

  // ---------------------------------------------------------------------
  // Starting the planned operations
  // ---------------------------------------------------------------------

  predicate Fails(cfg: Config, t: OperationType, a: Attempt) {
    EnabledFor(cfg, t) && (a.PrepareError? || a.JobCreateError?)
  }

  /** A disabled command or a missing target is not an error: it launches nothing. */
  predicate Launches(cfg: Config, t: OperationType, a: Attempt) {
    EnabledFor(cfg, t) && a.JobCreated?
  }

  function NewOperation(t: OperationType, a: Attempt, now: int): Operation
    requires a.JobCreated?
  {
    Operation(t, a.targetNode, Running, a.job, 1, Some(now), None)
  }

  /** One attempt; a failing one changes nothing. */
  function StartOne(cfg: Config, s: Status, t: OperationType, a: Attempt, now: int): Status {
    if Fails(cfg, t, a) then s
    else if Launches(cfg, t, a) then WithMirror(s.(operations := s.operations + [NewOperation(t, a, now)]))
    else Rollback(s, t, 1)
  }

  /** How many attempts succeed before the first error. */
  function SuccessesUpTo(cfg: Config, t: OperationType, requested: nat, attempt: nat -> Attempt): (k: nat)
    ensures k <= requested
    ensures forall j: nat :: j < k ==> !Fails(cfg, t, attempt(j))
    ensures k < requested ==> Fails(cfg, t, attempt(k))
  {
    if requested == 0 then 0
    else
      var k := SuccessesUpTo(cfg, t, requested - 1, attempt);
      if k == requested - 1 && !Fails(cfg, t, attempt(k)) then requested else k
  }

  function StartTo(cfg: Config, s: Status, t: OperationType, attempt: nat -> Attempt, now: int, k: nat): Status {
    if k == 0 then s else StartOne(cfg, StartTo(cfg, s, t, attempt, now, k - 1), t, attempt(k - 1), now)
  }

  /** The outcome of the start loop; None when the very first attempt failed. */
  function Started(cfg: Config, s: Status, t: OperationType, requested: nat, attempt: nat -> Attempt, now: int)
    : Option<Status>
  {
    var k := SuccessesUpTo(cfg, t, requested, attempt);
    if k < requested && k == 0 then None
    else Some(WithMirror(Rollback(StartTo(cfg, s, t, attempt, now, k), t, requested - k)))
  }

  method StartWorkerOperation(cfg: Config, plan: WorkerPlan, t: OperationType, a: Attempt, now: int)
    returns (ok: bool)
    modifies plan`status
    ensures ok == !Fails(cfg, t, a)
    ensures plan.status == StartOne(cfg, old(plan.status), t, a, now)
  {
    if !EnabledFor(cfg, t) {
      Unplan(plan, t);
      return true;
    }
    if a.PrepareError? {
      return false;
    }
    if a.NoTarget? {
      Unplan(plan, t);
      return true;
    }
    if a.JobCreateError? {
      return false;
    }
    plan.status := plan.status.(operations := plan.status.operations +
      [Operation(t, a.targetNode, Running, a.job, 1, Some(now), None)]);
    plan.SyncLegacyActiveOperation();
    return true;
  }

  /** Gives one planned worker back when its start turned out to be a no-op. */
  method Unplan(plan: WorkerPlan, t: OperationType)
    modifies plan`status
    ensures plan.status == Rollback(old(plan.status), t, 1)
  {
    if t.Create? && plan.status.pendingCreate > 0 {
      plan.status := plan.status.(pendingCreate := plan.status.pendingCreate - 1);
    }
    if t.Delete? && plan.status.pendingDelete > 0 {
      plan.status := plan.status.(pendingDelete := plan.status.pendingDelete - 1);
    }
    plan.status := plan.status.(effective := plan.status.ready + plan.status.pendingCreate - plan.status.pendingDelete);
  }

  method StartWorkerOperations(cfg: Config, plan: WorkerPlan, t: OperationType, requested: nat,
                               attempt: nat -> Attempt, now: int)
    returns (ok: bool)
    modifies plan`status
    ensures ok == Started(cfg, old(plan.status), t, requested, attempt, now).Some?
    ensures ok ==> Some(plan.status) == Started(cfg, old(plan.status), t, requested, attempt, now)
  {
    ghost var before := plan.status;
    var started := 0;
    while started < requested
      invariant started <= requested
      invariant forall j: nat :: j < started ==> !Fails(cfg, t, attempt(j))
      invariant plan.status == StartTo(cfg, before, t, attempt, now, started)
    {
      var succeeded := StartWorkerOperation(cfg, plan, t, attempt(started), now);
      if !succeeded {
        assert SuccessesUpTo(cfg, t, requested, attempt) == started;
        if started == 0 {
          return false;
        }
        RollbackUnstartedWorkerOperations(plan, t, requested - started);
        plan.SyncLegacyActiveOperation();
        return true;
      }
      started := started + 1;
    }
    plan.SyncLegacyActiveOperation();
    return true;
  }

  // ---------------------------------------------------------------------
  // The whole executor
  // ---------------------------------------------------------------------

  /** None when some step returned an error. */
  function Executed(cfg: Config, previous: Option<Status>, p: Planned, lookup: nat -> Lookup, attempt: nat -> Attempt,
                    now: int): Option<Status>
  {
    if !Readable(p.status, lookup) then None
    else
      var s := Reconciled(cfg.observationTimeout, now, p.status, ReadyOf(previous), lookup);
      if p.creates > 0 then Started(cfg, s, Create, p.creates, attempt, now)
      else if p.deletes > 0 then Started(cfg, s, Delete, p.deletes, attempt, now)
      else Some(s)
  }

  method ReconcileWorkerExecutor(cfg: Config, previous: Option<Status>, plan: WorkerPlan, lookup: nat -> Lookup,
                                 attempt: nat -> Attempt, now: int)
    returns (ok: bool)
    modifies plan`status
    ensures var p := Planned(old(plan.status), plan.workersToCreate, plan.workersToDelete);
      && ok == Executed(cfg, previous, p, lookup, attempt, now).Some?
      && (ok ==> Some(plan.status) == Executed(cfg, previous, p, lookup, attempt, now))
  {
    ok := ReconcileActiveWorkerOperations(cfg, previous, plan, lookup, now);
    if !ok {
      return;
    }
    if plan.workersToCreate > 0 {
      ok := StartWorkerOperations(cfg, plan, Create, plan.workersToCreate, attempt, now);
    } else if plan.workersToDelete > 0 {
      ok := StartWorkerOperations(cfg, plan, Delete, plan.workersToDelete, attempt, now);
    }
  }
}
