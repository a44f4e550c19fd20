/** One reconcile in terms of what it reads: configuration, ready counts, phases, lookups and attempts. */
module NodeScalingExact {
  import opened Common
  import opened WorkerOperations
  import opened WorkerPlanner
  import opened WorkerExecutor
  import opened NodeScaling
  import opened NodeScalingSafety

  // ---------------------------------------------------------------------
  // What is planned
  // ---------------------------------------------------------------------

  /** n operations fit the batch: the setting when positive, otherwise the larger configured limit, at least one. */
  predicate FitsBatch(d: Demand, n: int) {
    if d.maxBatchSize.Some? && d.maxBatchSize.value > 0 then n <= d.maxBatchSize.value
    else n <= 1 || n <= d.maxCreate || n <= d.maxDelete
  }

  /** Workers of a type that are tracked and not made up for by the move of the ready count. */
  function Unobserved(stored: Option<Status>, ready: int, t: OperationType): int {
    var before := if stored.Some? then stored.value.ready else 0;
    var moved := if t.Create? then ready - before else before - ready;
    InFlight(stored, t) - (if moved <= 0 then 0 else if moved < InFlight(stored, t) then moved else InFlight(stored, t))
  }

  /** n more creates are allowed: no delete is unobserved, the target is not passed, slots and batch suffice. */
  predicate MayCreate(stored: Option<Status>, d: Demand, n: int) {
    var pending := Unobserved(stored, d.ready, Create);
    && Unobserved(stored, d.ready, Delete) == 0
    && d.ready + pending + n <= d.target
    && (pending + n <= 1 || pending + n <= d.maxCreate)
    && FitsBatch(d, n)
  }

  /** n more deletes are allowed: no create is unobserved, no pod waits for a node, and likewise. */
  predicate MayDelete(stored: Option<Status>, d: Demand, n: int) {
    var pending := Unobserved(stored, d.ready, Delete);
    && Unobserved(stored, d.ready, Create) == 0 && d.unschedulablePods <= 0
    && d.ready - pending - n >= d.target
    && (pending + n <= 1 || pending + n <= d.maxDelete)
    && FitsBatch(d, n)
  }

  lemma UnobservedIs(stored: Option<Status>, ready: int, t: OperationType)
    requires Known(t)
    ensures Unobserved(stored, ready, t) == Outstanding(stored, ready, t) >= 0
  {
  }

  /** The planner creates as many workers as it may, in every state: n of them exactly when n are allowed. */
  lemma CreatesAreGreatest(stored: Option<Status>, d: Demand, n: int)
    requires n > 0
    ensures n <= Plan(stored, d).creates <==> MayCreate(stored, d, n)
  {
    UnobservedIs(stored, d.ready, Create);
    UnobservedIs(stored, d.ready, Delete);
  }

  lemma DeletesAreGreatest(stored: Option<Status>, d: Demand, n: int)
    requires n > 0
    ensures n <= Plan(stored, d).deletes <==> MayDelete(stored, d, n)
  {
    UnobservedIs(stored, d.ready, Create);
    UnobservedIs(stored, d.ready, Delete);
  }

  predicate Idle(stored: Option<Status>) { |ActiveOperations(stored)| == 0 }

  /**
    Attainment: an idle scaler whose jobs are all created leaves exactly as many operations in flight
    as the gap, the configured limit and the batch allow, in the direction of the gap.
  */
  lemma IdleAttains(cfg: Config, stored: Option<Status>, env: Env)
    requires Idle(stored) && cfg.createEnabled && cfg.deleteEnabled && env.patched && AllCreated(env.attempt)
    ensures var creates, deletes := InFlight(Step(cfg, stored, env), Create), InFlight(Step(cfg, stored, env), Delete);
      var maxCreate := if cfg.maxCreate > 0 then cfg.maxCreate else 1;
      var maxDelete := if cfg.maxDelete > 0 then cfg.maxDelete else 1;
      var batch := if env.maxBatchSize.Some? && env.maxBatchSize.value > 0 then env.maxBatchSize.value
                   else Max(maxCreate, maxDelete);
      && creates == (if env.target > env.ready then Min(env.target - env.ready, Min(maxCreate, batch)) else 0)
      && deletes == (if env.target < env.ready && env.unschedulablePods == 0
                     then Min(env.ready - env.target, Min(maxDelete, batch)) else 0)
  {
    EverythingLaunches(cfg, stored, env, Create);
    EverythingLaunches(cfg, stored, env, Delete);
    RemovedBounds(cfg, stored, env, Create);
    RemovedBounds(cfg, stored, env, Delete);
    IdleWants(cfg, stored, env);
  }

  lemma IdleWants(cfg: Config, stored: Option<Status>, env: Env)
    requires Idle(stored)
    ensures var maxCreate := if cfg.maxCreate > 0 then cfg.maxCreate else 1;
      var maxDelete := if cfg.maxDelete > 0 then cfg.maxDelete else 1;
      var batch := if env.maxBatchSize.Some? && env.maxBatchSize.value > 0 then env.maxBatchSize.value
                   else Max(maxCreate, maxDelete);
      && Wanted(cfg, stored, env, Create) ==
         (if env.target > env.ready then Min(env.target - env.ready, Min(maxCreate, batch)) else 0)
      && Wanted(cfg, stored, env, Delete) ==
         (if env.target < env.ready && env.unschedulablePods == 0
          then Min(env.ready - env.target, Min(maxDelete, batch)) else 0)
  {
    assert Outstanding(stored, env.ready, Create) == 0 && Outstanding(stored, env.ready, Delete) == 0;
  }

  // ---------------------------------------------------------------------
  // What becomes of a tracked operation
  // ---------------------------------------------------------------------

  /** The budget left for operations of this one's type: how far the ready count still moved its way. */
  function BudgetFor(w: Sweep, op: Operation): int {
    if op.opType.Create? then w.createBudget else if op.opType.Delete? then w.deleteBudget else 0
  }

  /** The operation is gone from the list and its workers from pending. */
  predicate IsRolledBack(w: Sweep, next: Sweep, op: Operation) {
    var count := if op.requestedCount > 0 then op.requestedCount else 1;
    var s, r := w.status, next.status;
    && next.kept == w.kept && next.observed == w.observed && next.rolledBack == w.rolledBack + [op]
    && next.createBudget == w.createBudget && next.deleteBudget == w.deleteBudget
    && r.pendingCreate == (if !op.opType.Create? || s.pendingCreate < 0 then s.pendingCreate
                           else if s.pendingCreate < count then 0 else s.pendingCreate - count)
    && r.pendingDelete == (if !op.opType.Delete? || s.pendingDelete < 0 then s.pendingDelete
                           else if s.pendingDelete < count then 0 else s.pendingDelete - count)
    && r.effective == r.ready + r.pendingCreate - r.pendingDelete
    && r.ready == s.ready && r.target == s.target
  }

  predicate IsAcknowledged(w: Sweep, next: Sweep, op: Operation) {
    var count := if op.requestedCount > 0 then op.requestedCount else 1;
    && next.kept == w.kept && next.observed == w.observed + [op] && next.rolledBack == w.rolledBack
    && next.createBudget == (if op.opType.Create? then w.createBudget - count else w.createBudget)
    && next.deleteBudget == (if op.opType.Delete? then w.deleteBudget - count else w.deleteBudget)
    && next.status == w.status
  }

  predicate IsKept(w: Sweep, next: Sweep, kept: Operation) {
    next == w.(kept := w.kept + [kept])
  }

  /** The operation waits to be observed: its job succeeded now, or had succeeded before. */
  predicate Waits(op: Operation, found: Lookup) {
    op.phase.WaitingForObservation? || (op.phase.Running? && found.Found? && found.succeeded)
  }

  /** When its waiting began: the finish, which is now for a job that has just succeeded, else the start. */
  function WaitsSince(op: Operation, now: int): Option<int> {
    if op.phase.Running? then Some(now) else if op.finishedAt.Some? then op.finishedAt else op.startedAt
  }

  predicate Overdue(op: Operation, now: int, timeout: int) {
    timeout > 0 && WaitsSince(op, now).Some? && now - WaitsSince(op, now).value >= timeout
  }

  /**
    The fate of one tracked operation. A missing or failed job is dropped and leaves pending. One that
    waits to be observed is acknowledged while its budget is positive; otherwise it is rolled back
    exactly when it is overdue. Every other one is kept. A kept operation is unchanged, but for one whose
    job has just succeeded, which starts waiting.
  */
  predicate MeetsItsFate(timeout: int, now: int, w: Sweep, next: Sweep, op: Operation, found: Lookup) {
    if found.NotFound? || (found.Found? && found.failed) then IsRolledBack(w, next, op)
    else if !Waits(op, found) then IsKept(w, next, op)
    else if BudgetFor(w, op) > 0 then IsAcknowledged(w, next, op)
    else if Overdue(op, now, timeout) then IsRolledBack(w, next, op)
    else IsKept(w, next, if op.phase.Running? then op.(phase := WaitingForObservation, finishedAt := Some(now)) else op)
  }

  lemma FateExactly(timeout: int, now: int, w: Sweep, op: Operation, found: Lookup)
    ensures MeetsItsFate(timeout, now, w, Advance(timeout, now, w, op, found), op, found)
  {
  }

  /** The states of a pass over the stored operations, from all of them ahead to all of them behind. */
  ghost predicate IsPass(cfg: Config, stored: Option<Status>, env: Env, trace: seq<Sweep>) {
    var ops, ready := ActiveOperations(stored), if stored.Some? then stored.value.ready else 0;
    && |trace| == |ops| + 1
    && trace[0].kept == trace[0].observed == trace[0].rolledBack == []
    && trace[0].createBudget == (if env.ready > ready then env.ready - ready else 0)
    && trace[0].deleteBudget == (if env.ready < ready then ready - env.ready else 0)
    && forall i :: 0 <= i < |ops| ==>
         MeetsItsFate(cfg.observationTimeout, env.now, trace[i], trace[i + 1], ops[i], env.lookup(i))
  }

  lemma OneAdvance(timeout: int, now: int, start: Sweep, ops: seq<Operation>, lookup: nat -> Lookup, i: nat)
    requires i < |ops|
    ensures MeetsItsFate(timeout, now, SweepTo(timeout, now, start, ops, lookup, i),
                         SweepTo(timeout, now, start, ops, lookup, i + 1), ops[i], lookup(i))
  {
    var w := SweepTo(timeout, now, start, ops, lookup, i);
    FateExactly(timeout, now, w, ops[i], lookup(i));
    assert SweepTo(timeout, now, start, ops, lookup, i + 1) == Advance(timeout, now, w, ops[i], lookup(i));
  }

  lemma TraceOf(timeout: int, now: int, start: Sweep, ops: seq<Operation>, lookup: nat -> Lookup)
    returns (trace: seq<Sweep>)
    ensures |trace| == |ops| + 1 && trace[0] == start
    ensures trace[|ops|] == SweepTo(timeout, now, start, ops, lookup, |ops|)
    ensures forall i :: 0 <= i < |ops| ==> MeetsItsFate(timeout, now, trace[i], trace[i + 1], ops[i], lookup(i))
  {
    trace := seq(|ops| + 1, i requires 0 <= i <= |ops| => SweepTo(timeout, now, start, ops, lookup, i));
    forall i | 0 <= i < |ops| ensures MeetsItsFate(timeout, now, trace[i], trace[i + 1], ops[i], lookup(i)) {
      OneAdvance(timeout, now, start, ops, lookup, i);
    }
  }

  /**
    Every reconcile passes once over all tracked operations in order, each of them meeting its fate;
    what it keeps, followed by what it starts, is what is stored, and so is the pending it leaves, less
    the planned workers that were not launched.
  */
  lemma PassExactly(cfg: Config, stored: Option<Status>, env: Env) returns (trace: seq<Sweep>)
    ensures IsPass(cfg, stored, env, trace) && trace[0].status == Plan(stored, DemandOf(cfg, env)).status
    ensures Persists(cfg, stored, env) ==>
            var next, last := Step(cfg, stored, env).value, trace[|trace| - 1];
            && next.operations == last.kept + NewOps(cfg, stored, env)
            && HandsOn(cfg, stored, env, last.status, next, Create)
            && HandsOn(cfg, stored, env, last.status, next, Delete)
  {
    var start := PassIs(cfg, stored, env);
    trace := TraceOf(cfg.observationTimeout, env.now, start, ActiveOperations(stored), env.lookup);
    if Persists(cfg, stored, env) {
      StepShape(cfg, stored, env);
      HandedOn(cfg, stored, env, Create);
      HandedOn(cfg, stored, env, Delete);
    }
  }

  /** Pending of a type after the starts is what the pass left, less what was planned and not launched. */
  predicate HandsOn(cfg: Config, stored: Option<Status>, env: Env, last: Status, next: Status, t: OperationType) {
    var left := Pending(last, t) - (Wanted(cfg, stored, env, t) - Launched(cfg, stored, env, t));
    Pending(next, t) == if left > 0 then left else 0
  }

  lemma HandedOn(cfg: Config, stored: Option<Status>, env: Env, t: OperationType)
    requires Known(t) && Persists(cfg, stored, env)
    ensures HandsOn(cfg, stored, env, SweepOf(cfg, stored, env).status, Step(cfg, stored, env).value, t)
  {
    OutcomeLedger(cfg, stored, env, t);
    PassedIs(cfg, stored, env);
  }

  // ---------------------------------------------------------------------
  // What is started
  // ---------------------------------------------------------------------

  predicate CommandEnabled(cfg: Config, t: OperationType) {
    (t.Create? && cfg.createEnabled) || (t.Delete? && cfg.deleteEnabled)
  }

  /** How many of the first n attempts create a job. */
  function CreatedCount(attempt: nat -> Attempt, n: nat): nat {
    if n == 0 then 0 else CreatedCount(attempt, n - 1) + if attempt(n - 1).JobCreated? then 1 else 0
  }

  predicate IsError(a: Attempt) { a.PrepareError? || a.JobCreateError? }

  /** The start loop stops at the first error of an enabled command; at the first attempt it is the step's error. */
  lemma StartsUntilError(cfg: Config, s: Status, t: OperationType, requested: nat, attempt: nat -> Attempt, now: int)
    ensures var k := SuccessesUpTo(cfg, t, requested, attempt);
      && k <= requested
      && (forall j: nat :: j < k && CommandEnabled(cfg, t) ==> !IsError(attempt(j)))
      && (k < requested ==> CommandEnabled(cfg, t) && IsError(attempt(k)))
    ensures Started(cfg, s, t, requested, attempt, now).None? <==>
            requested > 0 && CommandEnabled(cfg, t) && IsError(attempt(0))
  {
    var k := SuccessesUpTo(cfg, t, requested, attempt);
    assert k == 0 || !Fails(cfg, t, attempt(0));
  }

  /** The new operations: one per job created, in order, running since now and standing for one worker. */
  lemma {:induction false} NewOperationsExactly(
      cfg: Config, t: OperationType, attempt: nat -> Attempt, now: int, k: nat)
    ensures var ops := LaunchedOps(cfg, t, attempt, now, k);
      if !CommandEnabled(cfg, t) then ops == []
      else
        && |ops| == CreatedCount(attempt, k)
        && forall j: nat :: j < k && attempt(j).JobCreated? ==>
             && CreatedCount(attempt, j) < |ops|
             && ops[CreatedCount(attempt, j)] ==
                Operation(t, attempt(j).targetNode, Running, attempt(j).job, 1, Some(now), None)
  {
    if k > 0 {
      NewOperationsExactly(cfg, t, attempt, now, k - 1);
    }
  }

  /** A status is stored exactly when every lookup succeeds, the first start does not fail, and the patch succeeds. */
  lemma PersistsExactly(cfg: Config, stored: Option<Status>, env: Env)
    ensures var d := DemandOf(cfg, env);
      var t := if Plan(stored, d).creates > 0 then Create else Delete;
      var planned := Plan(stored, d).creates > 0 || Plan(stored, d).deletes > 0;
      Persists(cfg, stored, env) <==>
      && env.patched && JobsReadable(stored, env)
      && !(planned && CommandEnabled(cfg, t) && IsError(env.attempt(0)))
  {
    var p := Plan(stored, DemandOf(cfg, env));
    ReadableIsReadable(cfg, stored, env);
    if JobsReadable(stored, env) {
      var s := Reconciled(cfg.observationTimeout, env.now, p.status, ReadyOf(stored), env.lookup);
      StartsUntilError(cfg, s, Create, Positive(p.creates), env.attempt, env.now);
      StartsUntilError(cfg, s, Delete, Positive(p.deletes), env.attempt, env.now);
    }
  }
}
