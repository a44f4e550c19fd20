/**
  One persisted reconcile of the node scaler as a transition on the stored
  status, and what every transition and every run of transitions keeps.
*/
module NodeScaling {
  import opened Common
  import opened WorkerOperations
  import opened WorkerPlanner
  import opened WorkerExecutor

  /** Everything one reconcile reads from the cluster, chosen freely. */
  datatype Env = Env(
    target: nat,
    maxBatchSize: Option<int>,
    ready: nat,
    unschedulablePods: nat,
    now: int,
    lookup: nat -> Lookup,
    attempt: nat -> Attempt,
    patched: bool)

  function DemandOf(cfg: Config, env: Env): Demand {
    Demand(env.target, env.maxBatchSize, env.ready, env.unschedulablePods, cfg.maxCreate, cfg.maxDelete)
  }

  /** The status the reconcile would store; None when a step failed. */
  function Outcome(cfg: Config, stored: Option<Status>, env: Env): Option<Status> {
    Executed(cfg, stored, Plan(stored, DemandOf(cfg, env)), env.lookup, env.attempt, env.now)
  }

  predicate Persists(cfg: Config, stored: Option<Status>, env: Env) {
    Outcome(cfg, stored, env).Some? && env.patched
  }

  /** The stored status after one reconcile: a failed step stores nothing. */
  function Step(cfg: Config, stored: Option<Status>, env: Env): Option<Status> {
    if Persists(cfg, stored, env) then Outcome(cfg, stored, env) else stored
  }

  /** The stored status after a run of reconciles. */
  function AfterFrom(cfg: Config, stored: Option<Status>, envs: seq<Env>): Option<Status> {
    if |envs| == 0 then stored
    else Step(cfg, AfterFrom(cfg, stored, envs[..|envs| - 1]), envs[|envs| - 1])
  }

  /** The run of a scaler that never reconciled before. */
  function After(cfg: Config, envs: seq<Env>): Option<Status> {
    AfterFrom(cfg, None, envs)
  }

  class NodeScalingReconciler {
    var stored: Option<Status>

    constructor ()
      ensures stored == None
    {
      stored := None;
    }

    method Reconcile(cfg: Config, env: Env)
      modifies this
      ensures stored == Step(cfg, old(stored), env)
    {
      var plan := EnsureWorkers(env.maxBatchSize, env.target, stored, env.ready, env.unschedulablePods,
                                cfg.maxCreate, cfg.maxDelete);
      var ok := ReconcileWorkerExecutor(cfg, stored, plan, env.lookup, env.attempt, env.now);
      if !ok {
        return;
      }
      if env.patched {
        stored := Some(plan.status);
      }
    }
  }

  // ---------------------------------------------------------------------
  // Vocabulary: what one reconcile does to the workers of one type
  // ---------------------------------------------------------------------

  /** Workers of type t covered by the stored operations. */
  function InFlight(stored: Option<Status>, t: OperationType): int {
    Tracked(ActiveOperations(stored), t)
  }

  function SweepOf(cfg: Config, stored: Option<Status>, env: Env): Sweep {
    Swept(cfg.observationTimeout, env.now, Plan(stored, DemandOf(cfg, env)).status, ReadyOf(stored), env.lookup)
  }

  function CreditedBy(stored: Option<Status>, env: Env, t: OperationType): int {
    Credited(stored, env.ready, t)
  }

  /** Removed because the ready count moved. */
  function Acknowledged(cfg: Config, stored: Option<Status>, env: Env, t: OperationType): int {
    Tracked(SweepOf(cfg, stored, env).observed, t)
  }

  /** Removed because the job failed, vanished or timed out. */
  function RolledBack(cfg: Config, stored: Option<Status>, env: Env, t: OperationType): int {
    Tracked(SweepOf(cfg, stored, env).rolledBack, t)
  }

  function Removed(cfg: Config, stored: Option<Status>, env: Env, t: OperationType): int {
    Acknowledged(cfg, stored, env, t) + RolledBack(cfg, stored, env, t)
  }

  /** Workers the planner asked for. */
  function Wanted(cfg: Config, stored: Option<Status>, env: Env, t: OperationType): int {
    match t
    case Create => CreatesWanted(stored, DemandOf(cfg, env))
    case Delete => DeletesWanted(stored, DemandOf(cfg, env))
    case Unknown(_) => 0
  }

  /** The operations whose jobs one reconcile created. */
  function LaunchedOps(cfg: Config, t: OperationType, attempt: nat -> Attempt, now: int, k: nat): seq<Operation> {
    if k == 0 then []
    else
      var before := LaunchedOps(cfg, t, attempt, now, k - 1);
      if Launches(cfg, t, attempt(k - 1)) then before + [NewOperation(t, attempt(k - 1), now)] else before
  }

  function LaunchType(cfg: Config, stored: Option<Status>, env: Env): OperationType {
    if Wanted(cfg, stored, env, Create) > 0 then Create else Delete
  }

  function NewOps(cfg: Config, stored: Option<Status>, env: Env): seq<Operation> {
    var t := LaunchType(cfg, stored, env);
    var requested := Requested(cfg, stored, env);
    LaunchedOps(cfg, t, env.attempt, env.now, SuccessesUpTo(cfg, t, requested, env.attempt))
  }

  function Launched(cfg: Config, stored: Option<Status>, env: Env, t: OperationType): int {
    Tracked(NewOps(cfg, stored, env), t)
  }

  predicate Known(t: OperationType) { t.Create? || t.Delete? }

  predicate Balanced(s: Status) {
    s.effective == s.ready + s.pendingCreate - s.pendingDelete && s.pendingCreate >= 0 && s.pendingDelete >= 0
  }

  // ---------------------------------------------------------------------
  // The pass over the tracked operations
  // ---------------------------------------------------------------------

  /** Every tracked operation ends up kept, observed or rolled back. */
  ghost predicate Partitioned(done: int, w: Sweep, t: OperationType) {
    Tracked(w.kept, t) + Tracked(w.observed, t) + Tracked(w.rolledBack, t) == done
  }

  function Budget(w: Sweep, t: OperationType): int {
    match t
    case Create => w.createBudget
    case Delete => w.deleteBudget
    case Unknown(_) => 0
  }

  /** Pending falls by what was rolled back and stops at zero. */
  ghost predicate Discounted(s: Status, w: Sweep, t: OperationType) {
    && Pending(w.status, t) == Positive(Pending(s, t) - Tracked(w.rolledBack, t))
    && w.status.ready == s.ready && w.status.target == s.target
    && Balanced(w.status)
  }

  lemma RefreshedKeepsIdentity(op: Operation, found: Lookup, now: int)
    ensures var active := Refreshed(op, found, now);
      active.opType == op.opType && Weight(active) == Weight(op) &&
      active.requestedCount == op.requestedCount && active.job == op.job
  {
  }

  lemma AdvancePartitions(timeout: int, now: int, done: int, w: Sweep,
                          op: Operation, found: Lookup, t: OperationType)
    requires Partitioned(done, w, t)
    ensures Partitioned(done + if op.opType == t then Weight(op) else 0, Advance(timeout, now, w, op, found), t)
  {
    match FateOf(timeout, now, w, op, found)
    case Keep =>
      RefreshedKeepsIdentity(op, found, now);
      TrackedAppend(w.kept, Refreshed(op, found, now), t);
    case Observe => TrackedAppend(w.observed, op, t);
    case RollBack => TrackedAppend(w.rolledBack, op, t);
  }

  lemma AdvanceSpends(timeout: int, now: int, w: Sweep, op: Operation, found: Lookup, t: OperationType)
    requires Known(t)
    ensures var next := Advance(timeout, now, w, op, found);
      Budget(next, t) + Tracked(next.observed, t) == Budget(w, t) + Tracked(w.observed, t)
  {
    TrackedAppend(w.observed, op, t);
  }

  lemma RollbackDiscounts(s: Status, t: OperationType, u: OperationType, count: int)
    requires Known(t) && Balanced(s) && count >= 1
    ensures var r := Rollback(s, u, count);
      && Pending(r, t) == (if t == u then Positive(Pending(s, t) - count) else Pending(s, t))
      && r.ready == s.ready && r.target == s.target && r.operations == s.operations && Balanced(r)
  {
  }

  lemma AdvanceDiscounts(timeout: int, now: int, s: Status, w: Sweep, op: Operation, found: Lookup, t: OperationType)
    requires Known(t) && Discounted(s, w, t)
    ensures Discounted(s, Advance(timeout, now, w, op, found), t)
  {
    match FateOf(timeout, now, w, op, found)
    case Keep =>
    case Observe =>
    case RollBack =>
      TrackedAppend(w.rolledBack, op, t);
      RollbackDiscounts(w.status, t, op.opType, Weight(op));
  }

  lemma {:induction false} SweepPartitions(timeout: int, now: int, start: Sweep, ops: seq<Operation>,
                                           lookup: nat -> Lookup, i: nat, t: OperationType)
    requires i <= |ops| && Partitioned(0, start, t)
    ensures Partitioned(TrackedTo(ops, t, i), SweepTo(timeout, now, start, ops, lookup, i), t)
  {
    if i > 0 {
      SweepPartitions(timeout, now, start, ops, lookup, i - 1, t);
      AdvancePartitions(timeout, now, TrackedTo(ops, t, i - 1), SweepTo(timeout, now, start, ops, lookup, i - 1),
                        ops[i - 1], lookup(i - 1), t);
    }
  }

  /** A budget pays for what is observed. */
  lemma {:induction false} SweepSpends(timeout: int, now: int, start: Sweep, ops: seq<Operation>,
                                       lookup: nat -> Lookup, i: nat, t: OperationType)
    requires Known(t) && i <= |ops|
    ensures var w := SweepTo(timeout, now, start, ops, lookup, i);
      Budget(w, t) + Tracked(w.observed, t) == Budget(start, t) + Tracked(start.observed, t)
  {
    if i > 0 {
      SweepSpends(timeout, now, start, ops, lookup, i - 1, t);
      AdvanceSpends(timeout, now, SweepTo(timeout, now, start, ops, lookup, i - 1), ops[i - 1], lookup(i - 1), t);
    }
  }

  lemma {:induction false} SweepDiscounts(timeout: int, now: int, start: Sweep, ops: seq<Operation>,
                                          lookup: nat -> Lookup, i: nat, t: OperationType)
    requires Known(t) && Balanced(start.status) && start.rolledBack == [] && i <= |ops|
    ensures Discounted(start.status, SweepTo(timeout, now, start, ops, lookup, i), t)
  {
    if i > 0 {
      SweepDiscounts(timeout, now, start, ops, lookup, i - 1, t);
      AdvanceDiscounts(timeout, now, start.status, SweepTo(timeout, now, start, ops, lookup, i - 1),
                       ops[i - 1], lookup(i - 1), t);
    }
  }

  /** With one worker per operation no budget is overdrawn. */
  lemma {:induction false} SweepUnit(timeout: int, now: int, start: Sweep, ops: seq<Operation>,
                                     lookup: nat -> Lookup, i: nat, t: OperationType)
    requires Known(t) && i <= |ops| && AllUnit(ops) && AllUnit(start.kept) && Budget(start, t) >= 0
    ensures var w := SweepTo(timeout, now, start, ops, lookup, i);
      AllUnit(w.kept) && Budget(w, t) >= 0
  {
    if i > 0 {
      SweepUnit(timeout, now, start, ops, lookup, i - 1, t);
      RefreshedKeepsIdentity(ops[i - 1], lookup(i - 1), now);
    }
  }

  /** What is kept was tracked before: the pass invents no job. */
  lemma {:induction false} SweepJobs(timeout: int, now: int, start: Sweep, ops: seq<Operation>,
                                     lookup: nat -> Lookup, i: nat, job: string)
    requires i <= |ops| && job !in Jobs(ops) && start.kept == []
    ensures job !in Jobs(SweepTo(timeout, now, start, ops, lookup, i).kept)
  {
    if i > 0 {
      SweepJobs(timeout, now, start, ops, lookup, i - 1, job);
      RefreshedKeepsIdentity(ops[i - 1], lookup(i - 1), now);
      assert ops[i - 1].job != job;
    }
  }

  // ---------------------------------------------------------------------
  // The start loop
  // ---------------------------------------------------------------------

  lemma {:induction false} LaunchedAreNew(cfg: Config, t: OperationType, attempt: nat -> Attempt, now: int, k: nat,
                                          u: OperationType)
    ensures var ops := LaunchedOps(cfg, t, attempt, now, k);
      && |ops| <= k && AllUnit(ops)
      && Tracked(ops, u) == (if u == t then |ops| else 0)
      && (forall i :: 0 <= i < |ops| ==> ops[i].opType == t && ops[i].phase == Running)
  {
    if k > 0 {
      LaunchedAreNew(cfg, t, attempt, now, k - 1, u);
      if Launches(cfg, t, attempt(k - 1)) {
        TrackedAppend(LaunchedOps(cfg, t, attempt, now, k - 1), NewOperation(t, attempt(k - 1), now), u);
      }
    }
  }

  /** Two statuses of the same reconcile that may differ in operations and pending work. */
  predicate SameObservation(a: Status, b: Status) {
    a.ready == b.ready && a.target == b.target
  }

  /** Pending work of type u when `lost` planned workers of type t were given back. */
  function PendingAfter(s: Status, t: OperationType, u: OperationType, lost: int): int {
    if u == t then Positive(Pending(s, u) - lost) else Pending(s, u)
  }

  /** After `n` planned workers of type t: the new operations are listed, the other planned workers given back. */
  predicate StartedFrom(s: Status, r: Status, t: OperationType, u: OperationType, new_: seq<Operation>, n: nat) {
    && r.operations == s.operations + new_ && |new_| <= n
    && Pending(r, u) == PendingAfter(s, t, u, n - |new_|)
    && SameObservation(r, s) && Balanced(r)
  }

  lemma NothingStarted(s: Status, t: OperationType, u: OperationType)
    requires Known(u) && Balanced(s)
    ensures StartedFrom(s, s, t, u, [], 0)
  {
    assert s.operations + [] == s.operations;
  }

  lemma OneMoreLaunched(s: Status, r: Status, t: OperationType, u: OperationType, new_: seq<Operation>, n: nat,
                        op: Operation)
    requires StartedFrom(s, r, t, u, new_, n)
    ensures StartedFrom(s, WithMirror(r.(operations := r.operations + [op])), t, u, new_ + [op], n + 1)
  {
    assert s.operations + new_ + [op] == s.operations + (new_ + [op]);
  }

  lemma MoreGivenBack(s: Status, r: Status, t: OperationType, u: OperationType, new_: seq<Operation>, n: nat,
                      lost: nat)
    requires Known(u) && StartedFrom(s, r, t, u, new_, n)
    ensures StartedFrom(s, Rollback(r, t, lost), t, u, new_, n + lost)
  {
    if lost > 0 {
      RollbackDiscounts(r, u, t, lost);
    }
  }

  lemma MirrorStarted(s: Status, r: Status, t: OperationType, u: OperationType, new_: seq<Operation>, n: nat)
    requires StartedFrom(s, r, t, u, new_, n)
    ensures StartedFrom(s, WithMirror(r), t, u, new_, n)
  {
  }

  lemma {:induction false} StartLedger(cfg: Config, s: Status, t: OperationType, attempt: nat -> Attempt, now: int,
                                       k: nat, u: OperationType)
    requires Known(u) && Balanced(s)
    requires forall j: nat :: j < k ==> !Fails(cfg, t, attempt(j))
    ensures StartedFrom(s, StartTo(cfg, s, t, attempt, now, k), t, u, LaunchedOps(cfg, t, attempt, now, k), k)
  {
    if k == 0 {
      NothingStarted(s, t, u);
    } else {
      StartLedger(cfg, s, t, attempt, now, k - 1, u);
      var r, new_ := StartTo(cfg, s, t, attempt, now, k - 1), LaunchedOps(cfg, t, attempt, now, k - 1);
      if Launches(cfg, t, attempt(k - 1)) {
        OneMoreLaunched(s, r, t, u, new_, k - 1, NewOperation(t, attempt(k - 1), now));
      } else {
        MoreGivenBack(s, r, t, u, new_, k - 1, 1);
      }
    }
  }

  lemma StartedIs(cfg: Config, s: Status, t: OperationType, requested: nat, attempt: nat -> Attempt, now: int)
    requires Started(cfg, s, t, requested, attempt, now).Some?
    ensures var k := SuccessesUpTo(cfg, t, requested, attempt);
      Started(cfg, s, t, requested, attempt, now).value ==
      WithMirror(Rollback(StartTo(cfg, s, t, attempt, now, k), t, requested - k))
  {
  }

  /** What a successful start adds and gives back. */
  lemma StartedLedger(cfg: Config, s: Status, t: OperationType, requested: nat, attempt: nat -> Attempt, now: int,
                      u: OperationType)
    requires Known(u) && Balanced(s) && Started(cfg, s, t, requested, attempt, now).Some?
    ensures var r := Started(cfg, s, t, requested, attempt, now).value;
      var new_ := LaunchedOps(cfg, t, attempt, now, SuccessesUpTo(cfg, t, requested, attempt));
      StartedFrom(s, r, t, u, new_, requested) && Mirrored(r)
  {
    var k := SuccessesUpTo(cfg, t, requested, attempt);
    var started, new_ := StartTo(cfg, s, t, attempt, now, k), LaunchedOps(cfg, t, attempt, now, k);
    StartedIs(cfg, s, t, requested, attempt, now);
    StartLedger(cfg, s, t, attempt, now, k, u);
    MoreGivenBack(s, started, t, u, new_, k, requested - k);
    MirrorStarted(s, Rollback(started, t, requested - k), t, u, new_, requested);
  }

  // ---------------------------------------------------------------------
  // The ledger of one persisted reconcile
  // ---------------------------------------------------------------------

  /** The status after the pass, before anything is started. */
  function Passed(cfg: Config, stored: Option<Status>, env: Env): Status {
    Reconciled(cfg.observationTimeout, env.now, Plan(stored, DemandOf(cfg, env)).status, ReadyOf(stored), env.lookup)
  }

  /** The pass of a reconcile runs over the stored operations, with the move of the ready count as its budget. */
  lemma PassIs(cfg: Config, stored: Option<Status>, env: Env) returns (start: Sweep)
    ensures start.status == Plan(stored, DemandOf(cfg, env)).status
    ensures start.kept == [] && start.observed == [] && start.rolledBack == []
    ensures start.createBudget == Moved(Create, ReadyOf(stored), env.ready)
    ensures start.deleteBudget == Moved(Delete, ReadyOf(stored), env.ready)
    ensures var ops := ActiveOperations(stored);
      SweepOf(cfg, stored, env) == SweepTo(cfg.observationTimeout, env.now, start, ops, env.lookup, |ops|)
  {
    var p := Plan(stored, DemandOf(cfg, env)).status;
    assert ActiveOperations(Some(p)) == ActiveOperations(stored);
    start := SweepStart(p, ReadyOf(stored));
  }

  /** The planned status counts what is in flight, less the credit, plus what is wanted. */
  lemma PlannedPending(cfg: Config, stored: Option<Status>, env: Env, t: OperationType)
    requires Known(t)
    ensures var s := Plan(stored, DemandOf(cfg, env)).status;
      && Pending(s, t) == InFlight(stored, t) - CreditedBy(stored, env, t) + Wanted(cfg, stored, env, t)
      && s.ready == env.ready && s.target == env.target && Balanced(s)
  {
    PlanIsSafe(stored, DemandOf(cfg, env));
  }

  lemma PassedIs(cfg: Config, stored: Option<Status>, env: Env)
    ensures var w := SweepOf(cfg, stored, env);
      Passed(cfg, stored, env) == WithMirror(w.status.(operations := w.kept))
  {
  }

  /** A mirrored copy of a status with other operations keeps its counts. */
  lemma MirroredCopy(s: Status, ops: seq<Operation>, t: OperationType)
    requires Balanced(s)
    ensures var r := WithMirror(s.(operations := ops));
      && r.operations == ops && Pending(r, t) == Pending(s, t)
      && r.ready == s.ready && r.target == s.target && Balanced(r) && Mirrored(r)
  {
  }

  lemma PassLedger(cfg: Config, stored: Option<Status>, env: Env, t: OperationType)
    requires Known(t)
    ensures var s := Passed(cfg, stored, env);
      && s.operations == SweepOf(cfg, stored, env).kept
      && Tracked(s.operations, t) == InFlight(stored, t) - Removed(cfg, stored, env, t)
      && Pending(s, t) == Positive(InFlight(stored, t) - CreditedBy(stored, env, t) + Wanted(cfg, stored, env, t)
                                 - RolledBack(cfg, stored, env, t))
      && s.ready == env.ready && s.target == env.target && Balanced(s) && Mirrored(s)
  {
    var start := PassIs(cfg, stored, env);
    var ops, w := ActiveOperations(stored), SweepOf(cfg, stored, env);
    PlannedPending(cfg, stored, env, t);
    SweepPartitions(cfg.observationTimeout, env.now, start, ops, env.lookup, |ops|, t);
    SweepDiscounts(cfg.observationTimeout, env.now, start, ops, env.lookup, |ops|, t);
    PassedIs(cfg, stored, env);
    MirroredCopy(w.status, w.kept, t);
  }

  function Requested(cfg: Config, stored: Option<Status>, env: Env): nat {
    Positive(Wanted(cfg, stored, env, LaunchType(cfg, stored, env)))
  }

  /** A reconcile plans in at most one direction. */
  lemma WantedOneWay(cfg: Config, stored: Option<Status>, env: Env, t: OperationType)
    requires Known(t)
    ensures Wanted(cfg, stored, env, t) ==
            if t == LaunchType(cfg, stored, env) then Requested(cfg, stored, env) else 0
  {
    PlanIsSafe(stored, DemandOf(cfg, env));
  }

  lemma OutcomeIsStart(cfg: Config, stored: Option<Status>, env: Env)
    requires Outcome(cfg, stored, env).Some?
    ensures Outcome(cfg, stored, env) ==
            if Requested(cfg, stored, env) == 0 then Some(Passed(cfg, stored, env))
            else Started(cfg, Passed(cfg, stored, env), LaunchType(cfg, stored, env), Requested(cfg, stored, env),
                         env.attempt, env.now)
  {
    WantedOneWay(cfg, stored, env, Create);
    WantedOneWay(cfg, stored, env, Delete);
  }

  lemma StartOrNothing(cfg: Config, s: Status, u: OperationType, requested: nat, attempt: nat -> Attempt, now: int,
                       r: Status, t: OperationType)
    requires Known(t) && Known(u) && Balanced(s) && Mirrored(s)
    requires Some(r) == if requested == 0 then Some(s) else Started(cfg, s, u, requested, attempt, now)
    ensures var new_ := LaunchedOps(cfg, u, attempt, now, SuccessesUpTo(cfg, u, requested, attempt));
      var wanted := if t == u then requested else 0;
      && r.operations == s.operations + new_
      && 0 <= Tracked(new_, t) <= wanted
      && Pending(r, t) == Positive(Pending(s, t) - (wanted - Tracked(new_, t)))
      && SameObservation(r, s) && Balanced(r) && Mirrored(r)
  {
    LaunchedAreNew(cfg, u, attempt, now, SuccessesUpTo(cfg, u, requested, attempt), t);
    if requested > 0 {
      StartedLedger(cfg, s, u, requested, attempt, now, t);
    } else {
      StartLedger(cfg, s, u, attempt, now, 0, t);
    }
  }

  /** The stored status: kept operations followed by the new ones, the planned work not launched given back. */
  lemma OutcomeLedger(cfg: Config, stored: Option<Status>, env: Env, t: OperationType)
    requires Known(t) && Outcome(cfg, stored, env).Some?
    ensures var s, r := Passed(cfg, stored, env), Outcome(cfg, stored, env).value;
      var new_ := NewOps(cfg, stored, env);
      && r.operations == s.operations + new_
      && 0 <= Tracked(new_, t) <= Wanted(cfg, stored, env, t)
      && Pending(r, t) == Positive(Pending(s, t) - (Wanted(cfg, stored, env, t) - Tracked(new_, t)))
      && SameObservation(r, s) && Balanced(r) && Mirrored(r)
  {
    var u, requested := OutcomeStarts(cfg, stored, env, t);
    StartOrNothing(cfg, Passed(cfg, stored, env), u, requested, env.attempt, env.now,
                   Outcome(cfg, stored, env).value, t);
  }

  lemma OutcomeStarts(cfg: Config, stored: Option<Status>, env: Env, t: OperationType)
    returns (u: OperationType, requested: nat)
    requires Known(t) && Outcome(cfg, stored, env).Some?
    ensures Known(u) && Wanted(cfg, stored, env, t) == if t == u then requested else 0
    ensures var s := Passed(cfg, stored, env);
      && Balanced(s) && Mirrored(s)
      && Outcome(cfg, stored, env) ==
         if requested == 0 then Some(s) else Started(cfg, s, u, requested, env.attempt, env.now)
    ensures NewOps(cfg, stored, env) ==
            LaunchedOps(cfg, u, env.attempt, env.now, SuccessesUpTo(cfg, u, requested, env.attempt))
  {
    u, requested := LaunchType(cfg, stored, env), Requested(cfg, stored, env);
    PassLedger(cfg, stored, env, t);
    WantedOneWay(cfg, stored, env, t);
    OutcomeIsStart(cfg, stored, env);
  }

  lemma PendingArithmetic(inFlight: int, credited: int, wanted: int, rolledBack: int, launched: int, acknowledged: int)
    requires 0 <= launched <= wanted
    ensures Positive(Positive(inFlight - credited + wanted - rolledBack) - (wanted - launched)) ==
            Positive((inFlight - (acknowledged + rolledBack) + launched) - (credited - acknowledged))
  {
  }

  /** The ledger of a step from the ledger of the pass and that of the outcome. */
  lemma Combined(s: Status, next: Status, new_: seq<Operation>, t: OperationType,
                 inFlight: int, credited: int, wanted: int, rolledBack: int, acknowledged: int)
    requires next.operations == s.operations + new_ && 0 <= Tracked(new_, t) <= wanted
    requires Tracked(s.operations, t) == inFlight - (acknowledged + rolledBack)
    requires Pending(s, t) == Positive(inFlight - credited + wanted - rolledBack)
    requires Pending(next, t) == Positive(Pending(s, t) - (wanted - Tracked(new_, t)))
    ensures Tracked(next.operations, t) == inFlight - (acknowledged + rolledBack) + Tracked(new_, t)
    ensures Pending(next, t) == Positive(Tracked(next.operations, t) - (credited - acknowledged))
  {
    TrackedConcat(s.operations, new_, t);
    PendingArithmetic(inFlight, credited, wanted, rolledBack, Tracked(new_, t), acknowledged);
  }

  /**
    For every stored status, every environment and both operation types: tracked workers change
    by what was removed and launched, and pending is tracked minus the credit that is not
    acknowledged yet.
  */
  lemma StepLedger(cfg: Config, stored: Option<Status>, env: Env, t: OperationType)
    requires Known(t) && Persists(cfg, stored, env)
    ensures var next := Step(cfg, stored, env).value;
      && Tracked(next.operations, t) ==
         InFlight(stored, t) - Removed(cfg, stored, env, t) + Launched(cfg, stored, env, t)
      && Pending(next, t) == Positive(Tracked(next.operations, t) -
                                    (CreditedBy(stored, env, t) - Acknowledged(cfg, stored, env, t)))
      && 0 <= Launched(cfg, stored, env, t) <= Wanted(cfg, stored, env, t)
  {
    PassLedger(cfg, stored, env, t);
    OutcomeLedger(cfg, stored, env, t);
    var s, next := Passed(cfg, stored, env), Step(cfg, stored, env).value;
    assert next == Outcome(cfg, stored, env).value;
    Combined(s, next, NewOps(cfg, stored, env), t, InFlight(stored, t), CreditedBy(stored, env, t),
             Wanted(cfg, stored, env, t), RolledBack(cfg, stored, env, t), Acknowledged(cfg, stored, env, t));
  }

  /** A stored status is the kept operations followed by the new ones, mirrored and balanced. */
  lemma StepShape(cfg: Config, stored: Option<Status>, env: Env)
    requires Persists(cfg, stored, env)
    ensures var next := Step(cfg, stored, env).value;
      && next.operations == SweepOf(cfg, stored, env).kept + NewOps(cfg, stored, env)
      && next.ready == env.ready && next.target == env.target && Balanced(next) && Mirrored(next)
  {
    PassLedger(cfg, stored, env, Create);
    OutcomeLedger(cfg, stored, env, Create);
  }
}
