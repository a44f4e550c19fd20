/** What every reconcile and every run of reconciles keeps. */
module NodeScalingSafety {
  import opened Common
  import opened WorkerOperations
  import opened WorkerPlanner
  import opened WorkerExecutor
  import opened NodeScaling

  /** The configured number of concurrent operations of a type, at least one. */
  function LimitOf(cfg: Config, t: OperationType): int {
    match t
    case Create => if cfg.maxCreate > 0 then cfg.maxCreate else 1
    case Delete => if cfg.maxDelete > 0 then cfg.maxDelete else 1
    case Unknown(_) => 0
  }

  predicate OneWay(stored: Option<Status>) {
    InFlight(stored, Create) == 0 || InFlight(stored, Delete) == 0
  }

  predicate WithinLimits(cfg: Config, stored: Option<Status>) {
    && InFlight(stored, Create) <= (if cfg.maxCreate > 0 then cfg.maxCreate else 1)
    && InFlight(stored, Delete) <= (if cfg.maxDelete > 0 then cfg.maxDelete else 1)
    && OneWay(stored)
  }

  lemma PersistedInFlight(cfg: Config, stored: Option<Status>, env: Env, t: OperationType)
    requires Persists(cfg, stored, env)
    ensures var next := Step(cfg, stored, env);
      && next.Some? && ActiveOperations(next) == next.value.operations
      && InFlight(next, t) == Tracked(next.value.operations, t)
  {
    StepShape(cfg, stored, env);
  }

  lemma WantedFitsSlots(cfg: Config, stored: Option<Status>, env: Env, t: OperationType)
    requires Known(t)
    ensures 0 <= Wanted(cfg, stored, env, t) <=
            Positive(LimitOf(cfg, t) - (InFlight(stored, t) - CreditedBy(stored, env, t)))
    ensures Wanted(cfg, stored, env, Create) > 0 ==> CreditedBy(stored, env, Delete) == InFlight(stored, Delete)
    ensures Wanted(cfg, stored, env, Delete) > 0 ==> CreditedBy(stored, env, Create) == InFlight(stored, Create)
    ensures Wanted(cfg, stored, env, Create) == 0 || Wanted(cfg, stored, env, Delete) == 0
    ensures 0 <= CreditedBy(stored, env, t) <= InFlight(stored, t)
  {
    PlanIsSafe(stored, DemandOf(cfg, env));
  }

  /** What the pass removes is part of what was tracked. */
  lemma RemovedBounds(cfg: Config, stored: Option<Status>, env: Env, t: OperationType)
    requires Known(t)
    ensures 0 <= Removed(cfg, stored, env, t) <= InFlight(stored, t)
  {
    PassLedger(cfg, stored, env, t);
  }

  /**
    The bound of one reconcile, with no assumption at all: the workers in flight afterwards are at
    most the larger of what was in flight and limit + credited, less what was removed.
  */
  lemma StepBound(cfg: Config, stored: Option<Status>, env: Env, t: OperationType)
    requires Known(t) && Persists(cfg, stored, env)
    ensures var configured := if t.Create? then cfg.maxCreate else cfg.maxDelete;
      var limit := if configured > 0 then configured else 1;
      InFlight(Step(cfg, stored, env), t) <=
      Max(InFlight(stored, t), limit + CreditedBy(stored, env, t)) - Removed(cfg, stored, env, t)
  {
    StepLedger(cfg, stored, env, t);
    PersistedInFlight(cfg, stored, env, t);
    WantedFitsSlots(cfg, stored, env, t);
  }

  // ---------------------------------------------------------------------
  // Credits and ended jobs
  // ---------------------------------------------------------------------

  /** The job of a tracked operation is over: gone, succeeded, or already waiting to be observed. */
  predicate JobEnded(op: Operation, found: Lookup) {
    || found.NotFound? || (found.Found? && found.failed)
    || op.phase.WaitingForObservation? || (op.phase.Running? && found.Found? && found.succeeded)
  }

  /** Workers of type t covered by those of the first n operations whose job is over. */
  function EndedTo(ops: seq<Operation>, lookup: nat -> Lookup, t: OperationType, n: nat): (sum: int)
    requires n <= |ops|
    ensures 0 <= sum <= TrackedTo(ops, t, n)
  {
    if n == 0 then 0
    else EndedTo(ops, lookup, t, n - 1) +
         if ops[n - 1].opType == t && JobEnded(ops[n - 1], lookup(n - 1)) then Weight(ops[n - 1]) else 0
  }

  function Ended(stored: Option<Status>, env: Env, t: OperationType): int {
    EndedTo(ActiveOperations(stored), env.lookup, t, |ActiveOperations(stored)|)
  }

  /** No job of type t still runs, or the ready count moved by no more than the jobs that ended. */
  predicate Matched(stored: Option<Status>, env: Env, t: OperationType) {
    Ended(stored, env, t) == InFlight(stored, t) || Moved(t, ReadyOf(stored), env.ready) <= Ended(stored, env, t)
  }

  /** Jobs of type t still run although the ready count moved for every worker in flight. */
  predicate Stranded(stored: Option<Status>, env: Env, t: OperationType) {
    Ended(stored, env, t) < InFlight(stored, t) <= Moved(t, ReadyOf(stored), env.ready)
  }

  /** Only ended jobs are removed, and all of them are as long as the budget lasts. */
  predicate Collects(w: Sweep, ended: int, t: OperationType) {
    var removed := Tracked(w.observed, t) + Tracked(w.rolledBack, t);
    removed <= ended && (Budget(w, t) > 0 ==> removed == ended)
  }

  lemma AdvanceCollects(timeout: int, now: int, w: Sweep, ended: int, op: Operation, found: Lookup, t: OperationType)
    requires Known(t) && Collects(w, ended, t)
    ensures Collects(Advance(timeout, now, w, op, found),
                     ended + if op.opType == t && JobEnded(op, found) then Weight(op) else 0, t)
  {
    TrackedAppend(w.observed, op, t);
    TrackedAppend(w.rolledBack, op, t);
  }

  lemma {:induction false} SweepCollects(timeout: int, now: int, start: Sweep, ops: seq<Operation>,
                                         lookup: nat -> Lookup, i: nat, t: OperationType)
    requires Known(t) && i <= |ops| && start.observed == [] && start.rolledBack == []
    ensures Collects(SweepTo(timeout, now, start, ops, lookup, i), EndedTo(ops, lookup, t, i), t)
  {
    if i > 0 {
      SweepCollects(timeout, now, start, ops, lookup, i - 1, t);
      AdvanceCollects(timeout, now, SweepTo(timeout, now, start, ops, lookup, i - 1),
                      EndedTo(ops, lookup, t, i - 1), ops[i - 1], lookup(i - 1), t);
    }
  }

  /** What a reconcile removes lies between min(ended, moved) and ended, and is all that ended
      unless the ready count moved by no more than that. */
  lemma RemovedIsEnded(cfg: Config, stored: Option<Status>, env: Env, t: OperationType)
    requires Known(t)
    ensures Removed(cfg, stored, env, t) <= Ended(stored, env, t)
    ensures Removed(cfg, stored, env, t) == Ended(stored, env, t) ||
            Moved(t, ReadyOf(stored), env.ready) <= Removed(cfg, stored, env, t)
  {
    var start := PassIs(cfg, stored, env);
    var ops := ActiveOperations(stored);
    SweepCollects(cfg.observationTimeout, env.now, start, ops, env.lookup, |ops|, t);
    SweepSpends(cfg.observationTimeout, env.now, start, ops, env.lookup, |ops|, t);
    PassLedger(cfg, stored, env, t);
    var w := SweepOf(cfg, stored, env);
    assert Tracked(w.rolledBack, t) >= 0;
  }

  /** A credit exceeds the removals exactly when jobs still run and the ready count moved past the ended ones. */
  lemma MatchedExactly(cfg: Config, stored: Option<Status>, env: Env, t: OperationType)
    requires Known(t)
    ensures Matched(stored, env, t) <==> CreditedBy(stored, env, t) <= Removed(cfg, stored, env, t)
    ensures !Matched(stored, env, t) ==> Removed(cfg, stored, env, t) == Ended(stored, env, t)
  {
    RemovedIsEnded(cfg, stored, env, t);
  }

  /** Stranded operations are those all of which are credited and not all of which are removed. */
  lemma StrandedExactly(cfg: Config, stored: Option<Status>, env: Env, t: OperationType)
    requires Known(t)
    ensures Stranded(stored, env, t) <==>
            InFlight(stored, t) > 0 && CreditedBy(stored, env, t) == InFlight(stored, t) &&
            Removed(cfg, stored, env, t) < InFlight(stored, t)
  {
    RemovedIsEnded(cfg, stored, env, t);
  }

  // ---------------------------------------------------------------------
  // Runs
  // ---------------------------------------------------------------------

  /** In every persisted reconcile of the run, in both directions, no job still runs or the ready
      count moved by no more than the jobs that ended. */
  predicate MatchedRun(cfg: Config, envs: seq<Env>) {
    forall i :: 0 <= i < |envs| && Persists(cfg, After(cfg, envs[..i]), envs[i]) ==>
      BothMatched(After(cfg, envs[..i]), envs[i])
  }

  predicate BothMatched(stored: Option<Status>, env: Env) {
    Matched(stored, env, Create) && Matched(stored, env, Delete)
  }

  lemma MatchedStepIsSafe(cfg: Config, stored: Option<Status>, env: Env)
    requires WithinLimits(cfg, stored) && Persists(cfg, stored, env) && BothMatched(stored, env)
    ensures WithinLimits(cfg, Step(cfg, stored, env))
  {
    MatchedExactly(cfg, stored, env, Create);
    MatchedExactly(cfg, stored, env, Delete);
    StepBound(cfg, stored, env, Create);
    StepBound(cfg, stored, env, Delete);
    OneWayStep(cfg, stored, env);
  }

  lemma OneWayStep(cfg: Config, stored: Option<Status>, env: Env)
    requires OneWay(stored) && Persists(cfg, stored, env)
    requires !Stranded(stored, env, Create) && !Stranded(stored, env, Delete)
    ensures OneWay(Step(cfg, stored, env))
  {
    StrandedExactly(cfg, stored, env, Create);
    StrandedExactly(cfg, stored, env, Delete);
    StepLedger(cfg, stored, env, Create);
    StepLedger(cfg, stored, env, Delete);
    PersistedInFlight(cfg, stored, env, Create);
    PersistedInFlight(cfg, stored, env, Delete);
    WantedFitsSlots(cfg, stored, env, Create);
    RemovedBounds(cfg, stored, env, Create);
    RemovedBounds(cfg, stored, env, Delete);
  }

  /** In every run whose ready counts never move past the jobs that ended while others still run, the
      limits hold and creates and deletes are never tracked together. */
  lemma {:induction false} RunIsSafe(cfg: Config, envs: seq<Env>)
    requires MatchedRun(cfg, envs)
    ensures InFlight(After(cfg, envs), Create) <= (if cfg.maxCreate > 0 then cfg.maxCreate else 1)
    ensures InFlight(After(cfg, envs), Delete) <= (if cfg.maxDelete > 0 then cfg.maxDelete else 1)
    ensures OneWay(After(cfg, envs))
  {
    if |envs| > 0 {
      var init, env := envs[..|envs| - 1], envs[|envs| - 1];
      forall i | 0 <= i < |init| && Persists(cfg, After(cfg, init[..i]), init[i])
        ensures BothMatched(After(cfg, init[..i]), init[i])
      {
        assert init[..i] == envs[..i];
      }
      RunIsSafe(cfg, init);
      if Persists(cfg, After(cfg, init), env) {
        assert BothMatched(After(cfg, envs[..|envs| - 1]), envs[|envs| - 1]);
        MatchedStepIsSafe(cfg, After(cfg, init), env);
      }
    }
  }

  // ---------------------------------------------------------------------
  // Exactly when the limits can be broken
  // ---------------------------------------------------------------------

  /** Two environments that show the same cluster; target, batch, pods and job creation may differ. */
  ghost predicate SameCluster(a: Env, b: Env) {
    a.ready == b.ready && a.now == b.now && a.lookup == b.lookup
  }

  predicate SameFates(a: Sweep, b: Sweep) {
    a.createBudget == b.createBudget && a.deleteBudget == b.deleteBudget &&
    a.kept == b.kept && a.observed == b.observed && a.rolledBack == b.rolledBack
  }

  lemma AdvanceIgnoresPlan(timeout: int, now: int, a: Sweep, b: Sweep, op: Operation, found: Lookup)
    requires SameFates(a, b)
    ensures SameFates(Advance(timeout, now, a, op, found), Advance(timeout, now, b, op, found))
  {
    assert FateOf(timeout, now, a, op, found) == FateOf(timeout, now, b, op, found);
  }

  lemma {:induction false} SweepIgnoresPlan(timeout: int, now: int, a: Sweep, b: Sweep, ops: seq<Operation>,
                                            lookup: nat -> Lookup, i: nat)
    requires i <= |ops| && SameFates(a, b)
    ensures SameFates(SweepTo(timeout, now, a, ops, lookup, i), SweepTo(timeout, now, b, ops, lookup, i))
  {
    if i > 0 {
      SweepIgnoresPlan(timeout, now, a, b, ops, lookup, i - 1);
      AdvanceIgnoresPlan(timeout, now, SweepTo(timeout, now, a, ops, lookup, i - 1),
                         SweepTo(timeout, now, b, ops, lookup, i - 1), ops[i - 1], lookup(i - 1));
    }
  }

  lemma SameClusterSameFates(cfg: Config, stored: Option<Status>, a: Env, b: Env)
    requires SameCluster(a, b)
    ensures SameFates(SweepOf(cfg, stored, a), SweepOf(cfg, stored, b))
  {
    var ops := ActiveOperations(stored);
    var p := PassIs(cfg, stored, a);
    var q := PassIs(cfg, stored, b);
    SweepIgnoresPlan(cfg.observationTimeout, a.now, p, q, ops, a.lookup, |ops|);
  }

  /** What a reconcile credits and removes does not depend on what it plans. */
  lemma SameClusterSameRemovals(cfg: Config, stored: Option<Status>, a: Env, b: Env, t: OperationType)
    requires SameCluster(a, b)
    ensures CreditedBy(stored, a, t) == CreditedBy(stored, b, t)
    ensures Removed(cfg, stored, a, t) == Removed(cfg, stored, b, t)
  {
    SameClusterSameFates(cfg, stored, a, b);
    assert SweepOf(cfg, stored, a).observed == SweepOf(cfg, stored, b).observed;
    assert SweepOf(cfg, stored, a).rolledBack == SweepOf(cfg, stored, b).rolledBack;
  }

  predicate JobsReadable(stored: Option<Status>, env: Env) {
    forall i: nat :: i < |ActiveOperations(stored)| ==> !env.lookup(i).LookupError?
  }

  /** Operations of type t can be started: their command is enabled and every job lookup succeeds. */
  predicate CanStart(cfg: Config, stored: Option<Status>, env: Env, t: OperationType) {
    EnabledFor(cfg, t) && JobsReadable(stored, env)
  }

  ghost predicate AllCreated(attempt: nat -> Attempt) {
    forall i: nat :: attempt(i).JobCreated?
  }

  /** The environment that pushes towards a target in a given cluster, whatever its jobs are called. */
  function Push(env: Env, target: nat, batch: int, attempt: nat -> Attempt): Env {
    Env(target, Some(batch), env.ready, 0, env.now, env.lookup, attempt, true)
  }

  lemma {:induction false} AllLaunch(cfg: Config, t: OperationType, attempt: nat -> Attempt, now: int, k: nat)
    requires EnabledFor(cfg, t) && AllCreated(attempt)
    ensures |LaunchedOps(cfg, t, attempt, now, k)| == k && SuccessesUpTo(cfg, t, k, attempt) == k
  {
    if k > 0 {
      AllLaunch(cfg, t, attempt, now, k - 1);
    }
  }

  lemma ReadableIsReadable(cfg: Config, stored: Option<Status>, env: Env)
    ensures Readable(Plan(stored, DemandOf(cfg, env)).status, env.lookup) <==> JobsReadable(stored, env)
  {
    assert ActiveOperations(Some(Plan(stored, DemandOf(cfg, env)).status)) == ActiveOperations(stored);
  }

  lemma RequestedLaunches(cfg: Config, stored: Option<Status>, env: Env, t: OperationType)
    requires Known(t) && AllCreated(env.attempt)
    requires Requested(cfg, stored, env) > 0 ==> EnabledFor(cfg, LaunchType(cfg, stored, env))
    ensures var u, requested := LaunchType(cfg, stored, env), Requested(cfg, stored, env);
      SuccessesUpTo(cfg, u, requested, env.attempt) == requested
    ensures Launched(cfg, stored, env, t) == Wanted(cfg, stored, env, t)
  {
    var u, requested := LaunchType(cfg, stored, env), Requested(cfg, stored, env);
    if requested > 0 {
      AllLaunch(cfg, u, env.attempt, env.now, requested);
    }
    WantedOneWay(cfg, stored, env, t);
    LaunchedAreNew(cfg, u, env.attempt, env.now, requested, t);
  }

  lemma PersistsWhenLaunched(cfg: Config, stored: Option<Status>, env: Env)
    requires env.patched && JobsReadable(stored, env)
    requires var u, requested := LaunchType(cfg, stored, env), Requested(cfg, stored, env);
      SuccessesUpTo(cfg, u, requested, env.attempt) == requested
    ensures Persists(cfg, stored, env)
  {
    ReadableIsReadable(cfg, stored, env);
    WantedOneWay(cfg, stored, env, Create);
    WantedOneWay(cfg, stored, env, Delete);
  }

  /** When every job can be created and the planned command is enabled, everything wanted is launched and stored. */
  lemma EverythingLaunches(cfg: Config, stored: Option<Status>, env: Env, t: OperationType)
    requires Known(t) && env.patched && AllCreated(env.attempt) && JobsReadable(stored, env)
    requires Requested(cfg, stored, env) > 0 ==> EnabledFor(cfg, LaunchType(cfg, stored, env))
    ensures Persists(cfg, stored, env)
    ensures Launched(cfg, stored, env, t) == Wanted(cfg, stored, env, t)
    ensures InFlight(Step(cfg, stored, env), t) ==
            InFlight(stored, t) - Removed(cfg, stored, env, t) + Wanted(cfg, stored, env, t)
  {
    RequestedLaunches(cfg, stored, env, t);
    PersistsWhenLaunched(cfg, stored, env);
    StepLedger(cfg, stored, env, t);
    PersistedInFlight(cfg, stored, env, t);
  }

  lemma {:induction false} DisabledLaunchesNothing(cfg: Config, t: OperationType, attempt: nat -> Attempt, now: int,
                                                   k: nat)
    requires !EnabledFor(cfg, t)
    ensures LaunchedOps(cfg, t, attempt, now, k) == []
  {
    if k > 0 {
      DisabledLaunchesNothing(cfg, t, attempt, now, k - 1);
    }
  }

  lemma UnstartableAdds(cfg: Config, stored: Option<Status>, env: Env, t: OperationType)
    requires Known(t) && !EnabledFor(cfg, t)
    ensures Launched(cfg, stored, env, t) == 0
  {
    var u, requested := LaunchType(cfg, stored, env), Requested(cfg, stored, env);
    var k := SuccessesUpTo(cfg, u, requested, env.attempt);
    if u == t {
      DisabledLaunchesNothing(cfg, t, env.attempt, env.now, k);
    } else {
      LaunchedAreNew(cfg, u, env.attempt, env.now, k, t);
    }
  }

  /** What cannot be started does not grow. */
  lemma UnstartableStays(cfg: Config, stored: Option<Status>, env: Env, t: OperationType)
    requires Known(t) && !CanStart(cfg, stored, env, t)
    ensures InFlight(Step(cfg, stored, env), t) <= InFlight(stored, t)
  {
    ReadableIsReadable(cfg, stored, env);
    if Persists(cfg, stored, env) {
      UnstartableAdds(cfg, stored, env, t);
      StepLedger(cfg, stored, env, t);
      PersistedInFlight(cfg, stored, env, t);
      RemovedBounds(cfg, stored, env, t);
    }
  }

  /** Whatever else happens in this cluster, the limit for type t holds afterwards. */
  ghost predicate AlwaysWithin(cfg: Config, stored: Option<Status>, env: Env, t: OperationType) {
    forall e: Env :: SameCluster(e, env) ==> InFlight(Step(cfg, stored, e), t) <= LimitOf(cfg, t)
  }

  lemma UnstartableStaysWithin(cfg: Config, stored: Option<Status>, env: Env, t: OperationType)
    requires Known(t) && WithinLimits(cfg, stored) && !CanStart(cfg, stored, env, t)
    ensures AlwaysWithin(cfg, stored, env, t)
  {
    forall e: Env | SameCluster(e, env) ensures InFlight(Step(cfg, stored, e), t) <= LimitOf(cfg, t) {
      UnstartableStays(cfg, stored, e, t);
    }
  }

  lemma MatchedStaysWithin(cfg: Config, stored: Option<Status>, env: Env, t: OperationType)
    requires Known(t) && WithinLimits(cfg, stored) && Matched(stored, env, t)
    ensures AlwaysWithin(cfg, stored, env, t)
  {
    MatchedExactly(cfg, stored, env, t);
    forall e: Env | SameCluster(e, env) ensures InFlight(Step(cfg, stored, e), t) <= LimitOf(cfg, t) {
      SameClusterSameRemovals(cfg, stored, e, env, t);
      if Persists(cfg, stored, e) {
        StepBound(cfg, stored, e, t);
        RemovedBounds(cfg, stored, e, t);
      }
    }
  }

  /** An unmatched credit is a slot planned twice: with a far target the limit is passed, whatever the new jobs are. */
  lemma UnmatchedCreatesBreak(cfg: Config, stored: Option<Status>, env: Env, attempt: nat -> Attempt) returns (e: Env)
    requires WithinLimits(cfg, stored) && CanStart(cfg, stored, env, Create) && AllCreated(attempt)
    requires !Matched(stored, env, Create)
    ensures SameCluster(e, env) && e.attempt == attempt
    ensures InFlight(Step(cfg, stored, e), Create) > LimitOf(cfg, Create)
  {
    MatchedExactly(cfg, stored, env, Create);
    var limit, credited := LimitOf(cfg, Create), CreditedBy(stored, env, Create);
    e := Push(env, env.ready + InFlight(stored, Create) + limit, InFlight(stored, Create) + limit, attempt);
    SameClusterSameRemovals(cfg, stored, e, env, Create);
    RemovedBounds(cfg, stored, env, Create);
    assert InFlight(stored, Delete) == 0;
    assert Wanted(cfg, stored, e, Create) == limit - InFlight(stored, Create) + credited;
    EverythingLaunches(cfg, stored, e, Create);
  }

  /**
    The create limit is safe in a cluster, whatever the target and the batch are, exactly when creates
    cannot be started, no create job still runs, or the ready count grew by no more than the creates
    whose jobs ended.
  */
  lemma CreateLimitExactly(cfg: Config, stored: Option<Status>, env: Env)
    requires WithinLimits(cfg, stored)
    ensures AlwaysWithin(cfg, stored, env, Create) <==>
            !CanStart(cfg, stored, env, Create) || Matched(stored, env, Create)
  {
    if !CanStart(cfg, stored, env, Create) {
      UnstartableStaysWithin(cfg, stored, env, Create);
    } else if Matched(stored, env, Create) {
      MatchedStaysWithin(cfg, stored, env, Create);
    } else {
      var e := UnmatchedCreatesBreak(cfg, stored, env, (i: nat) => JobCreated("", ""));
    }
  }

  /** The nodes left are too few for more deletes than the limit. */
  predicate FewNodes(cfg: Config, stored: Option<Status>, env: Env) {
    env.ready + CreditedBy(stored, env, Delete) <= LimitOf(cfg, Delete) + Ended(stored, env, Delete)
  }

  lemma FewNodesStayWithin(cfg: Config, stored: Option<Status>, env: Env)
    requires WithinLimits(cfg, stored) && !Matched(stored, env, Delete) && FewNodes(cfg, stored, env)
    ensures AlwaysWithin(cfg, stored, env, Delete)
  {
    MatchedExactly(cfg, stored, env, Delete);
    forall e: Env | SameCluster(e, env) ensures InFlight(Step(cfg, stored, e), Delete) <= LimitOf(cfg, Delete) {
      SameClusterSameRemovals(cfg, stored, e, env, Delete);
      if Persists(cfg, stored, e) {
        DeletesNeedNodes(cfg, stored, e);
        RemovedBounds(cfg, stored, e, Delete);
      }
    }
  }

  lemma DeletesPushed(cfg: Config, stored: Option<Status>, env: Env, attempt: nat -> Attempt)
    requires WithinLimits(cfg, stored) && InFlight(stored, Create) == 0
    ensures var limit, outstanding := LimitOf(cfg, Delete), InFlight(stored, Delete) - CreditedBy(stored, env, Delete);
      Wanted(cfg, stored, Push(env, 0, env.ready + limit, attempt), Delete) ==
      Positive(Min(env.ready - outstanding, limit - outstanding))
  {
  }

  lemma UnmatchedDeletesBreak(cfg: Config, stored: Option<Status>, env: Env, attempt: nat -> Attempt) returns (e: Env)
    requires WithinLimits(cfg, stored) && CanStart(cfg, stored, env, Delete) && AllCreated(attempt)
    requires !Matched(stored, env, Delete) && !FewNodes(cfg, stored, env)
    ensures SameCluster(e, env) && e.attempt == attempt
    ensures InFlight(Step(cfg, stored, e), Delete) > LimitOf(cfg, Delete)
  {
    MatchedExactly(cfg, stored, env, Delete);
    e := Push(env, 0, env.ready + LimitOf(cfg, Delete), attempt);
    SameClusterSameRemovals(cfg, stored, e, env, Delete);
    RemovedBounds(cfg, stored, env, Delete);
    DeletesPushed(cfg, stored, env, attempt);
    WantedOneWay(cfg, stored, e, Delete);
    EverythingLaunches(cfg, stored, e, Delete);
  }

  /**
    Deletes also need nodes to delete, so when delete jobs still run and the ready count fell by more
    than the deletes whose jobs ended, the limit breaks only if enough nodes are left: exactly when
    the ready nodes and the credit exceed the limit and the ended jobs.
  */
  lemma DeleteLimitExactly(cfg: Config, stored: Option<Status>, env: Env)
    requires WithinLimits(cfg, stored)
    ensures AlwaysWithin(cfg, stored, env, Delete) <==>
            !CanStart(cfg, stored, env, Delete) || Matched(stored, env, Delete) || FewNodes(cfg, stored, env)
  {
    if !CanStart(cfg, stored, env, Delete) {
      UnstartableStaysWithin(cfg, stored, env, Delete);
    } else if Matched(stored, env, Delete) {
      MatchedStaysWithin(cfg, stored, env, Delete);
    } else if FewNodes(cfg, stored, env) {
      FewNodesStayWithin(cfg, stored, env);
    } else {
      var e := UnmatchedDeletesBreak(cfg, stored, env, (i: nat) => JobCreated("", ""));
    }
  }

  /** Planned deletes never exceed the ready nodes that are not being deleted already. */
  lemma DeletesNeedNodes(cfg: Config, stored: Option<Status>, env: Env)
    requires OneWay(stored) && Persists(cfg, stored, env)
    ensures InFlight(Step(cfg, stored, env), Delete) <=
            Max(InFlight(stored, Delete), env.ready + CreditedBy(stored, env, Delete))
            - Removed(cfg, stored, env, Delete)
  {
    StepLedger(cfg, stored, env, Delete);
    PersistedInFlight(cfg, stored, env, Delete);
    WantedFitsSlots(cfg, stored, env, Delete);
  }

  ghost predicate AlwaysOneWay(cfg: Config, stored: Option<Status>, env: Env) {
    forall e: Env :: SameCluster(e, env) ==> OneWay(Step(cfg, stored, e))
  }

  function Opposite(t: OperationType): OperationType {
    match t
    case Create => Delete
    case Delete => Create
    case Unknown(_) => t
  }

  /** Operations of type t are stranded and those of the other type can be started. */
  predicate CanMix(cfg: Config, stored: Option<Status>, env: Env, t: OperationType) {
    Stranded(stored, env, t) && CanStart(cfg, stored, env, Opposite(t))
  }

  /** A stranded direction stays alone while the other one cannot be started. */
  lemma StrandedAlone(cfg: Config, stored: Option<Status>, env: Env, t: OperationType)
    requires Known(t) && OneWay(stored) && Stranded(stored, env, t) && !CanStart(cfg, stored, env, Opposite(t))
    ensures OneWay(Step(cfg, stored, env))
  {
    UnstartableStays(cfg, stored, env, Opposite(t));
    InFlightIsCount(Step(cfg, stored, env), Opposite(t));
  }

  lemma InFlightIsCount(stored: Option<Status>, t: OperationType)
    ensures InFlight(stored, t) >= 0
  {
  }

  lemma UnmixedStep(cfg: Config, stored: Option<Status>, env: Env)
    requires OneWay(stored) && !CanMix(cfg, stored, env, Create) && !CanMix(cfg, stored, env, Delete)
    ensures OneWay(Step(cfg, stored, env))
  {
    if Stranded(stored, env, Create) {
      StrandedAlone(cfg, stored, env, Create);
    } else if Stranded(stored, env, Delete) {
      StrandedAlone(cfg, stored, env, Delete);
    } else if Persists(cfg, stored, env) {
      OneWayStep(cfg, stored, env);
    }
  }

  /** With everything in flight credited, a target on the other side starts the other type, whatever its jobs are. */
  lemma StrandedMixes(cfg: Config, stored: Option<Status>, env: Env, t: OperationType, attempt: nat -> Attempt)
    returns (e: Env)
    requires Known(t) && OneWay(stored) && ReadyOf(stored) >= 0 && CanMix(cfg, stored, env, t) && AllCreated(attempt)
    ensures SameCluster(e, env) && e.attempt == attempt && !OneWay(Step(cfg, stored, e))
  {
    StrandedExactly(cfg, stored, env, t);
    e := Push(env, if t.Create? then 0 else env.ready + 1, 1, attempt);
    SameClusterSameRemovals(cfg, stored, e, env, t);
    StrandedPlan(cfg, stored, e, t);
    EverythingLaunches(cfg, stored, e, t);
    EverythingLaunches(cfg, stored, e, Opposite(t));
    RemovedBounds(cfg, stored, e, Opposite(t));
  }

  lemma StrandedPlan(cfg: Config, stored: Option<Status>, env: Env, t: OperationType)
    requires Known(t) && OneWay(stored) && ReadyOf(stored) >= 0 && Stranded(stored, env, t)
    requires env.unschedulablePods == 0 && env.maxBatchSize == Some(1)
    requires env.target == if t.Create? then 0 else env.ready + 1
    ensures Wanted(cfg, stored, env, Opposite(t)) == 1 && Wanted(cfg, stored, env, t) == 0
    ensures LaunchType(cfg, stored, env) == Opposite(t)
  {
    if t.Create? {
      assert env.ready > 0 && InFlight(stored, Delete) == 0;
    } else {
      assert InFlight(stored, Create) == 0;
    }
  }

  /**
    Creates and deletes can come to be tracked together exactly when one direction is stranded, some of
    its jobs running although the ready count moved for every worker in flight, and the other direction
    can be started.
  */
  lemma OneWayExactly(cfg: Config, stored: Option<Status>, env: Env)
    requires OneWay(stored) && ReadyOf(stored) >= 0
    ensures AlwaysOneWay(cfg, stored, env) <==>
            !CanMix(cfg, stored, env, Create) && !CanMix(cfg, stored, env, Delete)
  {
    var attempt := (i: nat) => JobCreated("", "");
    if CanMix(cfg, stored, env, Create) {
      var e := StrandedMixes(cfg, stored, env, Create, attempt);
    } else if CanMix(cfg, stored, env, Delete) {
      var e := StrandedMixes(cfg, stored, env, Delete, attempt);
    } else {
      forall e: Env | SameCluster(e, env) ensures OneWay(Step(cfg, stored, e)) {
        SameInputs(cfg, stored, e, env, Create);
        SameInputs(cfg, stored, e, env, Delete);
        UnmixedStep(cfg, stored, e);
      }
    }
  }

  lemma SameInputs(cfg: Config, stored: Option<Status>, a: Env, b: Env, t: OperationType)
    requires SameCluster(a, b)
    ensures CanMix(cfg, stored, a, t) == CanMix(cfg, stored, b, t)
  {
  }
}
