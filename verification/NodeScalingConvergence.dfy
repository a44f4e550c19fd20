/**
  Closed loop: the target stands still, every job succeeds, and every started operation
  has changed the ready count by one at the next reconcile.
*/
module NodeScalingConvergence {
  import opened Common
  import opened WorkerOperations
  import opened WorkerPlanner
  import opened WorkerExecutor
  import opened NodeScaling
  import opened NodeScalingSafety
  import opened NodeScalingLedger

  predicate AllOf(ops: seq<Operation>, t: OperationType) {
    forall i :: 0 <= i < |ops| ==>
      ops[i].opType == t && ops[i].requestedCount == 1 &&
      (ops[i].phase == Running || ops[i].phase == WaitingForObservation)
  }

  /** All operations in flight pull the same way. */
  predicate Settling(stored: Option<Status>) {
    AllOf(ActiveOperations(stored), Create) || AllOf(ActiveOperations(stored), Delete)
  }

  /** The ready count once everything in flight has taken effect. */
  function Level(stored: Option<Status>): int {
    ReadyOf(stored) + InFlight(stored, Create) - InFlight(stored, Delete)
  }

  /** Fixed target and batch, nothing unschedulable, every job created and successful. */
  ghost predicate Smooth(target: nat, batch: Option<int>, env: Env) {
    && env.target == target && env.maxBatchSize == batch && env.unschedulablePods == 0 && env.patched
    && (forall i: nat :: env.lookup(i) == Found(false, true))
    && AllCreated(env.attempt)
  }

  ghost predicate ClosedLoop(stored: Option<Status>, target: nat, batch: Option<int>, env: Env) {
    Smooth(target, batch, env) && env.ready == Level(stored)
  }

  /** How many operations of type t one reconcile may start. */
  function Rate(cfg: Config, batch: Option<int>, t: OperationType): (r: int)
    requires Known(t)
    ensures r >= 1
  {
    var all := if batch.Some? && batch.value > 0 then batch.value else Max(LimitOf(cfg, Create), LimitOf(cfg, Delete));
    Min(all, LimitOf(cfg, t))
  }

  lemma {:induction false} CountsAll(ops: seq<Operation>, t: OperationType, u: OperationType, n: nat)
    requires AllOf(ops, t) && n <= |ops|
    ensures TrackedTo(ops, u, n) == if t == u then n else 0
  {
    if n > 0 {
      CountsAll(ops, t, u, n - 1);
    }
  }

  /** With a budget for each of them, every operation is observed. */
  lemma {:induction false} AllObserved(timeout: int, now: int, start: Sweep, ops: seq<Operation>,
                                       lookup: nat -> Lookup, i: nat, t: OperationType)
    requires Known(t) && i <= |ops| && AllOf(ops, t) && Budget(start, t) == |ops|
    requires forall j: nat :: lookup(j) == Found(false, true)
    ensures var w := SweepTo(timeout, now, start, ops, lookup, i);
      w.kept == start.kept && w.rolledBack == start.rolledBack && Budget(w, t) == |ops| - i
  {
    if i > 0 {
      AllObserved(timeout, now, start, ops, lookup, i - 1, t);
      var op := ops[i - 1];
      var active := Refreshed(op, lookup(i - 1), now);
      assert active.phase == WaitingForObservation && Weight(op) == 1;
    }
  }

  /** The ready count moved by exactly what was in flight. */
  lemma LevelCreditsAll(stored: Option<Status>, ready: int, t: OperationType)
    requires Known(t) && AllOf(ActiveOperations(stored), t) && ready == Level(stored)
    ensures Moved(t, ReadyOf(stored), ready) == |ActiveOperations(stored)|
    ensures Credited(stored, ready, Create) == InFlight(stored, Create)
    ensures Credited(stored, ready, Delete) == InFlight(stored, Delete)
  {
    var ops := ActiveOperations(stored);
    CountsAll(ops, t, Create, |ops|);
    CountsAll(ops, t, Delete, |ops|);
  }

  lemma ClosedLoopObserves(cfg: Config, stored: Option<Status>, target: nat, batch: Option<int>, env: Env,
                           t: OperationType)
    requires Known(t) && AllOf(ActiveOperations(stored), t) && Smooth(target, batch, env)
    requires env.ready == Level(stored)
    ensures SweepOf(cfg, stored, env).kept == []
  {
    var start := PassIs(cfg, stored, env);
    var ops := ActiveOperations(stored);
    LevelCreditsAll(stored, env.ready, t);
    AllObserved(cfg.observationTimeout, env.now, start, ops, env.lookup, |ops|, t);
  }

  /** What is in flight after one closed-loop reconcile, given the gap it saw. */
  predicate Fills(cfg: Config, batch: Option<int>, next: Option<Status>, gap: int) {
    && InFlight(next, Create) == Positive(Min(gap, Rate(cfg, batch, Create)))
    && InFlight(next, Delete) == Positive(Min(-gap, Rate(cfg, batch, Delete)))
  }

  /** The reconcile saw `ready` nodes, and what it left in flight is its share of the gap. */
  predicate Arrived(cfg: Config, batch: Option<int>, next: Option<Status>, target: nat, ready: int) {
    next.Some? && next.value.ready == ready && Settling(next) && Fills(cfg, batch, next, target - ready)
  }

  lemma FreeSlotsWanted(stored: Option<Status>, d: Demand)
    requires Outstanding(stored, d.ready, Create) == 0 && Outstanding(stored, d.ready, Delete) == 0
    requires d.unschedulablePods == 0
    ensures CreatesWanted(stored, d) == Positive(Min(d.target - d.ready, Min(Batch(d), Limit(d.maxCreate))))
    ensures DeletesWanted(stored, d) == Positive(Min(d.ready - d.target, Min(Batch(d), Limit(d.maxDelete))))
  {
    assert Forecast(stored, d.ready) == d.ready;
  }

  lemma ClosedLoopWants(cfg: Config, stored: Option<Status>, target: nat, batch: Option<int>, env: Env)
    requires Smooth(target, batch, env)
    requires Outstanding(stored, env.ready, Create) == 0 && Outstanding(stored, env.ready, Delete) == 0
    ensures Wanted(cfg, stored, env, Create) == Positive(Min(target - env.ready, Rate(cfg, batch, Create)))
    ensures Wanted(cfg, stored, env, Delete) == Positive(Min(env.ready - target, Rate(cfg, batch, Delete)))
  {
    FreeSlotsWanted(stored, DemandOf(cfg, env));
  }

  /** A status that lists operations of one type only is settling. */
  lemma OneTypeSettles(next: Option<Status>, u: OperationType)
    requires Known(u) && next.Some? && Mirrored(next.value) && AllOf(next.value.operations, u)
    ensures Settling(next)
  {
    assert ActiveOperations(next) == next.value.operations;
  }

  lemma NewOpsAreOneType(cfg: Config, stored: Option<Status>, env: Env)
    ensures Known(LaunchType(cfg, stored, env)) && AllOf(NewOps(cfg, stored, env), LaunchType(cfg, stored, env))
  {
    var u, requested := LaunchType(cfg, stored, env), Requested(cfg, stored, env);
    LaunchedAreNew(cfg, u, env.attempt, env.now, SuccessesUpTo(cfg, u, requested, env.attempt), u);
  }

  lemma NewOpsSettle(cfg: Config, stored: Option<Status>, env: Env)
    requires Persists(cfg, stored, env) && SweepOf(cfg, stored, env).kept == []
    ensures var next := Step(cfg, stored, env);
      next.Some? && next.value.ready == env.ready && Settling(next)
  {
    StepShape(cfg, stored, env);
    var new_ := NewOps(cfg, stored, env);
    assert [] + new_ == new_;
    NewOpsAreOneType(cfg, stored, env);
    OneTypeSettles(Step(cfg, stored, env), LaunchType(cfg, stored, env));
  }

  lemma KeepsNothing(cfg: Config, stored: Option<Status>, env: Env, t: OperationType)
    requires Known(t) && SweepOf(cfg, stored, env).kept == []
    ensures Removed(cfg, stored, env, t) == InFlight(stored, t)
  {
    PassLedger(cfg, stored, env, t);
  }

  /** When the pass keeps nothing, what is in flight afterwards is what was wanted. */
  lemma OnlyNewInFlight(cfg: Config, stored: Option<Status>, env: Env, t: OperationType)
    requires Known(t) && cfg.createEnabled && cfg.deleteEnabled && env.patched && JobsReadable(stored, env)
    requires AllCreated(env.attempt)
    requires SweepOf(cfg, stored, env).kept == []
    ensures var next := Step(cfg, stored, env);
      next.Some? && next.value.ready == env.ready && Settling(next) &&
      InFlight(next, t) == Wanted(cfg, stored, env, t)
  {
    EverythingLaunches(cfg, stored, env, t);
    KeepsNothing(cfg, stored, env, t);
    NewOpsSettle(cfg, stored, env);
  }

  /** One closed-loop reconcile observes everything in flight and starts min(gap, batch, limit);
      with nothing in flight the ready count may have moved on its own. */
  lemma ConvergeStep(cfg: Config, stored: Option<Status>, target: nat, batch: Option<int>, env: Env)
    requires cfg.createEnabled && cfg.deleteEnabled && Settling(stored) && Smooth(target, batch, env)
    requires env.ready == Level(stored) || |ActiveOperations(stored)| == 0
    ensures Arrived(cfg, batch, Step(cfg, stored, env), target, env.ready)
  {
    if |ActiveOperations(stored)| > 0 {
      var t := if AllOf(ActiveOperations(stored), Create) then Create else Delete;
      ClosedLoopObserves(cfg, stored, target, batch, env, t);
      LevelCreditsAll(stored, env.ready, t);
    } else {
      assert SweepOf(cfg, stored, env).kept == [];
    }
    ClosedLoopWants(cfg, stored, target, batch, env);
    OnlyNewInFlight(cfg, stored, env, Create);
    OnlyNewInFlight(cfg, stored, env, Delete);
  }

  // ---------------------------------------------------------------------
  // Runs
  // ---------------------------------------------------------------------

  /** The i-th reconcile of the run is a closed-loop one. */
  ghost predicate ClosedAt(cfg: Config, stored: Option<Status>, target: nat, batch: Option<int>, envs: seq<Env>, i: nat)
    requires i < |envs|
  {
    ClosedLoop(AfterFrom(cfg, stored, envs[..i]), target, batch, envs[i])
  }

  ghost predicate ClosedRun(cfg: Config, stored: Option<Status>, target: nat, batch: Option<int>, envs: seq<Env>) {
    forall i :: 0 <= i < |envs| ==> ClosedAt(cfg, stored, target, batch, envs, i)
  }

  /** How far below (positive) or above (negative) the target the level is. */
  function Gap(stored: Option<Status>, target: nat): int { target - Level(stored) }

  /** A gap after n reconciles, each closing at most `rate` of it. */
  function Remaining(gap: int, n: nat, up: int, down: int): int {
    if gap >= 0 then Positive(gap - n * up) else -Positive(-gap - n * down)
  }

  /** The gap `gap` has become the gap of `next`, smaller by one reconcile's share. */
  predicate Closes(cfg: Config, batch: Option<int>, next: Option<Status>, target: nat, gap: int) {
    && Settling(next)
    && Gap(next, target) == gap - Positive(Min(gap, Rate(cfg, batch, Create)))
                                + Positive(Min(-gap, Rate(cfg, batch, Delete)))
  }

  lemma ArrivedCloses(cfg: Config, batch: Option<int>, next: Option<Status>, target: nat, ready: int)
    requires Arrived(cfg, batch, next, target, ready)
    ensures Closes(cfg, batch, next, target, target - ready)
  {
  }

  lemma ArrivedAtTarget(cfg: Config, batch: Option<int>, next: Option<Status>, target: nat)
    requires Arrived(cfg, batch, next, target, target)
    ensures next.value.ready == target && ActiveOperations(next) == [] && Gap(next, target) == 0
  {
    NothingInFlight(next);
  }

  lemma NothingInFlight(stored: Option<Status>)
    requires Settling(stored) && InFlight(stored, Create) == 0 && InFlight(stored, Delete) == 0
    ensures ActiveOperations(stored) == []
  {
    var ops := ActiveOperations(stored);
    var t := if AllOf(ops, Create) then Create else Delete;
    CountsAll(ops, t, t, |ops|);
  }

  lemma GapStep(cfg: Config, stored: Option<Status>, target: nat, batch: Option<int>, env: Env)
    requires cfg.createEnabled && cfg.deleteEnabled && Settling(stored) && ClosedLoop(stored, target, batch, env)
    ensures Closes(cfg, batch, Step(cfg, stored, env), target, Gap(stored, target))
  {
    var ready: int := env.ready;
    assert Gap(stored, target) == target - ready;
    ConvergeStep(cfg, stored, target, batch, env);
    ArrivedCloses(cfg, batch, Step(cfg, stored, env), target, ready);
  }

  lemma RemainingStep(gap: int, n: nat, up: int, down: int)
    requires up >= 1 && down >= 1
    ensures var g := Remaining(gap, n, up, down);
      Remaining(gap, n + 1, up, down) == g - Positive(Min(g, up)) + Positive(Min(-g, down))
  {
    assert (n + 1) * up == n * up + up;
    assert (n + 1) * down == n * down + down;
    assert n * up >= 0 && n * down >= 0;
  }

  /** After n closed-loop reconciles from gap `gap`. */
  predicate Left(cfg: Config, batch: Option<int>, after: Option<Status>, target: nat, gap: int, n: nat) {
    && Settling(after)
    && Gap(after, target) == Remaining(gap, n, Rate(cfg, batch, Create), Rate(cfg, batch, Delete))
  }

  lemma LeftStep(cfg: Config, stored: Option<Status>, target: nat, batch: Option<int>, env: Env, gap: int, n: nat)
    requires cfg.createEnabled && cfg.deleteEnabled
    requires Left(cfg, batch, stored, target, gap, n) && ClosedLoop(stored, target, batch, env)
    ensures Left(cfg, batch, Step(cfg, stored, env), target, gap, n + 1)
  {
    GapStep(cfg, stored, target, batch, env);
    ClosesLeaves(cfg, batch, Step(cfg, stored, env), target, gap, n);
  }

  lemma ClosesLeaves(cfg: Config, batch: Option<int>, next: Option<Status>, target: nat, gap: int, n: nat)
    requires Closes(cfg, batch, next, target, Remaining(gap, n, Rate(cfg, batch, Create), Rate(cfg, batch, Delete)))
    ensures Left(cfg, batch, next, target, gap, n + 1)
  {
    RemainingStep(gap, n, Rate(cfg, batch, Create), Rate(cfg, batch, Delete));
  }

  /** The run up to its last reconcile, and that reconcile. */
  lemma ClosedRunSplits(cfg: Config, stored: Option<Status>, target: nat, batch: Option<int>, envs: seq<Env>)
    requires |envs| > 0 && ClosedRun(cfg, stored, target, batch, envs)
    ensures ClosedRun(cfg, stored, target, batch, envs[..|envs| - 1])
    ensures ClosedLoop(AfterFrom(cfg, stored, envs[..|envs| - 1]), target, batch, envs[|envs| - 1])
  {
    var init := envs[..|envs| - 1];
    forall i | 0 <= i < |init| ensures ClosedAt(cfg, stored, target, batch, init, i) {
      assert ClosedAt(cfg, stored, target, batch, envs, i);
      assert init[..i] == envs[..i];
    }
    assert ClosedAt(cfg, stored, target, batch, envs, |envs| - 1);
  }

  lemma NothingLeft(cfg: Config, stored: Option<Status>, target: nat, batch: Option<int>)
    requires Settling(stored)
    ensures Left(cfg, batch, stored, target, Gap(stored, target), 0)
  {
  }

  /**
    In a closed loop the gap keeps its sign and after n reconciles exactly n batches of it are
    closed, until it is zero: the level never passes the target.
  */
  lemma {:induction false} GapShrinks(cfg: Config, stored: Option<Status>, target: nat, batch: Option<int>,
                                      envs: seq<Env>)
    requires cfg.createEnabled && cfg.deleteEnabled
    requires Settling(stored) && ClosedRun(cfg, stored, target, batch, envs)
    ensures Left(cfg, batch, AfterFrom(cfg, stored, envs), target, Gap(stored, target), |envs|)
  {
    if |envs| > 0 {
      var init := envs[..|envs| - 1];
      ClosedRunSplits(cfg, stored, target, batch, envs);
      GapShrinks(cfg, stored, target, batch, init);
      LeftStep(cfg, AfterFrom(cfg, stored, init), target, batch, envs[|envs| - 1], Gap(stored, target), |init|);
    } else {
      NothingLeft(cfg, stored, target, batch);
    }
  }

  /** Once the gap is closed, the next reconcile sees exactly the target and starts nothing. */
  lemma ClosedGapIsQuiet(cfg: Config, stored: Option<Status>, target: nat, batch: Option<int>, env: Env)
    requires cfg.createEnabled && cfg.deleteEnabled
    requires Settling(stored) && ClosedLoop(stored, target, batch, env) && Gap(stored, target) == 0
    ensures var next := Step(cfg, stored, env);
      next.Some? && next.value.ready == target && ActiveOperations(next) == [] && Gap(next, target) == 0
  {
    ConvergeStep(cfg, stored, target, batch, env);
    ArrivedAtTarget(cfg, batch, Step(cfg, stored, env), target);
  }

  /**
    Convergence: after enough reconciles to cover the gap at the rate of its direction, and one to
    observe the last of them, the ready count is the target and nothing is in flight; as this is
    so for every closed run that long, no operation starts afterwards.
  */
  lemma Converges(cfg: Config, stored: Option<Status>, target: nat, batch: Option<int>, envs: seq<Env>)
    requires cfg.createEnabled && cfg.deleteEnabled
    requires Settling(stored) && ClosedRun(cfg, stored, target, batch, envs) && |envs| > 0
    requires (|envs| - 1) * Rate(cfg, batch, Create) >= Gap(stored, target)
    requires (|envs| - 1) * Rate(cfg, batch, Delete) >= -Gap(stored, target)
    ensures var after := AfterFrom(cfg, stored, envs);
      after.Some? && after.value.ready == target && ActiveOperations(after) == []
  {
    var init := envs[..|envs| - 1];
    ClosedRunSplits(cfg, stored, target, batch, envs);
    GapShrinks(cfg, stored, target, batch, init);
    ClosedGapIsQuiet(cfg, AfterFrom(cfg, stored, init), target, batch, envs[|envs| - 1]);
  }

  // ---------------------------------------------------------------------
  // A fresh scaler in any cluster
  // ---------------------------------------------------------------------

  /** The first reconcile of all, whatever number of nodes it finds, is one step of the same convergence. */
  lemma FirstReconcile(cfg: Config, target: nat, batch: Option<int>, first: Env)
    requires cfg.createEnabled && cfg.deleteEnabled && Smooth(target, batch, first)
    ensures Closes(cfg, batch, Step(cfg, None, first), target, target - first.ready)
  {
    var ready: int := first.ready;
    ConvergeStep(cfg, None, target, batch, first);
    ArrivedCloses(cfg, batch, Step(cfg, None, first), target, ready);
  }

  lemma SharesLeft(gap: int, n: nat, up: int, down: int)
    requires n > 0 && up >= 1 && down >= 1 && n * up >= gap && n * down >= -gap
    ensures var rest := gap - Positive(Min(gap, up)) + Positive(Min(-gap, down));
      (n - 1) * up >= rest && (n - 1) * down >= -rest
  {
    assert (n - 1) * up == n * up - up && (n - 1) * down == n * down - down;
    assert (n - 1) * up >= 0 && (n - 1) * down >= 0;
  }

  /**
    A scaler that starts in a cluster with any number of ready nodes, above or below the target: after
    its first reconcile and enough closed-loop ones to cover the gap it found, the ready count is the
    target and nothing is in flight.
  */
  lemma ConvergesFromAnyCluster(cfg: Config, target: nat, batch: Option<int>, first: Env, envs: seq<Env>)
    requires cfg.createEnabled && cfg.deleteEnabled && Smooth(target, batch, first) && |envs| > 0
    requires ClosedRun(cfg, Step(cfg, None, first), target, batch, envs)
    requires |envs| * Rate(cfg, batch, Create) >= target - first.ready
    requires |envs| * Rate(cfg, batch, Delete) >= first.ready - target
    ensures var after := AfterFrom(cfg, Step(cfg, None, first), envs);
      after.Some? && after.value.ready == target && ActiveOperations(after) == []
  {
    FirstReconcile(cfg, target, batch, first);
    SharesLeft(target - first.ready, |envs|, Rate(cfg, batch, Create), Rate(cfg, batch, Delete));
    Converges(cfg, Step(cfg, None, first), target, batch, envs);
  }

  // ---------------------------------------------------------------------
  // Closed runs exist
  // ---------------------------------------------------------------------

  /** The closed-loop environment that shows the given ready count. */
  function SmoothEnv(target: nat, batch: Option<int>, ready: nat): Env {
    Env(target, batch, ready, 0, 0, (i: nat) => Found(false, true), (i: nat) => JobCreated("", ""), true)
  }

  lemma RemainingIsPart(gap: int, n: nat, up: int, down: int)
    requires up >= 1 && down >= 1
    ensures Min(gap, 0) <= Remaining(gap, n, up, down) <= Max(gap, 0)
  {
    assert n * up >= 0 && n * down >= 0;
  }

  lemma ExtendClosedRun(cfg: Config, stored: Option<Status>, target: nat, batch: Option<int>, envs: seq<Env>, env: Env)
    requires ClosedRun(cfg, stored, target, batch, envs)
    requires ClosedLoop(AfterFrom(cfg, stored, envs), target, batch, env)
    ensures ClosedRun(cfg, stored, target, batch, envs + [env])
  {
    var all := envs + [env];
    forall i | 0 <= i < |all| ensures ClosedAt(cfg, stored, target, batch, all, i) {
      if i < |envs| {
        assert ClosedAt(cfg, stored, target, batch, envs, i);
        assert all[..i] == envs[..i];
      } else {
        assert all[..i] == envs;
      }
    }
  }

  /** The closed loop can go on for any number of reconciles, whatever the target. */
  lemma {:induction false} ClosedRunsExist(cfg: Config, stored: Option<Status>, target: nat, batch: Option<int>, n: nat)
    returns (envs: seq<Env>)
    requires cfg.createEnabled && cfg.deleteEnabled && Settling(stored) && Level(stored) >= 0
    ensures |envs| == n && ClosedRun(cfg, stored, target, batch, envs)
  {
    if n == 0 {
      envs := [];
    } else {
      var init := ClosedRunsExist(cfg, stored, target, batch, n - 1);
      GapShrinks(cfg, stored, target, batch, init);
      RemainingIsPart(Gap(stored, target), n - 1, Rate(cfg, batch, Create), Rate(cfg, batch, Delete));
      var level := Level(AfterFrom(cfg, stored, init));
      var env := SmoothEnv(target, batch, level);
      ExtendClosedRun(cfg, stored, target, batch, init, env);
      envs := init + [env];
    }
  }

  /** In particular after the first reconcile of a fresh scaler in a cluster of any size. */
  lemma ClosedRunsExistInAnyCluster(cfg: Config, target: nat, batch: Option<int>, ready: nat, n: nat)
    returns (envs: seq<Env>)
    requires cfg.createEnabled && cfg.deleteEnabled
    ensures Smooth(target, batch, SmoothEnv(target, batch, ready))
    ensures |envs| == n
    ensures ClosedRun(cfg, Step(cfg, None, SmoothEnv(target, batch, ready)), target, batch, envs)
  {
    var first := SmoothEnv(target, batch, ready);
    FirstReconcile(cfg, target, batch, first);
    var stored := Step(cfg, None, first);
    assert Level(stored) == target - Gap(stored, target) >= 0;
    envs := ClosedRunsExist(cfg, stored, target, batch, n);
  }
}
