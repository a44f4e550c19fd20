/**
  Runs from the empty status that break a limit or mix creates with deletes: in each of them the ready
  count moves while the job that caused it still runs.
*/
module NodeScalingBreaks {
  import opened Common
  import opened WorkerOperations
  import opened WorkerPlanner
  import opened WorkerExecutor
  import opened NodeScaling
  import opened NodeScalingSafety

  // ---------------------------------------------------------------------
  // One operation started, its job still running
  // ---------------------------------------------------------------------

  /** While their jobs run, nothing is removed. */
  lemma {:induction false} RunningIsKept(timeout: int, now: int, start: Sweep, ops: seq<Operation>,
                                         lookup: nat -> Lookup, i: nat)
    requires i <= |ops| && (forall j :: 0 <= j < |ops| ==> ops[j].phase == Running)
    requires forall j: nat :: lookup(j) == Found(false, false)
    ensures var w := SweepTo(timeout, now, start, ops, lookup, i);
      w.observed == start.observed && w.rolledBack == start.rolledBack
  {
    if i > 0 {
      RunningIsKept(timeout, now, start, ops, lookup, i - 1);
    }
  }

  predicate Idle(stored: Option<Status>) {
    |ActiveOperations(stored)| == 0
  }

  predicate OneRunning(ops: seq<Operation>, t: OperationType) {
    |ops| == 1 && ops[0].phase == Running && ops[0].opType == t && ops[0].requestedCount == 1
  }

  /** The target lies beyond the ready count in the direction in which t works. */
  predicate Wants(env: Env, t: OperationType) {
    match t
    case Create => env.target > env.ready
    case Delete => env.target < env.ready && env.unschedulablePods == 0
    case Unknown(_) => false
  }

  /** Every job can be created and the status is stored. */
  ghost predicate Smoothly(env: Env) {
    env.patched && AllCreated(env.attempt)
  }

  ghost predicate StillRunning(env: Env) {
    forall i: nat :: env.lookup(i) == Found(false, false)
  }

  lemma FirstPlan(cfg: Config, stored: Option<Status>, starting: Env, t: OperationType)
    requires Idle(stored) && LimitOf(cfg, t) == 1 && Wants(starting, t)
    ensures Wanted(cfg, stored, starting, t) == 1
    ensures LaunchType(cfg, stored, starting) == t && Requested(cfg, stored, starting) == 1
  {
    var d := DemandOf(cfg, starting);
    assert Outstanding(stored, d.ready, Create) == 0;
    assert Outstanding(stored, d.ready, Delete) == 0;
  }

  /** A reconcile of an idle scaler with one slot starts one operation towards its target. */
  lemma FirstStart(cfg: Config, stored: Option<Status>, starting: Env, t: OperationType)
    requires cfg.createEnabled && cfg.deleteEnabled && LimitOf(cfg, t) == 1
    requires Idle(stored) && Wants(starting, t) && Smoothly(starting)
    ensures var first := Step(cfg, stored, starting);
      first.Some? && first.value.ready == starting.ready && OneRunning(ActiveOperations(first), t)
  {
    FirstPlan(cfg, stored, starting, t);
    EverythingLaunches(cfg, stored, starting, t);
    StepShape(cfg, stored, starting);
    AllLaunch(cfg, t, starting.attempt, starting.now, 1);
    LaunchedAreNew(cfg, t, starting.attempt, starting.now, 1, t);
    var new_ := NewOps(cfg, stored, starting);
    assert new_ == LaunchedOps(cfg, t, starting.attempt, starting.now, 1);
    assert SweepOf(cfg, stored, starting).kept == [];
    assert [] + new_ == new_;
    PersistedInFlight(cfg, stored, starting, t);
  }

  lemma OneInFlight(stored: Option<Status>, t: OperationType)
    requires Known(t) && OneRunning(ActiveOperations(stored), t)
    ensures InFlight(stored, Create) == if t == Create then 1 else 0
    ensures InFlight(stored, Delete) == if t == Delete then 1 else 0
  {
    var ops := ActiveOperations(stored);
    assert TrackedTo(ops, Create, 1) == if t == Create then 1 else 0;
    assert TrackedTo(ops, Delete, 1) == if t == Delete then 1 else 0;
  }

  lemma EarlyRemovesNothing(cfg: Config, stored: Option<Status>, early: Env, t: OperationType, u: OperationType)
    requires OneRunning(ActiveOperations(stored), t) && StillRunning(early)
    ensures Removed(cfg, stored, early, u) == 0
  {
    var start := PassIs(cfg, stored, early);
    var ops := ActiveOperations(stored);
    RunningIsKept(cfg.observationTimeout, early.now, start, ops, early.lookup, |ops|);
  }

  // ---------------------------------------------------------------------
  // The ready count moves early
  // ---------------------------------------------------------------------

  /** The one operation is credited, so a reconcile that wants u plans one u. */
  lemma EarlyPlan(cfg: Config, stored: Option<Status>, early: Env, t: OperationType, u: OperationType)
    requires Known(t) && Known(u) && OneRunning(ActiveOperations(stored), t)
    requires Moved(t, ReadyOf(stored), early.ready) == 1 && LimitOf(cfg, u) == 1 && Wants(early, u)
    ensures Wanted(cfg, stored, early, u) == 1
  {
    OneInFlight(stored, t);
    var d := DemandOf(cfg, early);
    assert Outstanding(stored, d.ready, Create) == 0;
    assert Outstanding(stored, d.ready, Delete) == 0;
  }

  /** It is kept as well, so afterwards one t and one u are in flight, or two of the same kind. */
  lemma EarlyStep(cfg: Config, stored: Option<Status>, early: Env, t: OperationType, u: OperationType)
    requires cfg.createEnabled && cfg.deleteEnabled && LimitOf(cfg, u) == 1
    requires Known(t) && Known(u) && OneRunning(ActiveOperations(stored), t)
    requires Moved(t, ReadyOf(stored), early.ready) == 1 && Wants(early, u) && Smoothly(early) && StillRunning(early)
    ensures InFlight(Step(cfg, stored, early), u) == if t == u then 2 else 1
    ensures InFlight(Step(cfg, stored, early), t) == if t == u then 2 else 1
  {
    OneInFlight(stored, t);
    EarlyPlan(cfg, stored, early, t, u);
    EarlyRemovesNothing(cfg, stored, early, t, t);
    EarlyRemovesNothing(cfg, stored, early, t, u);
    EverythingLaunches(cfg, stored, early, t);
    EverythingLaunches(cfg, stored, early, u);
    WantedFitsSlots(cfg, stored, early, u);
  }

  lemma TwoSteps(cfg: Config, stored: Option<Status>, a: Env, b: Env)
    ensures AfterFrom(cfg, stored, [a, b]) == Step(cfg, Step(cfg, stored, a), b)
  {
    assert [a][..0] == [] && [a, b][..1] == [a];
    assert AfterFrom(cfg, stored, [a]) == Step(cfg, stored, a);
  }

  /** The second reconcile sees the ready count moved by one in direction t while the job still runs, and wants u. */
  ghost predicate MovesEarly(cfg: Config, starting: Env, early: Env, t: OperationType, u: OperationType) {
    && cfg.createEnabled && cfg.deleteEnabled && Known(t) && Known(u) && LimitOf(cfg, t) == LimitOf(cfg, u) == 1
    && Wants(starting, t) && Smoothly(starting)
    && Moved(t, starting.ready, early.ready) == 1 && Wants(early, u) && Smoothly(early) && StillRunning(early)
  }

  lemma EarlyMoves(cfg: Config, starting: Env, early: Env, t: OperationType, u: OperationType)
    requires MovesEarly(cfg, starting, early, t, u)
    ensures InFlight(After(cfg, [starting, early]), u) == if t == u then 2 else 1
    ensures InFlight(After(cfg, [starting, early]), t) == if t == u then 2 else 1
  {
    TwoSteps(cfg, None, starting, early);
    FirstStart(cfg, None, starting, t);
    EarlyStep(cfg, Step(cfg, None, starting), early, t, u);
  }

  /**
    A node that turns Ready before its create job has ended is followed by a second create beside the
    first, and a node that leaves Ready before its delete job has ended by a second delete: two
    operations under a limit of one.
  */
  lemma EarlyMoveDoubles(cfg: Config, starting: Env, early: Env, t: OperationType)
    requires MovesEarly(cfg, starting, early, t, t)
    ensures InFlight(After(cfg, [starting, early]), t) == 2 > LimitOf(cfg, t)
  {
    EarlyMoves(cfg, starting, early, t, t);
  }

  /** If the target turns round as well, a delete starts beside the create, or a create beside the delete. */
  lemma EarlyMoveMixes(cfg: Config, starting: Env, early: Env, t: OperationType, u: OperationType)
    requires MovesEarly(cfg, starting, early, t, u) && t != u
    ensures !OneWay(After(cfg, [starting, early]))
  {
    EarlyMoves(cfg, starting, early, t, u);
  }

  // ---------------------------------------------------------------------
  // Such runs exist
  // ---------------------------------------------------------------------

  /** Every job looked up still runs, and every new one gets the given name. */
  function JobsRunning(target: nat, ready: nat, now: int, job: string): Env {
    Env(target, None, ready, 0, now, (i: nat) => Found(false, false), (i: nat) => JobCreated("node", job), true)
  }

  function OneAtATime(): Config { Config(true, true, 600, 1, 1) }

  lemma CreateLimitBreaks()
    ensures exists cfg, envs :: InFlight(After(cfg, envs), Create) > LimitOf(cfg, Create)
  {
    EarlyMoveDoubles(OneAtATime(), JobsRunning(5, 0, 0, "first"), JobsRunning(5, 1, 60, "second"), Create);
  }

  lemma DeleteLimitBreaks()
    ensures exists cfg, envs :: InFlight(After(cfg, envs), Delete) > LimitOf(cfg, Delete)
  {
    EarlyMoveDoubles(OneAtATime(), JobsRunning(0, 5, 0, "first"), JobsRunning(0, 4, 60, "second"), Delete);
  }

  /** Creates and deletes come to be tracked together: three nodes are wanted, then one. */
  lemma DirectionsMix()
    ensures exists cfg, envs :: !OneWay(After(cfg, envs))
  {
    EarlyMoveMixes(OneAtATime(), JobsRunning(3, 2, 0, "first"), JobsRunning(1, 3, 60, "second"), Create, Delete);
  }
}
