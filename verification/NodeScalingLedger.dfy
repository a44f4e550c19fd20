/** The books kept between planner and executor, over every run. */
module NodeScalingLedger {
  import opened Common
  import opened WorkerOperations
  import opened WorkerPlanner
  import opened WorkerExecutor
  import opened NodeScaling
  import opened NodeScalingSafety

  predicate Booked(stored: Option<Status>) {
    stored.Some? ==> Mirrored(stored.value) && Balanced(stored.value) && AllUnit(stored.value.operations)
  }

  lemma PassStaysUnit(cfg: Config, stored: Option<Status>, env: Env, t: OperationType)
    requires Known(t) && AllUnit(ActiveOperations(stored))
    ensures AllUnit(SweepOf(cfg, stored, env).kept)
    ensures Acknowledged(cfg, stored, env, t) <= Moved(t, ReadyOf(stored), env.ready)
  {
    var start := PassIs(cfg, stored, env);
    var ops := ActiveOperations(stored);
    SweepUnit(cfg.observationTimeout, env.now, start, ops, env.lookup, |ops|, t);
    SweepSpends(cfg.observationTimeout, env.now, start, ops, env.lookup, |ops|, t);
  }

  lemma StepStaysBooked(cfg: Config, stored: Option<Status>, env: Env)
    requires Booked(stored)
    ensures Booked(Step(cfg, stored, env))
  {
    if Persists(cfg, stored, env) {
      StepShape(cfg, stored, env);
      PassStaysUnit(cfg, stored, env, Create);
      var u, requested := LaunchType(cfg, stored, env), Requested(cfg, stored, env);
      LaunchedAreNew(cfg, u, env.attempt, env.now, SuccessesUpTo(cfg, u, requested, env.attempt), u);
    }
  }

  lemma {:induction false} RunStaysBooked(cfg: Config, stored: Option<Status>, envs: seq<Env>)
    requires Booked(stored)
    ensures Booked(AfterFrom(cfg, stored, envs))
  {
    if |envs| > 0 {
      RunStaysBooked(cfg, stored, envs[..|envs| - 1]);
      StepStaysBooked(cfg, AfterFrom(cfg, stored, envs[..|envs| - 1]), envs[|envs| - 1]);
    }
  }

  lemma StepGap(cfg: Config, stored: Option<Status>, env: Env, t: OperationType)
    requires Known(t) && Booked(stored) && Persists(cfg, stored, env)
    ensures var next := Step(cfg, stored, env);
      0 <= InFlight(next, t) - Pending(next.value, t) <= Moved(t, ReadyOf(stored), env.ready)
  {
    StepLedger(cfg, stored, env, t);
    PersistedInFlight(cfg, stored, env, t);
    PassStaysUnit(cfg, stored, env, t);
    PassLedger(cfg, stored, env, t);
    WantedFitsSlots(cfg, stored, env, t);
  }

  /**
    Every status stored by any run: effective is ready plus pending creates minus pending deletes,
    and pending trails the tracked workers by at most what the ready count just moved, so the two
    agree whenever the ready count stood still.
  */
  lemma RunLedger(cfg: Config, envs: seq<Env>, env: Env, t: OperationType)
    requires Known(t) && Persists(cfg, After(cfg, envs), env)
    ensures var before, next := After(cfg, envs), After(cfg, envs + [env]);
      && next.Some? && next.value.effective == next.value.ready + next.value.pendingCreate - next.value.pendingDelete
      && 0 <= InFlight(next, t) - Pending(next.value, t) <= Moved(t, ReadyOf(before), env.ready)
      && (env.ready == ReadyOf(before) ==> Pending(next.value, t) == InFlight(next, t))
  {
    assert (envs + [env])[..|envs|] == envs;
    RunStaysBooked(cfg, None, envs);
    var before := After(cfg, envs);
    StepGap(cfg, before, env, t);
    StepShape(cfg, before, env);
  }

  // ---------------------------------------------------------------------
  // An operation once removed never comes back
  // ---------------------------------------------------------------------

  ghost predicate NeverCreates(env: Env, job: string) {
    forall i: nat :: env.attempt(i).JobCreated? ==> env.attempt(i).job != job
  }

  lemma {:induction false} LaunchedJobs(cfg: Config, t: OperationType, env: Env, k: nat, job: string)
    requires NeverCreates(env, job)
    ensures job !in Jobs(LaunchedOps(cfg, t, env.attempt, env.now, k))
  {
    if k > 0 {
      LaunchedJobs(cfg, t, env, k - 1, job);
      var before := LaunchedOps(cfg, t, env.attempt, env.now, k - 1);
      if Launches(cfg, t, env.attempt(k - 1)) {
        JobsConcat(before, [NewOperation(t, env.attempt(k - 1), env.now)], job);
      }
    }
  }

  lemma JobsConcat(a: seq<Operation>, b: seq<Operation>, job: string)
    requires job !in Jobs(a) && job !in Jobs(b)
    ensures job !in Jobs(a + b)
  {
    forall i | 0 <= i < |a + b| ensures (a + b)[i].job != job {
      if i < |a| {
        assert a[i].job in Jobs(a);
      } else {
        assert b[i - |a|].job in Jobs(b);
      }
    }
  }

  lemma StepForgets(cfg: Config, stored: Option<Status>, env: Env, job: string)
    requires job !in Jobs(ActiveOperations(stored)) && NeverCreates(env, job)
    ensures job !in Jobs(ActiveOperations(Step(cfg, stored, env)))
  {
    if Persists(cfg, stored, env) {
      var start := PassIs(cfg, stored, env);
      var ops := ActiveOperations(stored);
      SweepJobs(cfg.observationTimeout, env.now, start, ops, env.lookup, |ops|, job);
      var u, requested := LaunchType(cfg, stored, env), Requested(cfg, stored, env);
      LaunchedJobs(cfg, u, env, SuccessesUpTo(cfg, u, requested, env.attempt), job);
      JobsConcat(SweepOf(cfg, stored, env).kept, NewOps(cfg, stored, env), job);
      StepShape(cfg, stored, env);
    }
  }

  /** From any stored status on, whatever its mirror says, a job that is no longer tracked stays
      untracked (also through the legacy mirror) until some reconcile creates a job of that name again. */
  lemma {:induction false} RemovedStaysRemoved(cfg: Config, stored: Option<Status>, envs: seq<Env>, job: string)
    requires job !in Jobs(ActiveOperations(stored))
    requires forall i :: 0 <= i < |envs| ==> NeverCreates(envs[i], job)
    ensures job !in Jobs(ActiveOperations(AfterFrom(cfg, stored, envs)))
  {
    if |envs| > 0 {
      var init := envs[..|envs| - 1];
      RemovedStaysRemoved(cfg, stored, init, job);
      StepForgets(cfg, AfterFrom(cfg, stored, init), envs[|envs| - 1], job);
    }
  }
}
