/** The pod scaler's decisions in terms of its policy, its forecast and its histories. */
module PodScalingExact {
  import opened Common
  import opened PodScaling
  import opened PodScalingSafety

  // ---------------------------------------------------------------------
  // Scale-down
  // ---------------------------------------------------------------------

  /** How many of the points m, ..., n - 1 of a series have a value. */
  function ValueCount(series: Series, m: nat, n: nat): nat
    decreases n
  {
    if n <= m then 0 else ValueCount(series, m, n - 1) + if HasValue(series, n - 1) then 1 else 0
  }

  predicate NoneAbove(series: Series, m: nat, n: nat, threshold: real) {
    forall i :: m <= i < n ==> !IsAbove(series, i, threshold)
  }

  /** The series ends in a window with the required number of values, none of them above the threshold. */
  predicate HealthyFrom(series: Series, required: int, threshold: real, m: nat) {
    m <= |series| && ValueCount(series, m, |series|) == required && NoneAbove(series, m, |series|, threshold)
  }

  lemma {:induction false} RecentHasWindow(series: Series, limit: int, n: nat, threshold: real) returns (m: nat)
    requires n <= |series| && 0 <= limit <= |Recent(series, limit, n)| && AtMost(Recent(series, limit, n), threshold)
    ensures m <= n && ValueCount(series, m, n) == limit && NoneAbove(series, m, n, threshold)
  {
    if limit == 0 {
      m := n;
    } else if series[n - 1].Some? {
      var v, rest := series[n - 1].value, Recent(series, limit - 1, n - 1);
      assert ([v] + rest)[0] == v && ([v] + rest)[1..] == rest;
      m := RecentHasWindow(series, limit - 1, n - 1, threshold);
    } else {
      m := RecentHasWindow(series, limit, n - 1, threshold);
    }
  }

  lemma {:induction false} WindowIsRecent(series: Series, limit: int, m: nat, n: nat, threshold: real)
    requires m <= n <= |series| && ValueCount(series, m, n) == limit && NoneAbove(series, m, n, threshold)
    ensures |Recent(series, limit, n)| >= limit && AtMost(Recent(series, limit, n), threshold)
    decreases n
  {
    if limit > 0 {
      if series[n - 1].Some? {
        WindowIsRecent(series, limit - 1, m, n - 1, threshold);
        assert !IsAbove(series, n - 1, threshold);
      } else {
        WindowIsRecent(series, limit, m, n - 1, threshold);
      }
    }
  }

  lemma HealthyExactly(series: Series, required: int, threshold: real)
    requires required > 0
    ensures Healthy(series, required, threshold) <==> exists m: nat :: HealthyFrom(series, required, threshold, m)
  {
    if Healthy(series, required, threshold) {
      var m := RecentHasWindow(series, required, |series|, threshold);
      assert HealthyFrom(series, required, threshold, m);
    }
    if m: nat :| HealthyFrom(series, required, threshold, m) {
      WindowIsRecent(series, required, m, |series|, threshold);
    }
  }

  /**
    Scaling down is allowed exactly when the policy is not the safe one, or both histories end in the
    required number of values that are not above their thresholds.
  */
  lemma ScaleDownAllowedExactly(observed: Observed, p: Policy)
    ensures var required := if p.reactiveRequiredPoints <= 0 then 1 else p.reactiveRequiredPoints;
      ScaleDownAllowed(observed, p) <==>
      || p.scaleDownPolicy != Safe
      || ((exists m: nat :: HealthyFrom(observed.errorRate, required, p.appErrorRateThreshold, m))
          && (exists m: nat :: HealthyFrom(observed.ingress, required, p.ingressP99Threshold, m)))
  {
    var required := if p.reactiveRequiredPoints <= 0 then 1 else p.reactiveRequiredPoints;
    HealthyExactly(observed.errorRate, required, p.appErrorRateThreshold);
    HealthyExactly(observed.ingress, required, p.ingressP99Threshold);
  }

  // ---------------------------------------------------------------------
  // The bump without pressure
  // ---------------------------------------------------------------------

  /** A cycle whose forecast shows no sustained pressure and whose calls all succeed. */
  predicate Quiet(c: Cycle, p: Policy) {
    && c.Forecasted? && |c.forecast.predictions| > 0 && c.found && c.updated && c.patched
    && !SustainedPressure(c.forecast.observed, p)
  }

  lemma QuietLowers(s: State, c: Cycle, p: Policy)
    requires Quiet(c, p)
    ensures Step(s, c, p).bump == if s.bump < p.reactiveDecreaseStep then 0 else s.bump - p.reactiveDecreaseStep
  {
  }

  lemma LoweredOnceMore(bump: int, n: nat, p: Policy)
    requires WellFormed(p) && bump >= 0
    ensures var before := if bump < n * p.reactiveDecreaseStep then 0 else bump - n * p.reactiveDecreaseStep;
      (if before < p.reactiveDecreaseStep then 0 else before - p.reactiveDecreaseStep) ==
      if bump < (n + 1) * p.reactiveDecreaseStep then 0 else bump - (n + 1) * p.reactiveDecreaseStep
  {
    assert (n + 1) * p.reactiveDecreaseStep == n * p.reactiveDecreaseStep + p.reactiveDecreaseStep;
  }

  /** After any n cycles without pressure the bump has fallen by n steps and stopped at zero. */
  lemma {:induction false} QuietFalls(s: State, run: seq<Cycle>, p: Policy, n: nat)
    requires WellFormed(p) && s.bump >= 0 && n <= |run|
    requires forall i :: 0 <= i < n ==> Quiet(run[i], p)
    ensures After(s, run, p, n).bump ==
            if s.bump < n * p.reactiveDecreaseStep then 0 else s.bump - n * p.reactiveDecreaseStep
  {
    if n == 0 {
      assert After(s, run, p, n) == s;
    } else {
      QuietFalls(s, run, p, n - 1);
      QuietLowers(After(s, run, p, n - 1), run[n - 1], p);
      LoweredOnceMore(s.bump, n - 1, p);
    }
  }

  // ---------------------------------------------------------------------
  // Replicas
  // ---------------------------------------------------------------------

  /** n pods are enough for every predicted minute on both signals. */
  predicate CoversForecast(n: int, f: Forecast, p: Policy) {
    Covers(n, f.predictions, p, p.requestsPerPod) && Covers(n, f.cpuRows, p, p.cpuSecondsPerPod)
  }

  /**
    The desired count is the least number of pods that covers every predicted minute, and the spare pods
    when any is needed, moved into the policy's range: nothing less unless it is at the maximum, and
    nothing more unless it is at the minimum.
  */
  lemma DesiredExactly(f: Forecast, p: Policy) returns (least: nat)
    requires WellFormed(p)
    ensures forall n: nat :: least <= n <==> CoversForecast(n, f, p)
    ensures var d, wanted := DesiredReplicas(f, p), if least > 0 then least + p.sparePod else 0;
      && p.minReplicas <= d <= p.maxReplicas
      && (d < wanted ==> d == p.maxReplicas) && (d > wanted ==> d == p.minReplicas)
  {
    least := BaseDemand(f, p);
    forall n: nat ensures least <= n <==> CoversForecast(n, f, p) {
      BaseDemandIsLeast(f, p, n);
    }
  }

  /** A cycle whose calls all succeed: forecast demand, raised by the bump up to the maximum, is applied,
      but a lower count only when scaling down is allowed. */
  lemma CycleExactly(s: State, f: Forecast, p: Policy)
    requires WellFormed(p) && |f.predictions| > 0
    ensures var t := Step(s, Forecasted(f, true, true, true), p);
      var current := if s.replicas.Some? then s.replicas.value else 1;
      var raise := t.bump * p.reactiveReplicaStep;
      var desired := DesiredReplicas(f, p);
      var proposed := if raise <= 0 then desired
                      else if desired + raise > p.maxReplicas then p.maxReplicas else desired + raise;
      Current(t) == if proposed < current && !ScaleDownAllowed(f.observed, p) then current else proposed
  {
  }

  /** A cycle that cannot be finished: without a forecast or a deployment, or when the update fails,
      nothing changes; when only the status patch fails, the bump is not stored. */
  lemma UnfinishedCycle(s: State, c: Cycle, p: Policy)
    ensures c.NoForecast? || |c.forecast.predictions| == 0 || !c.found ==> Step(s, c, p) == s
    ensures c.Forecasted? && !c.patched ==> Step(s, c, p).bump == s.bump
    ensures c.Forecasted? && !c.updated ==> Step(s, c, p).replicas == s.replicas
    ensures c.Forecasted? && !c.updated && Current(Step(s, c.(updated := true), p)) != Current(s) ==> Step(s, c, p) == s
  {
  }

  // ---------------------------------------------------------------------
  // Policy
  // ---------------------------------------------------------------------

  /** A valid override is in force; otherwise a valid default is; and the range is never empty. */
  lemma PolicyExactly(d: Policy, spec: Overrides)
    ensures var p := PolicyFor(d, spec);
      && (spec.minReplicas.Some? && spec.minReplicas.value > 0 ==> p.minReplicas == spec.minReplicas.value)
      && (spec.minReplicas.None? && d.minReplicas > 0 ==> p.minReplicas == d.minReplicas)
      && (spec.maxReplicas.Some? && spec.maxReplicas.value >= p.minReplicas ==> p.maxReplicas == spec.maxReplicas.value)
      && (spec.maxReplicas.None? && 0 < d.minReplicas <= d.maxReplicas && p.minReplicas <= d.maxReplicas ==>
            p.maxReplicas == d.maxReplicas)
      && (spec.sparePod.Some? && spec.sparePod.value >= 0 ==> p.sparePod == spec.sparePod.value)
      && (spec.sparePod.None? && d.sparePod >= 0 ==> p.sparePod == d.sparePod)
      && (spec.requestsPerPod.Some? && spec.requestsPerPod.value > 0.0 ==>
            p.requestsPerPod == spec.requestsPerPod.value)
      && (spec.requestsPerPod.None? && d.requestsPerPod > 0.0 ==> p.requestsPerPod == d.requestsPerPod)
      && (spec.safetyFactor.Some? && spec.safetyFactor.value > 0.0 ==> p.safetyFactor == spec.safetyFactor.value)
      && (spec.safetyFactor.None? && d.safetyFactor > 0.0 ==> p.safetyFactor == d.safetyFactor)
      && (d.cpuSecondsPerPod > 0.0 ==> p.cpuSecondsPerPod == d.cpuSecondsPerPod)
      && (p.scaleDownPolicy == Safe <==> d.scaleDownPolicy == Safe)
      && (d.appErrorRateThreshold > 0.0 ==> p.appErrorRateThreshold == d.appErrorRateThreshold)
      && (d.ingressP99Threshold > 0.0 ==> p.ingressP99Threshold == d.ingressP99Threshold)
      && (d.reactiveRequiredPoints > 0 ==> p.reactiveRequiredPoints == d.reactiveRequiredPoints)
      && (d.reactiveIncreaseStep > 0 ==> p.reactiveIncreaseStep == d.reactiveIncreaseStep)
      && (d.reactiveDecreaseStep > 0 ==> p.reactiveDecreaseStep == d.reactiveDecreaseStep)
      && (d.reactiveMaxBump >= 0 ==> p.reactiveMaxBump == d.reactiveMaxBump)
      && (d.reactiveReplicaStep >= 0 ==> p.reactiveReplicaStep == d.reactiveReplicaStep)
  {
  }

  /** Where neither the scaler nor the environment gives a valid value, the built-in one is in force. */
  lemma BuiltInPolicy(d: Policy, spec: Overrides)
    requires d.requestsPerPod <= 0.0 && d.cpuSecondsPerPod <= 0.0 && d.safetyFactor <= 0.0 && d.sparePod < 0
    requires d.minReplicas <= 0 && d.maxReplicas <= 0 && d.scaleDownPolicy.Unrecognised?
    requires d.appErrorRateThreshold <= 0.0 && d.ingressP99Threshold <= 0.0 && d.reactiveRequiredPoints <= 0
    requires d.reactiveIncreaseStep <= 0 && d.reactiveDecreaseStep <= 0
    requires d.reactiveMaxBump < 0 && d.reactiveReplicaStep < 0
    requires spec == Overrides(None, None, None, None, None)
    ensures PolicyFor(d, spec) == Policy(25.0, 30.0, 1.1, 1, 1, 1, Dangerous, 0.05, 0.5, 2, 1, 2, 10, 2)
  {
  }
}
