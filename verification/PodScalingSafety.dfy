/** What the pod scaler's guardrails and cycles guarantee. */
module PodScalingSafety {
  import opened Common
  import opened PodScaling

  // ---------------------------------------------------------------------
  // Sustained pressure
  // ---------------------------------------------------------------------

  predicate HasValue(series: Series, i: nat) { i < |series| && series[i].Some? }

  predicate IsAbove(series: Series, i: nat, threshold: real) { HasValue(series, i) && series[i].value > threshold }

  /** How many of the points m, ..., n - 1 have a value in either series. */
  function OccupiedCount(observed: Observed, m: nat, n: nat): nat
    decreases n
  {
    if n <= m then 0
    else OccupiedCount(observed, m, n - 1) +
         if HasValue(observed.ingress, n - 1) || HasValue(observed.errorRate, n - 1) then 1 else 0
  }

  /** Each of these points that has a value is above the threshold of its series in one of them. */
  predicate AllTriggered(observed: Observed, p: Policy, m: nat, n: nat) {
    forall i :: m <= i < n && (HasValue(observed.ingress, i) || HasValue(observed.errorRate, i)) ==>
      IsAbove(observed.ingress, i, p.ingressP99Threshold) || IsAbove(observed.errorRate, i, p.appErrorRateThreshold)
  }

  lemma {:induction false} PressureHasWindow(observed: Observed, p: Policy, n: nat, collected: int) returns (m: nat)
    requires collected <= RequiredPoints(p) && PressureFrom(observed, p, n, collected)
    ensures m <= n && collected + OccupiedCount(observed, m, n) == RequiredPoints(p) && AllTriggered(observed, p, m, n)
  {
    if collected == RequiredPoints(p) {
      m := n;
    } else if Occupied(observed, n - 1) {
      m := PressureHasWindow(observed, p, n - 1, collected + 1);
    } else {
      m := PressureHasWindow(observed, p, n - 1, collected);
    }
  }

  lemma {:induction false} WindowMeansPressure(observed: Observed, p: Policy, m: nat, n: nat, collected: int)
    requires m <= n && collected + OccupiedCount(observed, m, n) >= RequiredPoints(p) && AllTriggered(observed, p, m, n)
    ensures PressureFrom(observed, p, n, collected)
    decreases n
  {
    if collected < RequiredPoints(p) {
      if Occupied(observed, n - 1) {
        WindowMeansPressure(observed, p, m, n - 1, collected + 1);
      } else {
        WindowMeansPressure(observed, p, m, n - 1, collected);
      }
    }
  }

  /** The history from point m on has the required number of occupied points, all of them triggered. */
  predicate Window(observed: Observed, p: Policy, m: nat) {
    var length := if |observed.errorRate| > |observed.ingress| then |observed.errorRate| else |observed.ingress|;
    && m <= length
    && OccupiedCount(observed, m, length) == (if p.reactiveRequiredPoints <= 0 then 1 else p.reactiveRequiredPoints)
    && AllTriggered(observed, p, m, length)
  }

  /**
   * Pressure is sustained exactly when the history ends in a window with the required number of
   * points that have any value, each of them above a threshold in one of the two series.
   */
  lemma SustainedPressureExactly(observed: Observed, p: Policy)
    ensures SustainedPressure(observed, p) <==> exists m: nat :: Window(observed, p, m)
  {
    if SustainedPressure(observed, p) {
      var m := PressureHasWindow(observed, p, Length(observed), 0);
      assert Window(observed, p, m);
    }
    if m: nat :| Window(observed, p, m) {
      WindowMeansPressure(observed, p, m, Length(observed), 0);
    }
  }

  /** The newest point that has a value is above a threshold. */
  lemma {:induction false} PressureHasNewest(observed: Observed, p: Policy, n: nat) returns (i: nat)
    requires PressureFrom(observed, p, n, 0)
    ensures i < n && Triggered(observed, p, i) && forall j :: i < j < n ==> !Occupied(observed, j)
  {
    if Occupied(observed, n - 1) {
      i := n - 1;
    } else {
      i := PressureHasNewest(observed, p, n - 1);
    }
  }

  /** A value with only gaps after it leads the recent values, whatever the limit. */
  lemma {:induction false} NewestIsRecent(series: Series, limit: int, n: nat, i: nat)
    requires limit > 0 && i < n <= |series| && series[i].Some?
    requires forall j :: i < j < n ==> series[j].None?
    ensures |Recent(series, limit, n)| > 0 && Recent(series, limit, n)[0] == series[i].value
  {
    if i < n - 1 {
      NewestIsRecent(series, limit, n - 1, i);
    }
  }

  lemma NewestAboveIsUnhealthy(series: Series, required: int, threshold: real, i: nat)
    requires required > 0 && i < |series| && series[i].Some? && series[i].value > threshold
    requires forall j :: i < j < |series| ==> series[j].None?
    ensures !Healthy(series, required, threshold)
  {
    NewestIsRecent(series, required, |series|, i);
  }

  /**
   * Under the safe policy sustained pressure rules scaling down out: for histories of any two
   * lengths, with gaps anywhere.
   */
  lemma PressureRefusesScaleDown(observed: Observed, p: Policy)
    requires p.scaleDownPolicy.Safe? && SustainedPressure(observed, p)
    ensures !ScaleDownAllowed(observed, p)
  {
    var i := PressureHasNewest(observed, p, Length(observed));
    forall j | i < j ensures At(observed.ingress, j).None? && At(observed.errorRate, j).None? {
      if j < Length(observed) {
        assert !Occupied(observed, j);
      }
    }
    var ingress := At(observed.ingress, i);
    if ingress.Some? && ingress.value > p.ingressP99Threshold {
      forall j | i < j < |observed.ingress| ensures observed.ingress[j].None? {
        assert At(observed.ingress, j).None?;
      }
      NewestAboveIsUnhealthy(observed.ingress, RequiredPoints(p), p.ingressP99Threshold, i);
    } else {
      forall j | i < j < |observed.errorRate| ensures observed.errorRate[j].None? {
        assert At(observed.errorRate, j).None?;
      }
      NewestAboveIsUnhealthy(observed.errorRate, RequiredPoints(p), p.appErrorRateThreshold, i);
    }
  }

  // ---------------------------------------------------------------------
  // Demand
  // ---------------------------------------------------------------------

  lemma CeilIsLeast(x: real, n: int)
    ensures Ceil(x) <= n <==> x <= n as real
  {
  }

  lemma DivideCovers(x: real, d: real, n: real)
    requires d > 0.0
    ensures x / d <= n <==> x <= n * d
  {
    var q := x / d;
    assert q * d == x;
    if q <= n {
      TimesMonotoneReal(q, n, d);
    } else {
      TimesStrictReal(n, q, d);
    }
  }

  lemma TimesMonotoneReal(a: real, b: real, d: real)
    requires a <= b && d > 0.0
    ensures a * d <= b * d
  {
  }

  lemma TimesStrictReal(a: real, b: real, d: real)
    requires a < b && d > 0.0
    ensures a * d < b * d
  {
  }

  lemma {:induction false} MaxOfIsMax(values: seq<real>, n: nat, bound: real)
    requires 0 < n <= |values|
    ensures MaxOf(values, n) <= bound <==> forall i :: 0 <= i < n ==> values[i] <= bound
  {
    if n > 1 {
      MaxOfIsMax(values, n - 1, bound);
    }
  }

  /** n pods, at perPod each, are enough for every value with the safety factor on top. */
  predicate Covers(n: int, values: seq<real>, p: Policy, perPod: real) {
    forall i :: 0 <= i < |values| ==> values[i] * p.safetyFactor <= n as real * perPod
  }

  lemma ScaledBound(x: real, factor: real, bound: real)
    requires factor > 0.0
    ensures x <= bound / factor <==> x * factor <= bound
  {
    var q := bound / factor;
    assert q * factor == bound;
    if x <= q {
      TimesMonotoneReal(x, q, factor);
    } else {
      TimesStrictReal(q, x, factor);
    }
  }

  lemma PeakBounds(values: seq<real>, n: nat, factor: real, bound: real)
    requires 0 < n <= |values| && factor > 0.0
    ensures MaxOf(values, n) * factor <= bound <==> forall i :: 0 <= i < n ==> values[i] * factor <= bound
  {
    ScaledBound(MaxOf(values, n), factor, bound);
    MaxOfIsMax(values, n, bound / factor);
    forall i | 0 <= i < n ensures values[i] <= bound / factor <==> values[i] * factor <= bound {
      ScaledBound(values[i], factor, bound);
    }
  }

  lemma PodsForCovers(peak: real, factor: real, perPod: real, n: int)
    requires perPod > 0.0
    ensures PodsFor(peak, factor, perPod) <= n <==> peak * factor <= n as real * perPod
  {
    var scaled := peak * factor;
    CeilIsLeast(scaled / perPod, n);
    DivideCovers(scaled, perPod, n as real);
  }

  lemma DemandCovers(values: seq<real>, p: Policy, perPod: real, n: int)
    requires WellFormed(p) && perPod > 0.0 && |values| > 0
    ensures Demand(values, p, perPod) <= n <==> Covers(n, values, p, perPod)
  {
    PodsForCovers(MaxOf(values, |values|), p.safetyFactor, perPod, n);
    PeakBounds(values, |values|, p.safetyFactor, n as real * perPod);
  }

  /** The forecast demand is the least number of pods that covers every predicted minute on both signals. */
  lemma BaseDemandIsLeast(f: Forecast, p: Policy, n: nat)
    requires WellFormed(p)
    ensures BaseDemand(f, p) <= n <==>
            Covers(n, f.predictions, p, p.requestsPerPod) && Covers(n, f.cpuRows, p, p.cpuSecondsPerPod)
  {
    if |f.predictions| > 0 {
      DemandCovers(f.predictions, p, p.requestsPerPod, n);
    }
    if |f.cpuRows| > 0 {
      DemandCovers(f.cpuRows, p, p.cpuSecondsPerPod, n);
    }
  }

  // ---------------------------------------------------------------------
  // Cycles
  // ---------------------------------------------------------------------

  predicate Bounded(s: State, p: Policy) {
    0 <= s.bump && (p.reactiveMaxBump > 0 ==> s.bump <= p.reactiveMaxBump)
  }

  lemma NextBumpIsBounded(s: State, observed: Observed, p: Policy)
    requires WellFormed(p) && Bounded(s, p)
    ensures Bounded(s.(bump := NextBump(s.bump, observed, p)), p)
  {
  }

  lemma ProposedIsInRange(s: State, f: Forecast, p: Policy)
    requires WellFormed(p)
    ensures p.minReplicas <= DesiredReplicas(f, p) <= Proposed(s, f, p) <= p.maxReplicas
  {
  }

  /** One cycle leaves the replica count alone or puts it into the policy's range. */
  lemma CycleIsInRange(s: State, c: Cycle, p: Policy)
    requires WellFormed(p)
    ensures var t := Step(s, c, p);
      t.replicas == s.replicas || p.minReplicas <= Current(t) <= p.maxReplicas
  {
    if c.Forecasted? {
      ProposedIsInRange(s, c.forecast, p);
    }
  }

  /** A cycle lowers the deployment only when the guardrails allow it, so never under pressure. */
  lemma CycleUnderPressureNeverLowers(s: State, c: Cycle, p: Policy)
    requires p.scaleDownPolicy.Safe? && c.Forecasted? && SustainedPressure(c.forecast.observed, p)
    ensures Current(Step(s, c, p)) >= Current(s)
  {
    PressureRefusesScaleDown(c.forecast.observed, p);
  }

  /** Over any run: the bump is never negative nor above a positive maximum, and the replicas are as
      found or in the policy's range. */
  lemma {:induction false} RunStaysInRange(s: State, run: seq<Cycle>, p: Policy, n: nat)
    requires WellFormed(p) && n <= |run| && Bounded(s, p)
    ensures var t := After(s, run, p, n);
      Bounded(t, p) && (t.replicas == s.replicas || p.minReplicas <= Current(t) <= p.maxReplicas)
  {
    if n > 0 {
      RunStaysInRange(s, run, p, n - 1);
      var t := After(s, run, p, n - 1);
      CycleIsInRange(t, run[n - 1], p);
      if run[n - 1].Forecasted? {
        NextBumpIsBounded(t, run[n - 1].forecast.observed, p);
      }
    }
  }

  /** Under the safe policy a run in which every forecast shows pressure never lowers the deployment. */
  lemma {:induction false} RunUnderPressureNeverLowers(s: State, run: seq<Cycle>, p: Policy, n: nat)
    requires p.scaleDownPolicy.Safe? && n <= |run|
    requires forall i :: 0 <= i < n && run[i].Forecasted? ==> SustainedPressure(run[i].forecast.observed, p)
    ensures Current(After(s, run, p, n)) >= Current(s)
  {
    if n > 0 {
      RunUnderPressureNeverLowers(s, run, p, n - 1);
      if run[n - 1].Forecasted? {
        CycleUnderPressureNeverLowers(After(s, run, p, n - 1), run[n - 1], p);
      }
    }
  }

  // ---------------------------------------------------------------------
  // When the bump is bounded
  // ---------------------------------------------------------------------

  /** A history in which the required number of points shows too slow an ingress. */
  function PressedHistory(p: Policy): Observed
    requires WellFormed(p)
  {
    Observed(seq(p.reactiveRequiredPoints, _ => Some(p.ingressP99Threshold + 1.0)), [])
  }

  lemma {:induction false} PressedIsOccupied(p: Policy, n: nat)
    requires WellFormed(p) && n <= p.reactiveRequiredPoints
    ensures OccupiedCount(PressedHistory(p), 0, n) == n
  {
    if n > 0 {
      PressedIsOccupied(p, n - 1);
    }
  }

  lemma PressedIsPressure(p: Policy)
    requires WellFormed(p)
    ensures SustainedPressure(PressedHistory(p), p)
  {
    var n := p.reactiveRequiredPoints;
    PressedIsOccupied(p, n);
    WindowMeansPressure(PressedHistory(p), p, 0, n, 0);
  }

  /** A cycle whose forecast shows pressure and whose calls all succeed. */
  predicate UnderPressure(c: Cycle, p: Policy) {
    && c.Forecasted? && |c.forecast.predictions| > 0 && c.found && c.updated && c.patched
    && SustainedPressure(c.forecast.observed, p)
  }

  /** The bump after n increases from `bump`. */
  function Raised(bump: int, n: nat, p: Policy): int {
    var raised := bump + n * p.reactiveIncreaseStep;
    if p.reactiveMaxBump > 0 then Min(raised, p.reactiveMaxBump) else raised
  }

  lemma RaisedOnceMore(bump: int, n: nat, observed: Observed, p: Policy)
    requires WellFormed(p) && SustainedPressure(observed, p)
    ensures NextBump(Raised(bump, n, p), observed, p) == Raised(bump, n + 1, p)
  {
    assert (n + 1) * p.reactiveIncreaseStep == n * p.reactiveIncreaseStep + p.reactiveIncreaseStep;
  }

  lemma PressureRaises(s: State, c: Cycle, p: Policy)
    requires UnderPressure(c, p)
    ensures Step(s, c, p).bump == NextBump(s.bump, c.forecast.observed, p)
  {
  }

  /**
    The bump after any n cycles under pressure, in closed form: n increases, held at the maximum when
    there is one.
  */
  lemma {:induction false} PressureGrows(s: State, run: seq<Cycle>, p: Policy, n: nat)
    requires WellFormed(p) && Bounded(s, p) && n <= |run|
    requires forall i :: 0 <= i < n ==> UnderPressure(run[i], p)
    ensures After(s, run, p, n).bump == Raised(s.bump, n, p)
  {
    if n == 0 {
      assert After(s, run, p, n) == s;
    } else {
      var t, c := After(s, run, p, n - 1), run[n - 1];
      PressureGrows(s, run, p, n - 1);
      PressureRaises(t, c, p);
      RaisedOnceMore(s.bump, n - 1, c.forecast.observed, p);
    }
  }

  /** No run of cycles from a fresh scaler takes the bump above the limit. */
  ghost predicate NeverAbove(p: Policy, limit: int) {
    forall replicas, run: seq<Cycle> :: After(State(replicas, 0), run, p, |run|).bump <= limit
  }

  /**
    A maximum of zero is legal and means no maximum: the bump is bounded over all runs exactly when
    the configured maximum is positive.
  */
  lemma BumpIsBoundedExactly(p: Policy)
    requires WellFormed(p)
    ensures (exists limit :: NeverAbove(p, limit)) <==> p.reactiveMaxBump > 0
  {
    if p.reactiveMaxBump > 0 {
      forall replicas, run: seq<Cycle> ensures After(State(replicas, 0), run, p, |run|).bump <= p.reactiveMaxBump {
        RunStaysInRange(State(replicas, 0), run, p, |run|);
      }
      assert NeverAbove(p, p.reactiveMaxBump);
    } else {
      forall limit ensures !NeverAbove(p, limit) {
        PassesAnyLimit(p, limit);
      }
    }
  }

  /** Enough cycles under pressure, each with a prediction, pass any limit. */
  lemma PassesAnyLimit(p: Policy, limit: int)
    requires WellFormed(p) && p.reactiveMaxBump == 0
    ensures !NeverAbove(p, limit)
  {
    var n := Positive(limit) + 1;
    var cycle := Forecasted(Forecast([1.0], [], PressedHistory(p)), true, true, true);
    var run := seq(n, _ => cycle);
    PressedIsPressure(p);
    PressureGrows(State(None, 0), run, p, n);
    assert n * p.reactiveIncreaseStep >= n;
    assert After(State(None, 0), run, p, |run|).bump > limit;
  }
}
