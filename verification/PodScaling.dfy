/** The pod scaler: replica demand, reactive pressure, scale-down guardrails, and one cycle of all three. */
module PodScaling {
  import opened Common

  datatype ScaleDownPolicy = Safe | Dangerous | Unrecognised

  datatype Policy = Policy(
    requestsPerPod: real,
    cpuSecondsPerPod: real,
    safetyFactor: real,
    sparePod: int,
    minReplicas: int,
    maxReplicas: int,
    scaleDownPolicy: ScaleDownPolicy,
    appErrorRateThreshold: real,
    ingressP99Threshold: real,
    reactiveRequiredPoints: int,
    reactiveIncreaseStep: int,
    reactiveDecreaseStep: int,
    reactiveMaxBump: int,
    reactiveReplicaStep: int)

  /** Per-scaler overrides; None where the scaler's spec leaves the default. */
  datatype Overrides = Overrides(
    requestsPerPod: Option<real>,
    safetyFactor: Option<real>,
    sparePod: Option<int>,
    minReplicas: Option<int>,
    maxReplicas: Option<int>)

  /** A metric's history, oldest first; None for a gap. */
  type Series = seq<Option<real>>

  datatype Observed = Observed(ingress: Series, errorRate: Series)

  datatype Forecast = Forecast(predictions: seq<real>, cpuRows: seq<real>, observed: Observed)

  // ---------------------------------------------------------------------
  // Policy
  // ---------------------------------------------------------------------

  function Normalized(d: Policy): Policy {
    var minReplicas := if d.minReplicas <= 0 then 1 else d.minReplicas;
    Policy(
      if d.requestsPerPod <= 0.0 then 25.0 else d.requestsPerPod,
      if d.cpuSecondsPerPod <= 0.0 then 30.0 else d.cpuSecondsPerPod,
      if d.safetyFactor <= 0.0 then 1.1 else d.safetyFactor,
      if d.sparePod < 0 then 1 else d.sparePod,
      minReplicas,
      if d.maxReplicas < minReplicas then minReplicas else d.maxReplicas,
      if d.scaleDownPolicy.Unrecognised? then Dangerous else d.scaleDownPolicy,
      if d.appErrorRateThreshold <= 0.0 then 0.05 else d.appErrorRateThreshold,
      if d.ingressP99Threshold <= 0.0 then 0.5 else d.ingressP99Threshold,
      if d.reactiveRequiredPoints <= 0 then 2 else d.reactiveRequiredPoints,
      if d.reactiveIncreaseStep <= 0 then 1 else d.reactiveIncreaseStep,
      if d.reactiveDecreaseStep <= 0 then 2 else d.reactiveDecreaseStep,
      if d.reactiveMaxBump < 0 then 10 else d.reactiveMaxBump,
      if d.reactiveReplicaStep < 0 then 2 else d.reactiveReplicaStep)
  }

  /** An override counts when it is at least the least value allowed. */
  function CountOr(override: Option<int>, least: int, default_: int): int {
    if override.Some? && override.value >= least then override.value else default_
  }

  function PositiveOr(override: Option<real>, default_: real): real {
    if override.Some? && override.value > 0.0 then override.value else default_
  }

  function PolicyFor(defaults: Policy, spec: Overrides): Policy {
    var d := Normalized(defaults);
    var minReplicas := CountOr(spec.minReplicas, 1, d.minReplicas);
    var maxReplicas := CountOr(spec.maxReplicas, 1, d.maxReplicas);
    d.(requestsPerPod := PositiveOr(spec.requestsPerPod, d.requestsPerPod),
       safetyFactor := PositiveOr(spec.safetyFactor, d.safetyFactor),
       sparePod := CountOr(spec.sparePod, 0, d.sparePod),
       minReplicas := minReplicas,
       maxReplicas := if maxReplicas < minReplicas then minReplicas else maxReplicas)
  }

  /** What every policy in force satisfies. */
  predicate WellFormed(p: Policy) {
    && p.requestsPerPod > 0.0 && p.cpuSecondsPerPod > 0.0 && p.safetyFactor > 0.0
    && p.sparePod >= 0 && 1 <= p.minReplicas <= p.maxReplicas
    && p.reactiveRequiredPoints >= 1 && p.reactiveIncreaseStep >= 1 && p.reactiveDecreaseStep >= 1
    && p.reactiveMaxBump >= 0 && p.reactiveReplicaStep >= 0
  }

  lemma PolicyInForceIsWellFormed(defaults: Policy, spec: Overrides)
    ensures WellFormed(PolicyFor(defaults, spec))
  {
    assert WellFormed(Normalized(defaults));
  }

  // ---------------------------------------------------------------------
  // Guardrails
  // ---------------------------------------------------------------------

  function RequiredPoints(p: Policy): int { if p.reactiveRequiredPoints <= 0 then 1 else p.reactiveRequiredPoints }

  /** The newest values among the first n points, newest first, at most `limit` of them. */
  function Recent(series: Series, limit: int, n: nat): seq<real>
    requires n <= |series|
  {
    if limit <= 0 || n == 0 then []
    else match series[n - 1]
      case None => Recent(series, limit, n - 1)
      case Some(v) => [v] + Recent(series, limit - 1, n - 1)
  }

  predicate AtMost(values: seq<real>, threshold: real) {
    forall i :: 0 <= i < |values| ==> values[i] <= threshold
  }

  /** Enough recent values, and none of them above the threshold. */
  predicate Healthy(series: Series, required: int, threshold: real) {
    var recent := Recent(series, required, |series|);
    |recent| >= required && AtMost(recent, threshold)
  }

  predicate ScaleDownAllowed(observed: Observed, p: Policy) {
    p.scaleDownPolicy.Safe? ==>
      && Healthy(observed.errorRate, RequiredPoints(p), p.appErrorRateThreshold)
      && Healthy(observed.ingress, RequiredPoints(p), p.ingressP99Threshold)
  }

  function At(series: Series, i: int): Option<real> {
    if 0 <= i < |series| then series[i] else None
  }

  predicate Occupied(observed: Observed, i: int) {
    At(observed.ingress, i).Some? || At(observed.errorRate, i).Some?
  }

  predicate Triggered(observed: Observed, p: Policy, i: int) {
    var ingress, errorRate := At(observed.ingress, i), At(observed.errorRate, i);
    || (ingress.Some? && ingress.value > p.ingressP99Threshold)
    || (errorRate.Some? && errorRate.value > p.appErrorRateThreshold)
  }

  function Length(observed: Observed): nat {
    if |observed.errorRate| > |observed.ingress| then |observed.errorRate| else |observed.ingress|
  }

  /** The scan from point n - 1 backwards with `collected` triggered points already seen. */
  predicate PressureFrom(observed: Observed, p: Policy, n: nat, collected: int) {
    if collected >= RequiredPoints(p) then true
    else if n == 0 then false
    else if !Occupied(observed, n - 1) then PressureFrom(observed, p, n - 1, collected)
    else Triggered(observed, p, n - 1) && PressureFrom(observed, p, n - 1, collected + 1)
  }

  predicate SustainedPressure(observed: Observed, p: Policy) {
    PressureFrom(observed, p, Length(observed), 0)
  }

  function NextBump(bump: int, observed: Observed, p: Policy): int {
    if SustainedPressure(observed, p) then
      var next := bump + p.reactiveIncreaseStep;
      if p.reactiveMaxBump > 0 && next > p.reactiveMaxBump then p.reactiveMaxBump else next
    else Positive(bump - p.reactiveDecreaseStep)
  }

  lemma Regrouped(values: seq<real>, v: real, rest: seq<real>)
    ensures values + ([v] + rest) == (values + [v]) + rest
  {
  }

  method RecentNonNilValues(series: Series, limit: int) returns (values: seq<real>)
    ensures values == Recent(series, limit, |series|)
  {
    values := [];
    if limit <= 0 || |series| == 0 {
      return;
    }
    var index := |series| - 1;
    while index >= 0 && |values| < limit
      invariant -1 <= index < |series| && |values| <= limit
      invariant values + Recent(series, limit - |values|, index + 1) == Recent(series, limit, |series|)
    {
      if series[index].Some? {
        ghost var rest := Recent(series, limit - |values| - 1, index);
        Regrouped(values, series[index].value, rest);
        values := values + [series[index].value];
      }
      index := index - 1;
    }
    assert Recent(series, limit - |values|, index + 1) == [];
  }

  method FirstAbove(values: seq<real>, threshold: real) returns (found: bool)
    ensures found <==> !AtMost(values, threshold)
  {
    for i := 0 to |values|
      invariant forall j :: 0 <= j < i ==> values[j] <= threshold
    {
      if values[i] > threshold {
        return true;
      }
    }
    return false;
  }

  method AllowScaleDown(observed: Observed, p: Policy) returns (allowed: bool)
    ensures allowed <==> ScaleDownAllowed(observed, p)
  {
    if !p.scaleDownPolicy.Safe? {
      return true;
    }
    if |observed.errorRate| == 0 || |observed.ingress| == 0 {
      return false;
    }
    var required := p.reactiveRequiredPoints;
    if required <= 0 {
      required := 1;
    }
    var errorRates := RecentNonNilValues(observed.errorRate, required);
    var ingress := RecentNonNilValues(observed.ingress, required);
    if |errorRates| < required || |ingress| < required {
      return false;
    }
    var above := FirstAbove(errorRates, p.appErrorRateThreshold);
    if above {
      return false;
    }
    above := FirstAbove(ingress, p.ingressP99Threshold);
    return !above;
  }

  method HasSustainedReactivePressure(observed: Observed, p: Policy) returns (pressure: bool)
    ensures pressure <==> SustainedPressure(observed, p)
  {
    var required := p.reactiveRequiredPoints;
    if required <= 0 {
      required := 1;
    }
    var maxSeriesLength := |observed.ingress|;
    if |observed.errorRate| > maxSeriesLength {
      maxSeriesLength := |observed.errorRate|;
    }
    if maxSeriesLength == 0 {
      return false;
    }
    var collected, offset := 0, 0;
    while offset < maxSeriesLength && collected < required
      invariant 0 <= offset <= maxSeriesLength
      invariant PressureFrom(observed, p, maxSeriesLength - offset, collected) <==> SustainedPressure(observed, p)
    {
      var index := maxSeriesLength - 1 - offset;
      var ingress, errorRate := At(observed.ingress, index), At(observed.errorRate, index);
      offset := offset + 1;
      if ingress.Some? || errorRate.Some? {
        collected := collected + 1;
        var ingressTriggered := ingress.Some? && ingress.value > p.ingressP99Threshold;
        var errorRateTriggered := errorRate.Some? && errorRate.value > p.appErrorRateThreshold;
        if !ingressTriggered && !errorRateTriggered {
          return false;
        }
      }
    }
    return collected >= required;
  }

  method NextReactivePressureBump(bump: int, observed: Observed, p: Policy) returns (next: int)
    ensures next == NextBump(bump, observed, p)
  {
    var underPressure := HasSustainedReactivePressure(observed, p);
    if underPressure {
      next := bump + p.reactiveIncreaseStep;
      if p.reactiveMaxBump > 0 && next > p.reactiveMaxBump {
        next := p.reactiveMaxBump;
      }
      return;
    }
    next := bump - p.reactiveDecreaseStep;
    if next < 0 {
      next := 0;
    }
  }

  // ---------------------------------------------------------------------
  // Demand
  // ---------------------------------------------------------------------

  function Ceil(x: real): int { if x.Floor as real == x then x.Floor else x.Floor + 1 }

  /** The largest of the first n values, zero when there are none. */
  function MaxOf(values: seq<real>, n: nat): real
    requires n <= |values|
  {
    if n == 0 then 0.0
    else if n == 1 || values[n - 1] > MaxOf(values, n - 1) then values[n - 1]
    else MaxOf(values, n - 1)
  }

  function PodsFor(peak: real, safetyFactor: real, perPod: real): int
    requires perPod > 0.0
  {
    Ceil(peak * safetyFactor / perPod)
  }

  function Demand(values: seq<real>, p: Policy, perPod: real): int {
    if |values| > 0 && perPod > 0.0 then PodsFor(MaxOf(values, |values|), p.safetyFactor, perPod) else 0
  }

  function BaseDemand(forecast: Forecast, p: Policy): int {
    Positive(Max(Demand(forecast.cpuRows, p, p.cpuSecondsPerPod), Demand(forecast.predictions, p, p.requestsPerPod)))
  }

  function Clamped(x: int, p: Policy): int {
    var raised := if x < p.minReplicas then p.minReplicas else x;
    if raised > p.maxReplicas then p.maxReplicas else raised
  }

  function DesiredReplicas(forecast: Forecast, p: Policy): int {
    var demand := BaseDemand(forecast, p);
    Clamped(if demand > 0 then demand + p.sparePod else demand, p)
  }

  method MaxFloat(values: seq<real>) returns (m: real)
    ensures m == MaxOf(values, |values|)
  {
    if |values| == 0 {
      return 0.0;
    }
    m := values[0];
    for i := 1 to |values|
      invariant m == MaxOf(values, i)
    {
      if values[i] > m {
        m := values[i];
      }
    }
  }

  method CalculateDesiredReplicas(forecast: Forecast, p: Policy) returns (desired: int)
    ensures desired == DesiredReplicas(forecast, p)
  {
    var requestDemand, cpuDemand := 0, 0;
    if |forecast.predictions| > 0 {
      var peak := MaxFloat(forecast.predictions);
      if p.requestsPerPod > 0.0 {
        requestDemand := PodsFor(peak, p.safetyFactor, p.requestsPerPod);
      }
    }
    if |forecast.cpuRows| > 0 {
      var peak := MaxFloat(forecast.cpuRows);
      if p.cpuSecondsPerPod > 0.0 {
        cpuDemand := PodsFor(peak, p.safetyFactor, p.cpuSecondsPerPod);
      }
    }
    assert requestDemand == Demand(forecast.predictions, p, p.requestsPerPod);
    assert cpuDemand == Demand(forecast.cpuRows, p, p.cpuSecondsPerPod);
    var base := requestDemand;
    if cpuDemand > base {
      base := cpuDemand;
    }
    if base < 0 {
      base := 0;
    }
    assert base == BaseDemand(forecast, p);
    desired := base;
    if base > 0 {
      desired := desired + p.sparePod;
    }
    if desired < p.minReplicas {
      desired := p.minReplicas;
    }
    if desired > p.maxReplicas {
      desired := p.maxReplicas;
    }
  }

  // ---------------------------------------------------------------------
  // One cycle
  // ---------------------------------------------------------------------

  /** The deployment's replica field and the persisted reactive bump. */
  datatype State = State(replicas: Option<int>, bump: int)

  /** What a cycle meets: no usable response, or a response and the outcome of each later call. A
      response without predictions is rejected when it is parsed. */
  datatype Cycle =
    | NoForecast
    | Forecasted(forecast: Forecast, found: bool, updated: bool, patched: bool)

  function Current(s: State): int { if s.replicas.None? then 1 else s.replicas.value }

  /** Forecast demand raised by the reactive bump. */
  function Proposed(s: State, f: Forecast, p: Policy): int {
    var desired, raise := DesiredReplicas(f, p), NextBump(s.bump, f.observed, p) * p.reactiveReplicaStep;
    if raise > 0 then Min(desired + raise, p.maxReplicas) else desired
  }

  function Applied(s: State, f: Forecast, p: Policy): int {
    var proposed := Proposed(s, f, p);
    if proposed < Current(s) && !ScaleDownAllowed(f.observed, p) then Current(s) else proposed
  }

  function Step(s: State, c: Cycle, p: Policy): State {
    match c
    case NoForecast => s
    case Forecasted(f, found, updated, patched) =>
      if |f.predictions| == 0 || !found then s
      else
        var desired := Applied(s, f, p);
        if desired != Current(s) && !updated then s
        else State(if desired != Current(s) then Some(desired) else s.replicas,
                   if patched then NextBump(s.bump, f.observed, p) else s.bump)
  }

  /** The state after the first n cycles of a run. */
  function After(s: State, run: seq<Cycle>, p: Policy, n: nat): State
    requires n <= |run|
  {
    if n == 0 then s else Step(After(s, run, p, n - 1), run[n - 1], p)
  }

  class PodScalingReconciler {
    var replicas: Option<int>
    var reactivePressureBump: int

    ghost function View(): State
      reads this
    {
      State(replicas, reactivePressureBump)
    }

    constructor (replicas: Option<int>)
      ensures View() == State(replicas, 0)
    {
      this.replicas, reactivePressureBump := replicas, 0;
    }

    method Reconcile(c: Cycle, p: Policy)
      modifies this
      ensures View() == Step(old(View()), c, p)
    {
      if c.NoForecast? || |c.forecast.predictions| == 0 {
        return;
      }
      var nextPressureBump := NextReactivePressureBump(reactivePressureBump, c.forecast.observed, p);
      var desiredReplicas := CalculateDesiredReplicas(c.forecast, p);
      var pressureReplicaBump := nextPressureBump * p.reactiveReplicaStep;
      if pressureReplicaBump > 0 {
        desiredReplicas := desiredReplicas + pressureReplicaBump;
        if desiredReplicas > p.maxReplicas {
          desiredReplicas := p.maxReplicas;
        }
      }
      if !c.found {
        return;
      }
      var currentReplicas := 1;
      if replicas.Some? {
        currentReplicas := replicas.value;
      }
      if desiredReplicas < currentReplicas {
        var scaleDownAllowed := AllowScaleDown(c.forecast.observed, p);
        if !scaleDownAllowed {
          desiredReplicas := currentReplicas;
        }
      }
      if currentReplicas != desiredReplicas {
        if !c.updated {
          return;
        }
        replicas := Some(desiredReplicas);
      }
      if c.patched {
        reactivePressureBump := nextPressureBump;
      }
    }
  }
}
