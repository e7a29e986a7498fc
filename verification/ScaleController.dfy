/** The instance-scaling control loop: one Observe-Decide-Act cycle over the controller's fields. */
module ScaleController {
  import opened Basics
  import opened ScalePolicy
  import opened StabilizationWindow
  import ClusterApi
  import LeastSquares

  type DataPoint = LeastSquares.DataPoint
  type History = map<string, seq<DataPoint>>

  const MAX_HISTORY_SIZE: int := 2880

  /** What the attached predictor answers when it is asked. */
  datatype Forecast = NoPredictor | PredictorFailed | Forecast(value: real)

  /** One poll as the environment presents it: the snapshot (None when observing failed), every clock reading the
      source takes on the way, and what the API calls return. */
  datatype Poll = Poll(
    observed: Option<Values>,
    observedAt: int,
    currentReadable: bool,
    guardAt: int,
    recordAt: int,
    predictAt: int,
    forecast: Forecast,
    patchReachable: bool,
    delivery: ClusterApi.Delivery,
    actAt: int)

  /** The controller's fields together with the one field of the Cluster it owns. */
  datatype State = State(history: History, window: seq<Record>, lastScaleAt: Option<int>, instances: int)

  // ---- One cycle, as functions ---------------------------------------------------------

  function Capped(points: seq<DataPoint>): seq<DataPoint> {
    if |points| > MAX_HISTORY_SIZE then points[|points| - MAX_HISTORY_SIZE..] else points
  }

  function PointsOf(h: History, name: string): seq<DataPoint> {
    if name in h then h[name] else []
  }

  /** The series after one reading is appended to each metric named. */
  function AppendedFor(h: History, values: Values, names: set<string>, at: int): History
    requires names <= values.Keys
  {
    map name | name in h.Keys + names ::
      if name in names then Capped(PointsOf(h, name) + [LeastSquares.DataPoint(at, values[name])]) else h[name]
  }

  function Appended(h: History, values: Values, at: int): History {
    AppendedFor(h, values, values.Keys, at)
  }

  lemma {:induction false} AppendedNext(h: History, values: Values, names: set<string>, name: string, at: int)
    requires names <= values.Keys && name in values && name !in names
    ensures var done := AppendedFor(h, values, names, at);
            AppendedFor(h, values, names + {name}, at)
            == done[name := Capped(PointsOf(done, name) + [LeastSquares.DataPoint(at, values[name])])]
  {
    var done := AppendedFor(h, values, names, at);
    assert PointsOf(done, name) == PointsOf(h, name);
  }

  predicate InCooldown(cfg: Config, lastScaleAt: Option<int>, now: int) {
    lastScaleAt.Some? && now - lastScaleAt.value < cfg.cooldown
  }

  /** The replicas wanted by the forecast metric: the first spec of that name decides. */
  function DesiredOfMetric(metrics: seq<MetricSpec>, name: string, value: real, current: int): Result<int> {
    if metrics == [] then Err
    else if metrics[0].name == name then Ok(Desired(metrics[0], value, current))
    else DesiredOfMetric(metrics[1..], name, value, current)
  }

  /** -1 means "not ready"; an error means the predictor failed or its metric is not configured. */
  function PredictiveTarget(cfg: Config, pred: Prediction, h: History, now: int, forecast: Forecast, current: int)
    : Result<int>
  {
    var points := PointsOf(h, pred.metricName);
    if points == [] then Ok(-1)
    else if pred.minHistoryDuration > 0 && now - points[0].at < pred.minHistoryDuration then Ok(-1)
    else if !forecast.Forecast? then Err
    else DesiredOfMetric(cfg.metrics, pred.metricName, forecast.value, current)
  }

  /** An error leaves the predictive target at 0, as does having no predictor to ask. */
  function PredictiveOrZero(cfg: Config, h: History, now: int, forecast: Forecast, current: int): int {
    if cfg.prediction.Some? && cfg.prediction.value.enabled && !forecast.NoPredictor? then
      match PredictiveTarget(cfg, cfg.prediction.value, h, now, forecast, current)
      case Ok(target) => target
      case Err => 0
    else 0
  }

  /** The poll gets as far as recording a reactive target. */
  predicate Decides(cfg: Config, s: State, p: Poll) {
    p.observed.Some? && p.currentReadable && !InCooldown(cfg, s.lastScaleAt, p.guardAt)
  }

  function RawTarget(cfg: Config, s: State, p: Poll): int
    requires p.observed.Some?
  {
    ReactiveTarget(cfg, p.observed.value, s.instances)
  }

  ghost function DecisionAt(cfg: Config, s: State, p: Poll): Decision
    requires p.observed.Some?
  {
    Decided(cfg, p.observed.value, s.instances,
            Stabilized(s.window, p.recordAt, RawTarget(cfg, s, p), cfg.stabilizationWindow),
            PredictiveOrZero(cfg, Appended(s.history, p.observed.value, p.observedAt), p.predictAt, p.forecast,
                             s.instances))
  }

  predicate WriteLands(p: Poll) {
    p.patchReachable && p.delivery != ClusterApi.NotDelivered
  }

  predicate WriteAcknowledged(p: Poll) {
    p.patchReachable && p.delivery == ClusterApi.Delivered
  }

  ghost function AfterPoll(cfg: Config, s: State, p: Poll): State {
    if p.observed.None? then s
    else
      var h := Appended(s.history, p.observed.value, p.observedAt);
      if !Decides(cfg, s, p) then s.(history := h)
      else
        var d := DecisionAt(cfg, s, p);
        State(h,
              Push(s.window, p.recordAt, RawTarget(cfg, s, p), cfg.stabilizationWindow),
              if d.action != ScaleNone && WriteAcknowledged(p) then Some(p.actAt) else s.lastScaleAt,
              if d.action != ScaleNone && WriteLands(p) then d.target else s.instances)
  }

  // ---- The controller object ----------------------------------------------------------------

  class Controller {
    var cfg: Config
    var history: History
    var reactiveTargetWindow: seq<Record>
    var lastScaleAt: Option<int>
    const client: ClusterApi.CnpgClient

    ghost function View(): State
      reads this, client, client.api
    {
      State(history, reactiveTargetWindow, lastScaleAt, client.api.stored.instances)
    }

    constructor (cfg: Config, client: ClusterApi.CnpgClient)
      ensures this.cfg == cfg && this.client == client
      ensures View() == State(map[], [], None, client.api.stored.instances)
    {
      this.cfg := cfg;
      this.client := client;
      history := map[];
      reactiveTargetWindow := [];
      lastScaleAt := None;
    }

    method UpdateConfig(cfg: Config)
      modifies this`cfg
      ensures this.cfg == cfg
    {
      this.cfg := cfg;
    }

    /** One point more in one series, the oldest ones dropped beyond the capacity. */
    method AppendPoint(name: string, point: DataPoint)
      modifies this`history
      ensures history == old(history)[name := Capped(PointsOf(old(history), name) + [point])]
    {
      var points := PointsOf(history, name) + [point];
      if |points| > MAX_HISTORY_SIZE {
        points := points[|points| - MAX_HISTORY_SIZE..];
      }
      history := history[name := points];
    }

    method AppendHistory(values: Values, at: int)
      modifies this`history
      ensures history == Appended(old(history), values, at)
    {
      var names := values.Keys;
      while names != {}
        invariant names <= values.Keys
        invariant history == AppendedFor(old(history), values, values.Keys - names, at)
        decreases |names|
      {
        var name :| name in names;
        AppendedNext(old(history), values, values.Keys - names, name, at);
        AppendPoint(name, LeastSquares.DataPoint(at, values[name]));
        assert values.Keys - names + {name} == values.Keys - (names - {name});
        names := names - {name};
      }
      assert values.Keys - {} == values.Keys;
    }

    method StabilizedReactiveTarget(reactiveTarget: int, window: int, now: int) returns (maxTarget: int)
      modifies this`reactiveTargetWindow
      ensures maxTarget == Stabilized(old(reactiveTargetWindow), now, reactiveTarget, window)
      ensures reactiveTargetWindow == Push(old(reactiveTargetWindow), now, reactiveTarget, window)
    {
      if window <= 0 {
        return reactiveTarget;
      }
      var cutoff := now - window;
      reactiveTargetWindow := reactiveTargetWindow + [Record(now, reactiveTarget)];
      var i := 0;
      while i < |reactiveTargetWindow| && reactiveTargetWindow[i].at < cutoff
        invariant i <= |reactiveTargetWindow|
        invariant DropBefore(reactiveTargetWindow[i..], cutoff) == DropBefore(reactiveTargetWindow, cutoff)
      {
        assert reactiveTargetWindow[i..][1..] == reactiveTargetWindow[i + 1..];
        i := i + 1;
      }
      reactiveTargetWindow := reactiveTargetWindow[i..];

      maxTarget := reactiveTarget;
      for j := 0 to |reactiveTargetWindow|
        invariant maxTarget == MaxTarget(reactiveTargetWindow[..j], reactiveTarget)
      {
        assert Init(reactiveTargetWindow[..j + 1]) == reactiveTargetWindow[..j];
        if reactiveTargetWindow[j].target > maxTarget {
          maxTarget := reactiveTargetWindow[j].target;
        }
      }
      assert reactiveTargetWindow[..|reactiveTargetWindow|] == reactiveTargetWindow;
    }

    method ComputePredictiveTarget(pred: Prediction, now: int, forecast: Forecast,
                                   current: int) returns (r: Result<int>)
      ensures r == PredictiveTarget(cfg, pred, history, now, forecast, current)
    {
      var points := PointsOf(history, pred.metricName);
      if |points| == 0 {
        return Ok(-1);
      }
      if pred.minHistoryDuration > 0 {
        var age := now - points[0].at;
        if age < pred.minHistoryDuration {
          return Ok(-1);
        }
      }
      if !forecast.Forecast? {
        return Err;
      }
      for i := 0 to |cfg.metrics|
        invariant DesiredOfMetric(cfg.metrics, pred.metricName, forecast.value, current)
               == DesiredOfMetric(cfg.metrics[i..], pred.metricName, forecast.value, current)
      {
        if cfg.metrics[i].name == pred.metricName {
          return Ok(Desired(cfg.metrics[i], forecast.value, current));
        }
        assert cfg.metrics[i..][1..] == cfg.metrics[i + 1..];
      }
      return Err;
    }

    method Decide(p: Poll) returns (r: Result<Decision>)
      requires p.observed.Some?
      modifies this`reactiveTargetWindow
      ensures r.Err? <==> !p.currentReadable
      ensures !Decides(cfg, old(View()), p) ==> reactiveTargetWindow == old(reactiveTargetWindow)
      ensures r.Ok? && !Decides(cfg, old(View()), p) ==>
                r.value.action == ScaleNone && r.value.target == old(View()).instances
      ensures Decides(cfg, old(View()), p) ==>
                && reactiveTargetWindow == Push(old(reactiveTargetWindow), p.recordAt, RawTarget(cfg, old(View()), p),
                                                cfg.stabilizationWindow)
                && r == Ok(Decided(cfg, p.observed.value, old(View()).instances,
                                   Stabilized(old(reactiveTargetWindow), p.recordAt, RawTarget(cfg, old(View()), p),
                                              cfg.stabilizationWindow),
                                   PredictiveOrZero(cfg, history, p.predictAt, p.forecast, old(View()).instances)))
    {
      var got := client.GetCurrentInstances(p.currentReadable);
      if got.Err? {
        return Err;
      }
      var current := got.value;
      var values := p.observed.value;
      if InCooldown(cfg, lastScaleAt, p.guardAt) {
        return Ok(Decision(ScaleNone, current, 0, 0));
      }
      var rawReactive := ComputeReactiveTarget(cfg, values, current);
      var reactiveTarget := StabilizedReactiveTarget(rawReactive, cfg.stabilizationWindow, p.recordAt);

      var predictiveTarget := 0;
      if cfg.prediction.Some? && cfg.prediction.value.enabled && !p.forecast.NoPredictor? {
        var pt := ComputePredictiveTarget(cfg.prediction.value, p.predictAt, p.forecast, current);
        if pt.Ok? {
          predictiveTarget := pt.value;
        }
      }
      var target := Clamp(ModeTarget(cfg.scalingMode, current, reactiveTarget, predictiveTarget),
                          cfg.minInstances, cfg.maxInstances);
      if target < current {
        var blocked := ScaleDownBlocked(cfg.metrics, values);
        if blocked {
          target := current;
        }
      }
      r := Ok(Decision(ActionFor(target, current), target, reactiveTarget, predictiveTarget));
    }

    method Act(d: Decision, p: Poll) returns (ok: bool)
      modifies this`lastScaleAt, client.api
      ensures d.action == ScaleNone ==> ok && unchanged(this`lastScaleAt) && unchanged(client.api)
      ensures d.action != ScaleNone ==>
                && (ok <==> WriteAcknowledged(p))
                && lastScaleAt == (if ok then Some(p.actAt) else old(lastScaleAt))
                && client.api.stored.instances == (if WriteLands(p) then d.target else old(client.api.stored.instances))
      ensures client.api.stored.pgdata == old(client.api.stored.pgdata)
      ensures client.api.stored.wal == old(client.api.stored.wal)
    {
      if d.action == ScaleNone {
        return true;
      }
      ok := client.PatchInstances(d.target, p.patchReachable, p.delivery);
      if ok {
        lastScaleAt := Some(p.actAt);
      }
    }

    /** One cycle does what `AfterPoll` says, and touches nothing of the Cluster but the instance count. */
    method ReconcileOnce(p: Poll)
      modifies this`history, this`reactiveTargetWindow, this`lastScaleAt, client.api
      ensures View() == AfterPoll(cfg, old(View()), p)
      ensures client.api.stored.pgdata == old(client.api.stored.pgdata)
      ensures client.api.stored.wal == old(client.api.stored.wal)
    {
      if p.observed.None? {
        return;
      }
      AppendHistory(p.observed.value, p.observedAt);
      var decision := Decide(p);
      if decision.Err? {
        return;
      }
      var ok := Act(decision.value, p);
    }
  }

  // ---- The accumulating loops ------------------------------------------------------------------

  method ComputeReactiveTarget(cfg: Config, values: Values, current: int) returns (target: int)
    ensures target == ReactiveTarget(cfg, values, current)
  {
    if |cfg.metrics| == 0 {
      return current;
    }
    var desires: seq<Desire> := [];
    for i := 0 to |cfg.metrics|
      invariant desires == Desires(cfg.metrics[..i], values, current)
    {
      assert Init(cfg.metrics[..i + 1]) == cfg.metrics[..i];
      var spec := cfg.metrics[i];
      if spec.name !in values {
        continue;
      }
      var desired := Desired(spec, values[spec.name], current);
      if spec.scaleUpOnly && desired < current {
        continue;
      }
      var w := spec.weight;
      if w <= 0.0 {
        w := 1.0;
      }
      desires := desires + [Desire(desired, w)];
    }
    assert cfg.metrics[..|cfg.metrics|] == cfg.metrics;
    if |desires| == 0 {
      return current;
    }
    match cfg.aggregation
    case AggregationWeightedAverage =>
      var average := AverageOf(desires);
      target := Ceil(average);
    case AggregationMax =>
      target := MaxSlice(desires);
  }

  method AverageOf(desires: seq<Desire>) returns (average: real)
    ensures average == WeightedAverage(desires)
  {
    var totalWeight, sum := 0.0, 0.0;
    for i := 0 to |desires|
      invariant sum == WeightedSum(desires[..i]) && totalWeight == TotalWeight(desires[..i])
    {
      assert Init(desires[..i + 1]) == desires[..i];
      sum := sum + desires[i].count as real * desires[i].weight;
      totalWeight := totalWeight + desires[i].weight;
    }
    assert desires[..|desires|] == desires;
    if totalWeight == 0.0 {
      return 0.0;
    }
    average := sum / totalWeight;
  }

  method MaxSlice(desires: seq<Desire>) returns (m: int)
    requires desires != []
    ensures m == MaxCount(desires)
  {
    m := desires[0].count;
    for i := 1 to |desires|
      invariant m == MaxCount(desires[..i])
    {
      assert Init(desires[..i + 1]) == desires[..i];
      if desires[i].count > m {
        m := desires[i].count;
      }
    }
    assert desires[..|desires|] == desires;
  }

  method ScaleDownBlocked(metrics: seq<MetricSpec>, values: Values) returns (blocked: bool)
    ensures blocked <==> GuardHolds(metrics, values)
  {
    for i := 0 to |metrics|
      invariant !GuardHolds(metrics[..i], values)
    {
      var spec := metrics[i];
      assert spec in metrics;
      if spec.scaleDownGuard && spec.name in values && values[spec.name] > spec.scaleDownThreshold {
        return true;
      }
      assert forall m :: m in metrics[..i + 1] ==> m in metrics[..i] || m == spec;
    }
    assert metrics[..|metrics|] == metrics;
    return false;
  }
}
