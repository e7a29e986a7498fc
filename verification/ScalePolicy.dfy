/** The decision rules of the instance-scaling controller, from metric values to a target count. */
module ScalePolicy {
  import opened Basics
  import RealAlgebra

  datatype MetricSpec = MetricSpec(
    name: string,
    scaleUpThreshold: real,
    scaleDownThreshold: real,
    weight: real,
    targetValuePerReplica: real,
    scaleDownGuard: bool,
    scaleUpOnly: bool)

  datatype Aggregation = AggregationMax | AggregationWeightedAverage

  datatype ScalingMode = Reactive | Predictive | Hybrid

  datatype Prediction = Prediction(enabled: bool, metricName: string, horizon: int, minHistoryDuration: int)

  datatype Config = Config(
    minInstances: int,
    maxInstances: int,
    metrics: seq<MetricSpec>,
    aggregation: Aggregation,
    cooldown: int,
    scalingMode: ScalingMode,
    stabilizationWindow: int,
    prediction: Option<Prediction>) {

    /** What `validateConfig` demands of the fields the decision reads. */
    ghost predicate Valid() {
      && 1 <= minInstances <= maxInstances
      && (prediction.Some? && prediction.value.enabled ==>
            prediction.value.metricName != "" && prediction.value.horizon > 0)
    }
  }

  /** One reading per reported metric. */
  type Values = map<string, real>

  function Clamp(v: int, min: int, max: int): int {
    if v < min then min else if v > max then max else v
  }

  /** Nothing in the range is nearer to the value. */
  lemma {:induction false} ClampIsNearest(v: int, min: int, max: int, x: int)
    requires min <= x <= max
    ensures min <= Clamp(v, min, max) <= max
    ensures MaxInt(v - Clamp(v, min, max), Clamp(v, min, max) - v) <= MaxInt(v - x, x - v)
  {
  }

  function Desired(spec: MetricSpec, value: real, current: int): int {
    if spec.targetValuePerReplica > 0.0 then Ceil(value / spec.targetValuePerReplica)
    else if value >= spec.scaleUpThreshold then current + 1
    else if value <= spec.scaleDownThreshold then current - 1
    else current
  }

  /** A ratio metric asks for the least count whose combined target covers the value. */
  lemma {:induction false} RatioDesiredIsLeast(spec: MetricSpec, value: real, current: int, n: int)
    requires spec.targetValuePerReplica > 0.0
    ensures value <= n as real * spec.targetValuePerReplica <==> n >= Desired(spec, value, current)
  {
    var (t, least) := (spec.targetValuePerReplica, Desired(spec, value, current));
    var q := value / t;
    assert q * t == value && least as real - 1.0 < q <= least as real;
    if n as real < q {
      var gap := RealAlgebra.SameSign(q - n as real, t);
    } else {
      RealAlgebra.ProductNonNegative(n as real - q, t);
    }
    assert (q - n as real) * t == value - n as real * t;
    assert (n as real - q) * t == n as real * t - value;
    assert n as real >= q <==> n >= least;
  }

  /** A threshold metric asks for one more exactly from the upper threshold on, and for one less exactly up to the
      lower threshold; where the thresholds overlap the upper one wins. */
  lemma {:induction false} ThresholdDesiredExactly(spec: MetricSpec, value: real, current: int)
    requires spec.targetValuePerReplica <= 0.0
    ensures Desired(spec, value, current) == current + 1 <==> value >= spec.scaleUpThreshold
    ensures Desired(spec, value, current) == current - 1
       <==> value <= spec.scaleDownThreshold && value < spec.scaleUpThreshold
    ensures current - 1 <= Desired(spec, value, current) <= current + 1
  {
  }

  /** With instances running, a forecast is taken for "not ready" exactly when it lies between one and two negative
      targets of a ratio metric. */
  lemma {:induction false} TakenForNotReadyExactly(spec: MetricSpec, value: real, current: int)
    requires current >= 1
    ensures Desired(spec, value, current) == -1
       <==> var t := spec.targetValuePerReplica; t > 0.0 && -2.0 * t < value <= -t
  {
    if spec.targetValuePerReplica > 0.0 {
      RatioDesiredIsLeast(spec, value, current, -1);
      RatioDesiredIsLeast(spec, value, current, -2);
    }
  }

  // ---- Aggregation ----------------------------------------------------------------

  datatype Desire = Desire(count: int, weight: real)

  function Weight(spec: MetricSpec): (w: real)
    ensures w > 0.0
  {
    if spec.weight <= 0.0 then 1.0 else spec.weight
  }

  predicate Counts(spec: MetricSpec, values: Values, current: int) {
    spec.name in values && !(spec.scaleUpOnly && Desired(spec, values[spec.name], current) < current)
  }

  /** The desires that enter the aggregation: missing metrics and suppressed scale-downs are skipped. */
  function Desires(metrics: seq<MetricSpec>, values: Values, current: int): seq<Desire> {
    if metrics == [] then []
    else
      var (rest, spec) := (Desires(Init(metrics), values, current), Last(metrics));
      if Counts(spec, values, current)
      then rest + [Desire(Desired(spec, values[spec.name], current), Weight(spec))]
      else rest
  }

  function MaxCount(ds: seq<Desire>): int
    requires ds != []
  {
    if |ds| == 1 then ds[0].count else MaxInt(MaxCount(Init(ds)), Last(ds).count)
  }

  function WeightedSum(ds: seq<Desire>): real {
    if ds == [] then 0.0 else WeightedSum(Init(ds)) + Last(ds).count as real * Last(ds).weight
  }

  function TotalWeight(ds: seq<Desire>): real {
    if ds == [] then 0.0 else TotalWeight(Init(ds)) + Last(ds).weight
  }

  function WeightedAverage(ds: seq<Desire>): real {
    if TotalWeight(ds) == 0.0 then 0.0 else WeightedSum(ds) / TotalWeight(ds)
  }

  function Aggregate(aggregation: Aggregation, ds: seq<Desire>): int
    requires ds != []
  {
    match aggregation
    case AggregationWeightedAverage => Ceil(WeightedAverage(ds))
    case AggregationMax => MaxCount(ds)
  }

  function ReactiveTarget(cfg: Config, values: Values, current: int): int {
    var ds := Desires(cfg.metrics, values, current);
    if ds == [] then current else Aggregate(cfg.aggregation, ds)
  }

  lemma {:induction false} MaxCountIsMax(ds: seq<Desire>)
    requires ds != []
    ensures forall d :: d in ds ==> d.count <= MaxCount(ds)
    ensures exists d :: d in ds && d.count == MaxCount(ds)
  {
    assert Last(ds) in ds;
    if |ds| > 1 {
      MaxCountIsMax(Init(ds));
      forall d | d in ds
        ensures d.count <= MaxCount(ds)
      {
        assert d in Init(ds) || d == Last(ds);
      }
    } else {
      assert ds[0] in ds;
    }
  }

  // ---- Whose wish counts, stated over the metrics -----------------------------------------------

  /** The metric is reported, and if it may only scale up it asks for no less than there is. */
  ghost predicate HasSay(spec: MetricSpec, values: Values, current: int) {
    && spec.name in values
    && (spec.scaleUpOnly ==> Desired(spec, values[spec.name], current) >= current)
  }

  lemma {:induction false} DesireIsTheirs(metrics: seq<MetricSpec>, values: Values, current: int, d: Desire)
    requires d in Desires(metrics, values, current)
    ensures exists spec :: spec in metrics && HasSay(spec, values, current)
                        && d.count == Desired(spec, values[spec.name], current)
  {
    var (rest, last) := (Init(metrics), Last(metrics));
    if d in Desires(rest, values, current) {
      DesireIsTheirs(rest, values, current, d);
      var spec :| spec in rest && HasSay(spec, values, current) && d.count == Desired(spec, values[spec.name], current);
      assert spec in metrics;
    } else {
      assert last in metrics;
    }
  }

  lemma {:induction false} SayIsDesire(metrics: seq<MetricSpec>, values: Values, current: int, spec: MetricSpec)
    requires spec in metrics && HasSay(spec, values, current)
    ensures exists d :: d in Desires(metrics, values, current)
                     && d.count == Desired(spec, values[spec.name], current)
  {
    var (ds, rest) := (Desires(metrics, values, current), Desires(Init(metrics), values, current));
    if spec == Last(metrics) {
      assert Last(ds) in ds;
    } else {
      SayIsDesire(Init(metrics), values, current, spec);
      var d :| d in rest && d.count == Desired(spec, values[spec.name], current);
      assert d in ds;
    }
  }

  lemma {:induction false} DesiresAreTheirs(metrics: seq<MetricSpec>, values: Values, current: int)
    ensures forall d :: d in Desires(metrics, values, current) ==>
              exists spec :: spec in metrics && HasSay(spec, values, current)
                          && d.count == Desired(spec, values[spec.name], current)
    ensures forall spec :: spec in metrics && HasSay(spec, values, current) ==>
              exists d :: d in Desires(metrics, values, current) && d.count == Desired(spec, values[spec.name], current)
  {
    forall d | d in Desires(metrics, values, current)
      ensures exists spec :: spec in metrics && HasSay(spec, values, current)
                          && d.count == Desired(spec, values[spec.name], current)
    {
      DesireIsTheirs(metrics, values, current, d);
    }
    forall spec | spec in metrics && HasSay(spec, values, current)
      ensures exists d :: d in Desires(metrics, values, current) && d.count == Desired(spec, values[spec.name], current)
    {
      SayIsDesire(metrics, values, current, spec);
    }
  }

  ghost predicate SomeHasSay(metrics: seq<MetricSpec>, values: Values, current: int) {
    exists spec :: spec in metrics && HasSay(spec, values, current)
  }

  /** With the maximum the target is the least count that satisfies every metric with a say, and the current count
      when there is none. */
  lemma {:induction false} MaxTargetExactly(cfg: Config, values: Values, current: int, n: int)
    requires cfg.aggregation == AggregationMax
    ensures SomeHasSay(cfg.metrics, values, current) ==>
              (ReactiveTarget(cfg, values, current) <= n
               <==> forall spec :: spec in cfg.metrics && HasSay(spec, values, current) ==>
                      Desired(spec, values[spec.name], current) <= n)
    ensures !SomeHasSay(cfg.metrics, values, current) ==> ReactiveTarget(cfg, values, current) == current
  {
    var ds := Desires(cfg.metrics, values, current);
    DesiresAreTheirs(cfg.metrics, values, current);
    if ds != [] {
      assert ds[0] in ds;
      MaxCountIsMax(ds);
    }
  }

  lemma {:induction false} DesiresWeighted(metrics: seq<MetricSpec>, values: Values, current: int)
    ensures forall d :: d in Desires(metrics, values, current) ==> d.weight > 0.0
  {
    if metrics != [] {
      DesiresWeighted(Init(metrics), values, current);
    }
  }

  lemma {:induction false} WeightedSumBounds(ds: seq<Desire>, lo: int, hi: int)
    requires forall d :: d in ds ==> d.weight > 0.0 && lo <= d.count <= hi
    ensures lo as real * TotalWeight(ds) <= WeightedSum(ds) <= hi as real * TotalWeight(ds)
    ensures ds != [] ==> TotalWeight(ds) > 0.0
  {
    if ds != [] {
      var last := Last(ds);
      assert last in ds;
      WeightedSumBounds(Init(ds), lo, hi);
      WeightedTerm(last.count as real, last.weight, lo as real, hi as real, TotalWeight(Init(ds)),
                   WeightedSum(Init(ds)), TotalWeight(ds), WeightedSum(ds));
      assert Init(ds) == [] ==> TotalWeight(Init(ds)) == 0.0;
    }
  }

  lemma {:induction false} WeightedTerm(c: real, w: real, lo: real, hi: real, total: real, sum: real,
                                        total': real, sum': real)
    requires w > 0.0 && lo <= c <= hi && lo * total <= sum <= hi * total
    requires total' == total + w && sum' == sum + c * w
    ensures lo * total' <= sum' <= hi * total'
  {
    RealAlgebra.ProductNonNegative(c - lo, w);
    RealAlgebra.ProductNonNegative(hi - c, w);
    assert lo * (total + w) == lo * total + lo * w;
    assert hi * (total + w) == hi * total + hi * w;
    assert (c - lo) * w == c * w - lo * w;
    assert (hi - c) * w == hi * w - c * w;
  }

  /** Both aggregations stay between the smallest and the largest desire. */
  lemma {:induction false} AggregateWithinDesires(aggregation: Aggregation, ds: seq<Desire>, lo: int, hi: int)
    requires ds != [] && forall d :: d in ds ==> d.weight > 0.0 && lo <= d.count <= hi
    ensures lo <= Aggregate(aggregation, ds) <= hi
  {
    match aggregation
    case AggregationMax =>
      MaxCountIsMax(ds);
    case AggregationWeightedAverage =>
      WeightedSumBounds(ds, lo, hi);
      QuotientBounds(WeightedSum(ds), TotalWeight(ds), lo as real, hi as real);
      CeilMonotone(lo as real, WeightedAverage(ds));
      CeilMonotone(WeightedAverage(ds), hi as real);
  }

  lemma {:induction false} QuotientBounds(sum: real, total: real, lo: real, hi: real)
    requires total > 0.0 && lo * total <= sum <= hi * total
    ensures lo <= sum / total <= hi
  {
    var q := sum / total;
    assert q * total == sum;
    if q < lo {
      var gap := RealAlgebra.SameSign(lo - q, total);
    }
    if q > hi {
      var gap := RealAlgebra.SameSign(q - hi, total);
    }
  }

  // ---- Monotonicity in the load -------------------------------------------------------

  ghost predicate SameReported(metrics: seq<MetricSpec>, low: Values, high: Values) {
    forall spec :: spec in metrics ==>
      (spec.name in low <==> spec.name in high) && (spec.name in low ==> low[spec.name] <= high[spec.name])
  }

  lemma {:induction false} DesiredMonotone(spec: MetricSpec, low: real, high: real, current: int)
    requires low <= high
    ensures Desired(spec, low, current) <= Desired(spec, high, current)
  {
    if spec.targetValuePerReplica > 0.0 {
      QuotientMonotone(low, high, spec.targetValuePerReplica);
      CeilMonotone(low / spec.targetValuePerReplica, high / spec.targetValuePerReplica);
    }
  }

  lemma {:induction false} QuotientMonotone(x: real, y: real, d: real)
    requires x <= y && d > 0.0
    ensures x / d <= y / d
  {
    var (p, q) := (x / d, y / d);
    assert p * d == x && q * d == y;
    if p > q {
      var gap := RealAlgebra.SameSign(p - q, d);
    }
  }

  /** Raising the load adds desires and raises them, and whatever joins wants at least the current count. */
  lemma {:induction false} DesiresRise(metrics: seq<MetricSpec>, low: Values, high: Values, current: int)
    requires SameReported(metrics, low, high)
    ensures var (a, b) := (Desires(metrics, low, current), Desires(metrics, high, current));
            && (forall d :: d in a ==> exists e :: e in b && d.count <= e.count)
            && (a == [] ==> forall e :: e in b ==> e.count >= current)
  {
    if metrics != [] {
      var spec := Last(metrics);
      assert spec in metrics;
      DesiresRise(Init(metrics), low, high, current);
      var (a, b) := (Desires(metrics, low, current), Desires(metrics, high, current));
      var (a', b') := (Desires(Init(metrics), low, current), Desires(Init(metrics), high, current));
      assert forall e :: e in b' ==> e in b;
      if spec.name in low {
        DesiredMonotone(spec, low[spec.name], high[spec.name], current);
      }
      forall d | d in a
        ensures exists e :: e in b && d.count <= e.count
      {
        if d !in a' {
          assert d.count <= Last(b).count && Last(b) in b;
        }
      }
    }
  }

  /** With the max aggregation a larger load never lowers the reactive target. */
  lemma {:induction false} ReactiveTargetMonotone(cfg: Config, low: Values, high: Values, current: int)
    requires cfg.aggregation == AggregationMax && SameReported(cfg.metrics, low, high)
    ensures ReactiveTarget(cfg, low, current) <= ReactiveTarget(cfg, high, current)
  {
    var (a, b) := (Desires(cfg.metrics, low, current), Desires(cfg.metrics, high, current));
    DesiresRise(cfg.metrics, low, high, current);
    if a != [] {
      MaxCountRises(a, b);
    } else if b != [] {
      MaxCountIsMax(b);
    }
  }

  lemma {:induction false} MaxCountRises(a: seq<Desire>, b: seq<Desire>)
    requires a != [] && forall d :: d in a ==> exists e :: e in b && d.count <= e.count
    ensures b != [] && MaxCount(a) <= MaxCount(b)
  {
    MaxCountIsMax(a);
    var d :| d in a && d.count == MaxCount(a);
    var e :| e in b && d.count <= e.count;
    MaxCountIsMax(b);
  }

  // ---- From targets to a decision -----------------------------------------------------------

  datatype Action = ScaleNone | ScaleUp | ScaleDown

  datatype Decision = Decision(action: Action, target: int, reactive: int, predictive: int)

  function ActionFor(target: int, current: int): Action {
    if target > current then ScaleUp else if target < current then ScaleDown else ScaleNone
  }

  /** The mode's choice between the two targets; -1 is the forecast's "not ready yet". */
  function ModeTarget(mode: ScalingMode, current: int, reactive: int, predictive: int): int {
    match mode
    case Reactive => reactive
    case Predictive => if predictive == -1 then current else predictive
    case Hybrid => if predictive == -1 then reactive else MaxInt(reactive, predictive)
  }

  ghost predicate GuardHolds(metrics: seq<MetricSpec>, values: Values) {
    exists spec :: spec in metrics && spec.scaleDownGuard && spec.name in values
                && values[spec.name] > spec.scaleDownThreshold
  }

  /** The guards let a scale-down through exactly when every reported guard metric is down to its threshold. */
  lemma {:induction false} GuardsLetGoExactly(metrics: seq<MetricSpec>, values: Values)
    ensures !GuardHolds(metrics, values)
       <==> forall spec :: spec in metrics && spec.scaleDownGuard && spec.name in values ==>
              values[spec.name] <= spec.scaleDownThreshold
  {
  }

  ghost function GuardedTarget(cfg: Config, values: Values, current: int, target: int): int {
    if target < current && GuardHolds(cfg.metrics, values) then current else target
  }

  ghost function FinalTarget(cfg: Config, values: Values, current: int, reactive: int, predictive: int): int {
    GuardedTarget(cfg, values, current,
                  Clamp(ModeTarget(cfg.scalingMode, current, reactive, predictive), cfg.minInstances, cfg.maxInstances))
  }

  ghost function Decided(cfg: Config, values: Values, current: int, reactive: int, predictive: int): Decision {
    var target := FinalTarget(cfg, values, current, reactive, predictive);
    Decision(ActionFor(target, current), target, reactive, predictive)
  }

  /** A target with an action is in range, there is no action exactly at the current count, and the final target is in
      range exactly when the current count is at most the maximum or no guard holds it. */
  lemma {:induction false} ActionInRange(cfg: Config, values: Values, current: int, reactive: int, predictive: int)
    requires cfg.Valid()
    ensures var d := Decided(cfg, values, current, reactive, predictive);
            && (d.action != ScaleNone ==> cfg.minInstances <= d.target <= cfg.maxInstances)
            && (d.action == ScaleNone <==> d.target == current)
            && (cfg.minInstances <= d.target <= cfg.maxInstances
                <==> current <= cfg.maxInstances || !GuardHolds(cfg.metrics, values))
  {
  }

  /** A guard metric above its threshold keeps five instances where four are allowed. */
  lemma {:induction false} GuardKeepsOutOfRange()
    ensures exists cfg: Config, values: Values, current: int, reactive: int, predictive: int ::
              && cfg.Valid() && Decided(cfg, values, current, reactive, predictive).target > cfg.maxInstances
  {
    var spec := MetricSpec("lag", 0.0, 1.0, 1.0, 0.0, true, false);
    var cfg := Config(1, 4, [spec], AggregationMax, 0, Reactive, 0, None);
    var values := map["lag" := 2.0];
    assert spec in cfg.metrics;
    assert GuardHolds(cfg.metrics, values);
    assert Decided(cfg, values, 5, 1, 0).target == 5;
  }

  /** A larger predictive target, and never from "not ready" to a number unless there is nothing to hold. */
  ghost predicate ForecastsRise(current: int, predictive: int, predictive': int) {
    predictive <= predictive' && (predictive == -1 && predictive' != -1 ==> current <= 0)
  }

  /** Everything after the reactive target is monotone in both targets and in the load the guards see. */
  lemma {:induction false} FinalTargetMonotone(cfg: Config, low: Values, high: Values, current: int,
                                               reactive: int, reactive': int, predictive: int, predictive': int)
    requires cfg.Valid() && SameReported(cfg.metrics, low, high) && reactive <= reactive'
    requires cfg.scalingMode == Reactive || ForecastsRise(current, predictive, predictive')
    ensures FinalTarget(cfg, low, current, reactive, predictive)
         <= FinalTarget(cfg, high, current, reactive', predictive')
  {
    if GuardHolds(cfg.metrics, low) {
      var spec :| spec in cfg.metrics && spec.scaleDownGuard && spec.name in low
               && low[spec.name] > spec.scaleDownThreshold;
      assert high[spec.name] > spec.scaleDownThreshold;
      assert GuardHolds(cfg.metrics, high);
    }
  }
}
