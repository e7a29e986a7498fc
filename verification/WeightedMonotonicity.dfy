/** When a larger load can lower the weighted average of the metrics' desires, and when it cannot. */
module WeightedMonotonicity {
  import opened Basics
  import opened ScalePolicy
  import RealAlgebra

  lemma {:induction false} DesireRange(ds: seq<Desire>) returns (lo: int, hi: int)
    ensures forall d :: d in ds ==> lo <= d.count <= hi
  {
    if ds == [] {
      lo, hi := 0, 0;
    } else {
      lo, hi := DesireRange(Init(ds));
      lo, hi := MinInt(lo, Last(ds).count), MaxInt(hi, Last(ds).count);
      forall d | d in ds
        ensures lo <= d.count <= hi
      {
        assert d in Init(ds) || d == Last(ds);
      }
    }
  }

  /** How far the weighted desires lie above the current count, in all. */
  function Surplus(ds: seq<Desire>, current: int): real {
    WeightedSum(ds) - current as real * TotalWeight(ds)
  }

  lemma {:induction false} SurplusOfAppend(ds: seq<Desire>, d: Desire, current: int)
    ensures Surplus(ds + [d], current) == Surplus(ds, current) + (d.count - current) as real * d.weight
    ensures TotalWeight(ds + [d]) == TotalWeight(ds) + d.weight
  {
    assert Init(ds + [d]) == ds;
    SurplusTerm(WeightedSum(ds), TotalWeight(ds), d.count as real, d.weight, current as real);
  }

  lemma {:induction false} SurplusTerm(sum: real, total: real, c: real, w: real, x: real)
    ensures sum + c * w - x * (total + w) == sum - x * total + (c - x) * w
  {
  }

  /** What one metric adds to the surplus, and to the weight. */
  function Lift(spec: MetricSpec, values: Values, current: int): real {
    if Counts(spec, values, current) then (Desired(spec, values[spec.name], current) - current) as real * Weight(spec)
    else 0.0
  }

  function Mass(spec: MetricSpec, values: Values, current: int): real {
    if Counts(spec, values, current) then Weight(spec) else 0.0
  }

  lemma {:induction false} SumsStep(metrics: seq<MetricSpec>, values: Values, current: int)
    requires metrics != []
    ensures var (ds, rest) := (Desires(metrics, values, current), Desires(Init(metrics), values, current));
            var spec := Last(metrics);
            && Surplus(ds, current) == Surplus(rest, current) + Lift(spec, values, current)
            && TotalWeight(ds) == TotalWeight(rest) + Mass(spec, values, current)
  {
    var (rest, spec) := (Desires(Init(metrics), values, current), Last(metrics));
    if Counts(spec, values, current) {
      SurplusOfAppend(rest, Desire(Desired(spec, values[spec.name], current), Weight(spec)), current);
    }
  }

  lemma {:induction false} LiftRises(spec: MetricSpec, low: Values, high: Values, current: int)
    requires SameReported([spec], low, high)
    ensures Lift(spec, low, current) <= Lift(spec, high, current)
    ensures Mass(spec, low, current) <= Mass(spec, high, current)
    ensures Mass(spec, low, current) != Mass(spec, high, current) ==> spec.scaleUpOnly && !Counts(spec, low, current)
  {
    assert spec in [spec];
    if spec.name in low {
      var (c, d, w) := (Desired(spec, low[spec.name], current), Desired(spec, high[spec.name], current), Weight(spec));
      DesiredMonotone(spec, low[spec.name], high[spec.name], current);
      RealAlgebra.ProductNonNegative((d - c) as real, w);
      assert (d - current) as real * w - (c - current) as real * w == (d - c) as real * w;
      if d >= current {
        RealAlgebra.ProductNonNegative((d - current) as real, w);
      }
    }
  }

  ghost predicate Joins(metrics: seq<MetricSpec>, low: Values, current: int) {
    exists spec :: spec in metrics && spec.scaleUpOnly && !Counts(spec, low, current)
  }

  /** A larger load never lowers the surplus or the weight, and adds weight only through scale-up-only metrics. */
  lemma {:induction false} SurplusRises(metrics: seq<MetricSpec>, low: Values, high: Values, current: int)
    requires SameReported(metrics, low, high)
    ensures var (a, b) := (Desires(metrics, low, current), Desires(metrics, high, current));
            && Surplus(a, current) <= Surplus(b, current)
            && TotalWeight(a) <= TotalWeight(b)
            && (TotalWeight(a) != TotalWeight(b) ==> Joins(metrics, low, current))
  {
    if metrics != [] {
      var spec := Last(metrics);
      assert spec in metrics;
      SurplusRises(Init(metrics), low, high, current);
      assert Joins(Init(metrics), low, current) ==> Joins(metrics, low, current);
      SumsStep(metrics, low, current);
      SumsStep(metrics, high, current);
      LiftRises(spec, low, high, current);
    }
  }

  /** What keeps the weighted average monotone: beside a scale-up-only metric there is no other ratio metric. */
  ghost predicate NoRatioBesideScaleUpOnly(metrics: seq<MetricSpec>) {
    forall a, b :: a in metrics && b in metrics && a.scaleUpOnly && a != b ==> b.targetValuePerReplica <= 0.0
  }

  lemma {:induction false} CountedAreThresholds(metrics: seq<MetricSpec>, all: seq<MetricSpec>, values: Values,
                                                current: int)
    requires NoRatioBesideScaleUpOnly(all) && Joins(all, values, current)
    requires forall spec :: spec in metrics ==> spec in all
    ensures forall d :: d in Desires(metrics, values, current) ==> d.count <= current + 1
  {
    if metrics != [] {
      assert Last(metrics) in metrics;
      CountedAreThresholds(Init(metrics), all, values, current);
    }
  }

  lemma {:induction false} AverageRises(sum: real, total: real, sum': real, total': real, x: real)
    requires 0.0 < total <= total' && sum - x * total <= sum' - x * total'
    requires total == total' || sum - x * total <= 0.0
    ensures sum / total <= sum' / total'
  {
    var (p, q) := (sum / total, sum' / total');
    assert p * total == sum && q * total' == sum';
    assert (x - p) * (total' - total) >= 0.0 by {
      if total != total' {
        assert total * (p - x) == sum - x * total;
        RealAlgebra.NonPositiveFactor(total, p - x);
        RealAlgebra.ProductNonNegative(x - p, total' - total);
      }
    }
    assert (x - p) * (total' - total) == x * total' - p * total' - x * total + p * total;
    if p > q {
      var gap := RealAlgebra.SameSign(p - q, total');
    }
  }

  lemma {:induction false} AverageAbove(sum: real, total: real, x: real)
    requires total > 0.0 && sum - x * total > 0.0
    ensures sum / total > x
  {
    var q := sum / total;
    assert q * total == sum;
    if q <= x {
      RealAlgebra.ProductNonNegative(x - q, total);
    }
  }

  /** With the weighted average the reactive target is monotone in the load under that condition. */
  lemma {:induction false} WeightedTargetMonotone(cfg: Config, low: Values, high: Values, current: int)
    requires cfg.aggregation == AggregationWeightedAverage && SameReported(cfg.metrics, low, high)
    requires NoRatioBesideScaleUpOnly(cfg.metrics)
    ensures ReactiveTarget(cfg, low, current) <= ReactiveTarget(cfg, high, current)
  {
    var a, b := Desires(cfg.metrics, low, current), Desires(cfg.metrics, high, current);
    SurplusRises(cfg.metrics, low, high, current);
    WeightIsPositive(cfg.metrics, low, current);
    WeightIsPositive(cfg.metrics, high, current);
    if a == [] && b != [] {
      AverageFloor(b, current);
    } else if a != [] {
      if TotalWeight(a) == TotalWeight(b) || Surplus(a, current) <= 0.0 {
        AverageRises(WeightedSum(a), TotalWeight(a), WeightedSum(b), TotalWeight(b), current as real);
        CeilMonotone(WeightedAverage(a), WeightedAverage(b));
      } else {
        OnlyThresholdsBelow(cfg.metrics, low, current);
        AverageAbove(WeightedSum(b), TotalWeight(b), current as real);
        assert Ceil(WeightedAverage(b)) >= current + 1;
      }
    }
  }

  lemma {:induction false} WeightIsPositive(metrics: seq<MetricSpec>, values: Values, current: int)
    ensures var ds := Desires(metrics, values, current);
            if ds == [] then TotalWeight(ds) == 0.0 else TotalWeight(ds) > 0.0
  {
    var ds := Desires(metrics, values, current);
    DesiresWeighted(metrics, values, current);
    var lo, hi := DesireRange(ds);
    WeightedSumBounds(ds, lo, hi);
  }

  lemma {:induction false} AverageFloor(ds: seq<Desire>, current: int)
    requires TotalWeight(ds) > 0.0 && Surplus(ds, current) >= 0.0
    ensures Ceil(WeightedAverage(ds)) >= current
  {
    QuotientAtLeast(WeightedSum(ds), TotalWeight(ds), current as real);
    CeilMonotone(current as real, WeightedAverage(ds));
  }

  lemma {:induction false} OnlyThresholdsBelow(metrics: seq<MetricSpec>, low: Values, current: int)
    requires NoRatioBesideScaleUpOnly(metrics) && Joins(metrics, low, current)
    requires Desires(metrics, low, current) != []
    ensures Ceil(WeightedAverage(Desires(metrics, low, current))) <= current + 1
  {
    var ds := Desires(metrics, low, current);
    CountedAreThresholds(metrics, metrics, low, current);
    DesiresWeighted(metrics, low, current);
    var lo, hi := DesireRange(ds);
    AggregateWithinDesires(AggregationWeightedAverage, ds, lo, current + 1);
  }

  // ---- What the weighted target is -----------------------------------------------------------------

  /** A metric with a say pulls at a count n by its distance from what it asks for times its weight; a weight that is
      not positive counts as one. */
  ghost function PullOf(spec: MetricSpec, values: Values, current: int, n: int): real {
    if !HasSay(spec, values, current) then 0.0
    else (Desired(spec, values[spec.name], current) - n) as real * if spec.weight > 0.0 then spec.weight else 1.0
  }

  ghost function Pull(metrics: seq<MetricSpec>, values: Values, current: int, n: int): real {
    if metrics == [] then 0.0
    else Pull(Init(metrics), values, current, n) + PullOf(Last(metrics), values, current, n)
  }

  lemma {:induction false} SurplusStep(metrics: seq<MetricSpec>, values: Values, current: int, n: int)
    requires metrics != []
    ensures Surplus(Desires(metrics, values, current), n)
         == Surplus(Desires(Init(metrics), values, current), n) + PullOf(Last(metrics), values, current, n)
  {
    var (rest, spec) := (Desires(Init(metrics), values, current), Last(metrics));
    if HasSay(spec, values, current) {
      SurplusOfAppend(rest, Desire(Desired(spec, values[spec.name], current), Weight(spec)), n);
    }
  }

  lemma {:induction false} PullIsSurplus(metrics: seq<MetricSpec>, values: Values, current: int, n: int)
    ensures Pull(metrics, values, current, n) == Surplus(Desires(metrics, values, current), n)
  {
    if metrics == [] {
      NoSurplus(n);
    } else {
      PullIsSurplus(Init(metrics), values, current, n);
      SurplusStep(metrics, values, current, n);
    }
  }

  lemma {:induction false} NoSurplus(n: int)
    ensures Surplus([], n) == 0.0
  {
  }

  /** The weighted target is the least count at which the metrics no longer pull upwards on balance. */
  lemma {:induction false} WeightedTargetExactly(cfg: Config, values: Values, current: int, n: int)
    requires cfg.aggregation == AggregationWeightedAverage
    ensures SomeHasSay(cfg.metrics, values, current) ==>
              (ReactiveTarget(cfg, values, current) <= n <==> Pull(cfg.metrics, values, current, n) <= 0.0)
    ensures !SomeHasSay(cfg.metrics, values, current) ==> ReactiveTarget(cfg, values, current) == current
  {
    var ds := Desires(cfg.metrics, values, current);
    DesiresAreTheirs(cfg.metrics, values, current);
    PullIsSurplus(cfg.metrics, values, current, n);
    if ds != [] {
      assert ds[0] in ds;
      WeightIsPositive(cfg.metrics, values, current);
      AverageAtMostExactly(ds, n);
    }
  }

  lemma {:induction false} AverageAtMostExactly(ds: seq<Desire>, n: int)
    requires TotalWeight(ds) > 0.0
    ensures Ceil(WeightedAverage(ds)) <= n <==> Surplus(ds, n) <= 0.0
  {
    var (sum, total) := (WeightedSum(ds), TotalWeight(ds));
    if Surplus(ds, n) <= 0.0 {
      QuotientAtMost(sum, total, n as real);
      CeilMonotone(sum / total, n as real);
    } else {
      AverageAbove(sum, total, n as real);
    }
  }

  // ---- Where the condition fails ------------------------------------------------------------

  ghost predicate MonotoneInLoad(cfg: Config) {
    forall low: Values, high: Values, current: int
      {:trigger ReactiveTarget(cfg, low, current), ReactiveTarget(cfg, high, current)} ::
      SameReported(cfg.metrics, low, high) ==>
        ReactiveTarget(cfg, low, current) <= ReactiveTarget(cfg, high, current)
  }

  ghost predicate DistinctNames(metrics: seq<MetricSpec>) {
    forall i, j :: 0 <= i < j < |metrics| ==> metrics[i].name != metrics[j].name
  }

  /** A reading at which the metric asks for that many replicas, where it can ask for them. */
  function ReadingFor(spec: MetricSpec, count: int, current: int): real {
    if spec.targetValuePerReplica > 0.0 then count as real * spec.targetValuePerReplica
    else if count > current then spec.scaleUpThreshold
    else MinReal(spec.scaleUpThreshold, spec.scaleDownThreshold) - 1.0
  }

  lemma {:induction false} Quotient(x: real, y: real) returns (q: real)
    requires y != 0.0
    ensures q == (x * y) / y && q == x
  {
    q := (x * y) / y;
    assert y * q == x * y;
    RealAlgebra.CancelFactor(y, q, x);
  }

  lemma {:induction false} RatioAsksFor(spec: MetricSpec, value: real, count: int, current: int)
    requires spec.targetValuePerReplica > 0.0 && value == count as real * spec.targetValuePerReplica
    ensures Desired(spec, value, current) == count
  {
    var q := value / spec.targetValuePerReplica;
    assert q * spec.targetValuePerReplica == value;
    RealAlgebra.CancelFactor(spec.targetValuePerReplica, q, count as real);
  }

  lemma {:induction false} ReadingAsksFor(spec: MetricSpec, count: int, current: int)
    requires spec.targetValuePerReplica > 0.0 || count == current + 1 || count == current - 1
    ensures Desired(spec, ReadingFor(spec, count, current), current) == count
  {
    if spec.targetValuePerReplica > 0.0 {
      RatioAsksFor(spec, ReadingFor(spec, count, current), count, current);
    }
  }

  lemma {:induction false} ReadingRises(spec: MetricSpec, current: int)
    ensures ReadingFor(spec, current - 1, current) <= ReadingFor(spec, current + 1, current)
  {
    if spec.targetValuePerReplica > 0.0 {
      var t := spec.targetValuePerReplica;
      assert (current + 1) as real * t - (current - 1) as real * t == 2.0 * t;
    }
  }

  /** What one metric contributes when nothing else is reported under its name. */
  function Share(spec: MetricSpec, metrics: seq<MetricSpec>, values: Values, current: int): seq<Desire> {
    if spec in metrics && Counts(spec, values, current)
    then [Desire(Desired(spec, values[spec.name], current), Weight(spec))] else []
  }

  /** Only two of the metrics are reported: theirs are the desires, in one order or the other. */
  lemma {:induction false} OnlyTwoReported(metrics: seq<MetricSpec>, a: MetricSpec, b: MetricSpec, values: Values,
                                           current: int)
    requires DistinctNames(metrics) && a.name != b.name && values.Keys == {a.name, b.name}
    requires forall spec :: spec in metrics ==>
               (spec.name == a.name ==> spec == a) && (spec.name == b.name ==> spec == b)
    ensures var (x, y) := (Share(a, metrics, values, current), Share(b, metrics, values, current));
            Desires(metrics, values, current) == x + y || Desires(metrics, values, current) == y + x
  {
    if metrics != [] {
      var (rest, spec) := (Init(metrics), Last(metrics));
      assert spec in metrics && forall s :: s in metrics <==> s in rest || s == spec;
      assert spec !in rest;
      OnlyTwoReported(rest, a, b, values, current);
    }
  }

  lemma {:induction false} OneAverage(d: Desire)
    requires d.weight > 0.0
    ensures WeightedAverage([d]) == d.count as real
  {
    assert Init([d]) == [] && Last([d]) == d;
    assert TotalWeight(Init([d])) == 0.0 && WeightedSum(Init([d])) == 0.0;
    var average := Quotient(d.count as real, d.weight);
  }

  /** Adding a desire for two replicas to a large enough one pulls the average down by at least one. */
  lemma {:induction false} TwoAverage(ds: seq<Desire>, d: Desire, e: Desire)
    requires ds == [d, e] || ds == [e, d]
    requires d.weight > 0.0 && e.weight > 0.0 && d.count == 2 && e.count >= 3 + Ceil(e.weight / d.weight)
    ensures Ceil(WeightedAverage(ds)) < e.count
  {
    var (v, w) := (d.weight, e.weight);
    assert Init(ds) == [ds[0]] && Init([ds[0]]) == [];
    assert TotalWeight([ds[0]]) == ds[0].weight && WeightedSum([ds[0]]) == ds[0].count as real * ds[0].weight;
    assert TotalWeight(ds) == v + w && WeightedSum(ds) == 2.0 * v + e.count as real * w;
    assert e.count as real - 3.0 >= Ceil(w / v) as real;
    PairAverage(v, w, e.count as real, WeightedSum(ds), TotalWeight(ds));
    assert (e.count - 1) as real == e.count as real - 1.0;
    CeilMonotone(WeightedAverage(ds), (e.count - 1) as real);
  }

  lemma {:induction false} PairAverage(v: real, w: real, c: real, sum: real, total: real)
    requires v > 0.0 && w > 0.0 && c - 3.0 >= w / v
    requires sum == 2.0 * v + c * w && total == v + w
    ensures sum / total <= c - 1.0
  {
    assert (w / v) * v == w;
    RealAlgebra.ProductNonNegative(c - 3.0 - w / v, v);
    assert (c - 3.0 - w / v) * v == c * v - 3.0 * v - (w / v) * v;
    assert (c - 1.0) * (v + w) == c * v + c * w - v - w;
    QuotientAtMost(sum, total, c - 1.0);
  }

  lemma {:induction false} QuotientAtLeast(x: real, y: real, q: real)
    requires y > 0.0 && x - q * y >= 0.0
    ensures x / y >= q
  {
    var r := x / y;
    assert r * y == x;
    if r < q {
      var gap := RealAlgebra.SameSign(q - r, y);
    }
  }

  lemma {:induction false} QuotientAtMost(x: real, y: real, q: real)
    requires y > 0.0 && x - q * y <= 0.0
    ensures x / y <= q
  {
    var r := x / y;
    assert r * y == x;
    if r > q {
      var gap := RealAlgebra.SameSign(r - q, y);
    }
  }

  /** One replica runs, b asks for many, and a's reading rises from where it is skipped to where it asks for two. */
  lemma {:induction false} PulledDown(cfg: Config, a: MetricSpec, b: MetricSpec)
    requires cfg.aggregation == AggregationWeightedAverage && DistinctNames(cfg.metrics)
    requires a in cfg.metrics && b in cfg.metrics && a != b && a.scaleUpOnly && b.targetValuePerReplica > 0.0
    ensures !MonotoneInLoad(cfg)
  {
    var current := 1;
    var many := 3 + Ceil(Weight(b) / Weight(a));
    RatioPositive(Weight(b), Weight(a));
    var low := map[a.name := ReadingFor(a, current - 1, current), b.name := ReadingFor(b, many, current)];
    var high := map[a.name := ReadingFor(a, current + 1, current), b.name := ReadingFor(b, many, current)];
    ReadingAsksFor(a, current - 1, current);
    ReadingAsksFor(a, current + 1, current);
    ReadingAsksFor(b, many, current);
    ReadingRises(a, current);
    NamesDiffer(cfg.metrics, a, b);
    DesiresOfTwo(cfg.metrics, a, b, low, current);
    DesiresOfTwo(cfg.metrics, a, b, high, current);
    var (d, e) := (Desire(current + 1, Weight(a)), Desire(many, Weight(b)));
    assert Desires(cfg.metrics, low, current) == [e];
    OneAverage(e);
    TwoAverage(Desires(cfg.metrics, high, current), d, e);
    assert ReactiveTarget(cfg, high, current) < ReactiveTarget(cfg, low, current);
    assert SameReported(cfg.metrics, low, high);
  }

  lemma {:induction false} NamesDiffer(metrics: seq<MetricSpec>, a: MetricSpec, b: MetricSpec)
    requires DistinctNames(metrics) && a in metrics && b in metrics && a != b
    ensures a.name != b.name
  {
    NamesIdentify(metrics, a);
  }

  lemma {:induction false} DesiresOfTwo(metrics: seq<MetricSpec>, a: MetricSpec, b: MetricSpec, values: Values,
                                        current: int)
    requires DistinctNames(metrics) && a in metrics && b in metrics && a.name != b.name
    requires values.Keys == {a.name, b.name}
    requires Counts(b, values, current)
    ensures var e := Desire(Desired(b, values[b.name], current), Weight(b));
            var ds := Desires(metrics, values, current);
            if Counts(a, values, current)
            then var d := Desire(Desired(a, values[a.name], current), Weight(a)); ds == [d, e] || ds == [e, d]
            else ds == [e]
  {
    NamesIdentify(metrics, a);
    NamesIdentify(metrics, b);
    OnlyTwoReported(metrics, a, b, values, current);
  }

  lemma {:induction false} RatioPositive(x: real, y: real)
    requires x > 0.0 && y > 0.0
    ensures x / y > 0.0
  {
  }

  lemma {:induction false} NamesIdentify(metrics: seq<MetricSpec>, a: MetricSpec)
    requires DistinctNames(metrics) && a in metrics
    ensures forall spec :: spec in metrics && spec.name == a.name ==> spec == a
  {
    var i :| 0 <= i < |metrics| && metrics[i] == a;
    forall spec | spec in metrics && spec.name == a.name
      ensures spec == a
    {
      var j :| 0 <= j < |metrics| && metrics[j] == spec;
    }
  }

  /** A larger load never lowers the weighted target exactly when no ratio metric stands beside a scale-up-only one. */
  lemma {:induction false} WeightedMonotoneExactly(cfg: Config)
    requires cfg.aggregation == AggregationWeightedAverage && DistinctNames(cfg.metrics)
    ensures MonotoneInLoad(cfg) <==> NoRatioBesideScaleUpOnly(cfg.metrics)
  {
    if NoRatioBesideScaleUpOnly(cfg.metrics) {
      forall low: Values, high: Values, current: int | SameReported(cfg.metrics, low, high)
        ensures ReactiveTarget(cfg, low, current) <= ReactiveTarget(cfg, high, current)
      {
        WeightedTargetMonotone(cfg, low, high, current);
      }
    } else {
      var a, b :| a in cfg.metrics && b in cfg.metrics && a.scaleUpOnly && a != b && b.targetValuePerReplica > 0.0;
      PulledDown(cfg, a, b);
    }
  }

  /** The smallest failing configuration: a steady ratio metric and a scale-up-only one. */
  lemma {:induction false} WeightedNotMonotone()
    ensures exists cfg: Config :: cfg.Valid() && cfg.aggregation == AggregationWeightedAverage && !MonotoneInLoad(cfg)
  {
    var steady := MetricSpec("steady", 0.0, 0.0, 1.0, 1.0, false, false);
    var burst := MetricSpec("burst", 0.0, 0.0, 1.0, 1.0, false, true);
    var cfg := Config(1, 20, [steady, burst], AggregationWeightedAverage, 0, Reactive, 0, None);
    PulledDown(cfg, burst, steady);
  }
}
