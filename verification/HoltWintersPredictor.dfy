/** Holt-Winters triple exponential smoothing, with Holt's linear method for short histories. */
module HoltWintersPredictor {
  import opened Basics
  import LeastSquares
  import RealAlgebra

  type DataPoint = LeastSquares.DataPoint

  datatype HoltWinters = HoltWinters(alpha: real, beta: real, gamma: real, season: int) {
    ghost predicate Valid() {
      0.0 < alpha <= 1.0 && 0.0 < beta <= 1.0 && 0.0 < gamma <= 1.0 && season >= 2
    }

    static function New(alpha: real, beta: real, gamma: real, season: int): (r: Result<HoltWinters>)
      ensures r.Ok? <==> HoltWinters(alpha, beta, gamma, season).Valid()
      ensures r.Ok? ==> r.value.Valid()
    {
      if alpha <= 0.0 || alpha > 1.0 then Err
      else if beta <= 0.0 || beta > 1.0 then Err
      else if gamma <= 0.0 || gamma > 1.0 then Err
      else if season < 2 then Err
      else Ok(HoltWinters(alpha, beta, gamma, season))
    }
  }

  function Values(history: seq<DataPoint>): seq<real> {
    seq(|history|, i requires 0 <= i < |history| => history[i].value)
  }

  // ---- The number of steps ahead ----------------------------------------------------

  function AvgPointInterval(pts: seq<DataPoint>): int {
    if |pts| < 2 then 0 else TruncDiv(Last(pts).at - pts[0].at, |pts| - 1)
  }

  function Steps(history: seq<DataPoint>, horizon: int): (steps: int)
    ensures steps >= 1
  {
    var interval := AvgPointInterval(history);
    if interval > 0 then MaxInt(Round(Seconds(horizon) / Seconds(interval)), 1) else 1
  }

  /** On evenly spaced points a horizon of k intervals is k steps. */
  lemma {:induction false} StepsOnEvenSpacing(history: seq<DataPoint>, interval: int, k: nat)
    requires |history| >= 2 && interval > 0 && k >= 1
    requires forall i :: 0 <= i < |history| ==> history[i].at == history[0].at + i * interval
    ensures Steps(history, k * interval) == k
  {
    var n := |history| - 1;
    assert Last(history).at - history[0].at == n * interval;
    assert n * interval >= 0;
    assert (n * interval) / n == interval by {
      DivideExact(n, interval);
    }
    SecondsRatio(k, interval);
    assert (k as real + 0.5).Floor == k;
  }

  /** The interval is the mean distance of neighbours, rounded down. */
  ghost predicate MeanInterval(history: seq<DataPoint>, interval: int)
    requires |history| >= 2
  {
    var n := |history| - 1;
    n * interval <= Last(history).at - history[0].at < n * interval + n
  }

  lemma {:induction false} QuotientUnique(n: int, d: int, q: int, r: int)
    requires n > 0 && n * q <= d < n * q + n && 0 <= d - r * n < n
    ensures q == r
  {
    assert n * (q - r) <= d - r * n;
    assert q - r >= 1 ==> n * (q - r) >= n;
    assert q - r <= -1 ==> n * (q - r) <= -n;
  }

  /** So many intervals are no further from the horizon than k of them. */
  ghost predicate AsNear(horizon: real, interval: real, steps: int, k: int) {
    RealAlgebra.Distance(horizon, steps as real * interval) <= RealAlgebra.Distance(horizon, k as real * interval)
  }

  /** In general the steps are the whole number of mean intervals nearest to the horizon, and never less than one. */
  lemma {:induction false} StepsAreNearest(history: seq<DataPoint>, horizon: int, interval: int, k: int)
    requires |history| >= 2 && interval > 0 && MeanInterval(history, interval) && k >= 1
    ensures AsNear(Seconds(horizon), Seconds(interval), Steps(history, horizon), k)
  {
    MeanIntervalIsAverage(history, interval);
    assert Seconds(interval) > 0.0;
    StepsAre(history, horizon, interval);
    NearestSteps(Seconds(horizon), Seconds(interval), k);
  }

  lemma {:induction false} StepsAre(history: seq<DataPoint>, horizon: int, interval: int)
    requires AvgPointInterval(history) == interval > 0 && Seconds(interval) > 0.0
    ensures Steps(history, horizon) == MaxInt(Round(Seconds(horizon) / Seconds(interval)), 1)
  {
  }

  lemma {:induction false} MeanIntervalIsAverage(history: seq<DataPoint>, interval: int)
    requires |history| >= 2 && interval > 0 && MeanInterval(history, interval)
    ensures AvgPointInterval(history) == interval
  {
    var (n, d) := (|history| - 1, Last(history).at - history[0].at);
    assert n * interval >= 0;
    QuotientUnique(n, d, interval, TruncDiv(d, n));
  }

  lemma {:induction false} NearestSteps(h: real, i: real, k: int)
    requires i > 0.0 && k >= 1
    ensures AsNear(h, i, MaxInt(Round(h / i), 1), k)
  {
    var q := h / i;
    assert q * i == h;
    NearestOrOne(q, k);
    ScaledUp(i, q, h, MaxInt(Round(q), 1) as real, k as real);
  }

  lemma {:induction false} ScaledUp(i: real, q: real, h: real, x: real, y: real)
    requires i > 0.0 && q * i == h && RealAlgebra.Distance(q, x) <= RealAlgebra.Distance(q, y)
    ensures RealAlgebra.Distance(h, x * i) <= RealAlgebra.Distance(h, y * i)
  {
    RealAlgebra.ScaledDistance(i, q, x, h, x * i);
    RealAlgebra.ScaledDistance(i, q, y, h, y * i);
    RealAlgebra.ScaledOrder(i, RealAlgebra.Distance(q, x), RealAlgebra.Distance(q, y));
  }

  lemma {:induction false} NearestOrOne(q: real, k: int)
    requires k >= 1
    ensures RealAlgebra.Distance(q, MaxInt(Round(q), 1) as real) <= RealAlgebra.Distance(q, k as real)
  {
    var n := Round(q);
    assert k < n || k == n || k > n;
    assert k > n ==> k as real >= n as real + 1.0;
    assert k < n ==> k as real <= n as real - 1.0;
    assert n < 1 ==> q < 1.0;
  }

  lemma {:induction false} DivideExact(n: int, d: int)
    requires n > 0 && d > 0
    ensures (n * d) / n == d
  {
    var q := (n * d) / n;
    assert q * n + (n * d) % n == n * d;
    assert (d - q) * n == (n * d) % n;
    assert d - q >= 1 ==> (d - q) * n >= n;
    assert d - q <= -1 ==> (d - q) * n <= -n;
  }

  lemma {:induction false} SecondsRatio(k: int, interval: int)
    requires interval > 0
    ensures Seconds(k * interval) / Seconds(interval) == k as real
  {
    var (d, x) := (NANOSECONDS_PER_SECOND as real, interval as real);
    assert (k * interval) as real == k as real * x;
    assert Seconds(interval) == x / d && x / d > 0.0;
    assert Seconds(k * interval) == k as real * (x / d);
    assert k as real * (x / d) / (x / d) == k as real;
  }

  // ---- The seasonal recurrence ---------------------------------------------------------

  datatype Smoothing = Smoothing(level: real, trend: real, seasonal: seq<real>)

  function SumOver(x: seq<real>, lo: int, hi: int): real
    requires 0 <= lo <= hi <= |x|
  {
    if lo == hi then 0.0 else SumOver(x, lo, hi - 1) + x[hi - 1]
  }

  function Start(m: int, x: seq<real>): (s: Smoothing)
    requires m >= 2 && |x| >= 2 * m
    ensures |s.seasonal| == m
  {
    var level := SumOver(x, 0, m) / m as real;
    Smoothing(level,
              (SumOver(x, m, 2 * m) / m as real - level) / m as real,
              seq(m, i requires 0 <= i < m => x[i] - level))
  }

  function Blend(w: real, u: real, v: real): real {
    w * u + (1.0 - w) * v
  }

  function Next(p: HoltWinters, s: Smoothing, i: nat, y: real): (s': Smoothing)
    requires p.season >= 2 && |s.seasonal| == p.season
    ensures |s'.seasonal| == p.season
  {
    var si := i % p.season;
    var level := Blend(p.alpha, y - s.seasonal[si], s.level + s.trend);
    Smoothing(level, Blend(p.beta, level - s.level, s.trend),
              s.seasonal[si := Blend(p.gamma, y - level, s.seasonal[si])])
  }

  /** The smoothing state after the first n values. */
  function After(p: HoltWinters, x: seq<real>, n: nat): (s: Smoothing)
    requires p.season >= 2 && |x| >= 2 * p.season && p.season <= n <= |x|
    ensures |s.seasonal| == p.season
  {
    if n == p.season then Start(p.season, x) else Next(p, After(p, x, n - 1), n - 1, x[n - 1])
  }

  // ---- Holt's linear recurrence ------------------------------------------------------------

  datatype Holt = Holt(level: real, trend: real)

  function HoltNext(p: HoltWinters, s: Holt, y: real): Holt {
    var level := Blend(p.alpha, y, s.level + s.trend);
    Holt(level, Blend(p.beta, level - s.level, s.trend))
  }

  function HoltAfter(p: HoltWinters, x: seq<real>, n: nat): Holt
    requires 1 <= n <= |x| && |x| >= 2
  {
    if n == 1 then Holt(x[0], x[1] - x[0]) else HoltNext(p, HoltAfter(p, x, n - 1), x[n - 1])
  }

  // ---- The forecast before the floor at zero --------------------------------------------------

  function Ahead(level: real, steps: real, trend: real): real {
    level + steps * trend
  }

  function Forecast(p: HoltWinters, x: seq<real>, steps: int): real
    requires p.season >= 2 && |x| >= 2 && steps >= 1
  {
    if |x| < 2 * p.season then
      var s := HoltAfter(p, x, |x|);
      Ahead(s.level, steps as real, s.trend)
    else
      var s := After(p, x, |x|);
      Ahead(s.level, steps as real, s.trend) + s.seasonal[(|x| - 1 + steps) % p.season]
  }

  method Predict(p: HoltWinters, history: seq<DataPoint>, horizon: int) returns (predicted: real)
    requires p.Valid()
    ensures history == [] ==> predicted == 0.0
    ensures |history| == 1 ==> predicted == history[0].value
    ensures |history| >= 2 ==>
              predicted == MaxReal(Forecast(p, Values(history), Steps(history, horizon)), 0.0)
  {
    if |history| == 0 {
      return 0.0;
    }
    if |history| == 1 {
      return history[0].value;
    }
    var interval := AvgPointInterval(history);
    var steps := 1;
    if interval > 0 {
      steps := Round(Seconds(horizon) / Seconds(interval));
      if steps < 1 {
        steps := 1;
      }
    }
    if |history| < 2 * p.season {
      predicted := HoltLinear(p, history, steps);
    } else {
      predicted := HoltSeasonal(p, history, steps);
    }
  }

  /** Initialisation from the first two seasons. */
  method InitialSmoothing(p: HoltWinters, history: seq<DataPoint>)
    returns (level: real, trend: real, seasonal: array<real>)
    requires p.Valid() && |history| >= 2 * p.season
    ensures fresh(seasonal)
    ensures Smoothing(level, trend, seasonal[..]) == Start(p.season, Values(history))
  {
    var m := p.season;
    ghost var x := Values(history);
    var sumS1 := 0.0;
    for i := 0 to m
      invariant sumS1 == SumOver(x, 0, i)
    {
      sumS1 := sumS1 + history[i].value;
    }
    level := sumS1 / m as real;
    var sumS2 := 0.0;
    for i := m to 2 * m
      invariant sumS2 == SumOver(x, m, i)
    {
      sumS2 := sumS2 + history[i].value;
    }
    trend := (sumS2 / m as real - level) / m as real;
    seasonal := new real[m];
    for i := 0 to m
      invariant fresh(seasonal) && seasonal.Length == m
      invariant forall j :: 0 <= j < i ==> seasonal[j] == x[j] - level
    {
      seasonal[i] := history[i].value - level;
    }
    assert seasonal[..] == Start(m, x).seasonal;
  }

  /** The seasonal half of `Predict` in the source. */
  method HoltSeasonal(p: HoltWinters, history: seq<DataPoint>, steps: int) returns (predicted: real)
    requires p.Valid() && |history| >= 2 * p.season && steps >= 1
    ensures predicted == MaxReal(Forecast(p, Values(history), steps), 0.0)
  {
    var m := p.season;
    ghost var x := Values(history);
    var level, trend, seasonal := InitialSmoothing(p, history);
    assert seasonal[..] == Start(m, x).seasonal;
    for i := m to |history|
      invariant fresh(seasonal) && seasonal.Length == m
      invariant Smoothing(level, trend, seasonal[..]) == After(p, x, i)
    {
      var y := history[i].value;
      var si := i % m;
      var prevLevel := level;
      ghost var before := seasonal[..];
      level := Blend(p.alpha, y - seasonal[si], level + trend);
      trend := Blend(p.beta, level - prevLevel, trend);
      seasonal[si] := Blend(p.gamma, y - level, seasonal[si]);
      assert seasonal[..] == before[si := Blend(p.gamma, y - level, before[si])];
      AfterNext(p, x, i);
    }
    var seasonalIdx := (|history| - 1 + steps) % m;
    predicted := MaxReal(Ahead(level, steps as real, trend) + seasonal[seasonalIdx], 0.0);
  }

  method HoltLinear(p: HoltWinters, history: seq<DataPoint>, steps: int) returns (predicted: real)
    requires p.Valid() && 2 <= |history| < 2 * p.season && steps >= 1
    ensures predicted == MaxReal(Forecast(p, Values(history), steps), 0.0)
  {
    ghost var x := Values(history);
    var level := history[0].value;
    var trend := history[1].value - history[0].value;
    for i := 1 to |history|
      invariant Holt(level, trend) == HoltAfter(p, x, i)
    {
      var prevLevel := level;
      level := Blend(p.alpha, history[i].value, level + trend);
      trend := Blend(p.beta, level - prevLevel, trend);
    }
    predicted := MaxReal(Ahead(level, steps as real, trend), 0.0);
  }

  // ---- Periodic series ------------------------------------------------------------------------

  ghost predicate Periodic(x: seq<real>, m: int)
    requires m > 0
  {
    forall i :: 0 <= i < |x| ==> x[i] == x[i % m]
  }

  lemma {:induction false} SeasonsSumAlike(x: seq<real>, m: int, k: nat)
    requires m >= 2 && |x| >= 2 * m && Periodic(x, m) && k <= m
    ensures SumOver(x, m, m + k) == SumOver(x, 0, k)
  {
    if k > 0 {
      SeasonsSumAlike(x, m, k - 1);
      NextSeasonAlike(x, m, k - 1);
    }
  }

  lemma {:induction false} NextSeasonAlike(x: seq<real>, m: int, i: nat)
    requires m >= 2 && |x| >= 2 * m && Periodic(x, m) && i < m
    ensures x[m + i] == x[i]
  {
    assert (m + i) % m == i;
  }

  /** On a periodic series the smoothing state never moves: the level stays at the season mean,
      the trend at zero and the seasonal table as it was initialised. */
  lemma {:induction false} PeriodicStateIsFixed(p: HoltWinters, x: seq<real>, n: nat)
    requires p.season >= 2 && |x| >= 2 * p.season && p.season <= n <= |x| && Periodic(x, p.season)
    ensures After(p, x, n) == Start(p.season, x)
    ensures After(p, x, n).trend == 0.0
    ensures After(p, x, n).level == SumOver(x, 0, p.season) / p.season as real
  {
    var m := p.season;
    SeasonsSumAlike(x, m, m);
    var start := Start(m, x);
    assert start.trend == 0.0;
    if n > m {
      PeriodicStateIsFixed(p, x, n - 1);
      var si := (n - 1) % m;
      assert x[n - 1] == x[si];
      assert x[n - 1] - start.seasonal[si] == start.level;
      BlendSame(p.alpha, start.level);
      BlendSame(p.beta, 0.0);
      BlendSame(p.gamma, start.seasonal[si]);
      assert start.seasonal[si := start.seasonal[si]] == start.seasonal;
    }
  }

  lemma {:induction false} BlendSame(w: real, v: real)
    ensures Blend(w, v, v) == v
  {
  }

  /** The forecast of a periodic series is the series itself, continued. */
  lemma {:induction false} PeriodicForecast(p: HoltWinters, x: seq<real>, steps: int)
    requires p.season >= 2 && |x| >= 2 * p.season && steps >= 1 && Periodic(x, p.season)
    ensures Forecast(p, x, steps) == x[(|x| - 1 + steps) % p.season]
  {
    PeriodicStateIsFixed(p, x, |x|);
    assert Ahead(After(p, x, |x|).level, steps as real, 0.0) == After(p, x, |x|).level;
  }

  // ---- Straight lines ---------------------------------------------------------------------------

  lemma {:induction false} HoltOnLine(p: HoltWinters, x: seq<real>, c: real, d: real, n: nat)
    requires 1 <= n <= |x| && |x| >= 2
    requires forall i :: 0 <= i < |x| ==> x[i] == c + d * i as real
    ensures HoltAfter(p, x, n) == Holt(x[n - 1], d)
  {
    if n == 1 {
      assert x[1] - x[0] == d;
    } else {
      HoltOnLine(p, x, c, d, n - 1);
      assert d * (n - 1) as real == d * (n - 2) as real + d;
      assert x[n - 1] == x[n - 2] + d;
      assert x[n - 1] - x[n - 2] == d;
      BlendSame(p.alpha, x[n - 1]);
      BlendSame(p.beta, d);
    }
  }

  /** Evenly spaced values on a line: the short-history forecast is the line, steps points further on. */
  lemma {:induction false} LineForecast(p: HoltWinters, x: seq<real>, c: real, d: real, steps: int)
    requires p.season >= 2 && 2 <= |x| < 2 * p.season && steps >= 1
    requires forall i :: 0 <= i < |x| ==> x[i] == c + d * i as real
    ensures Forecast(p, x, steps) == c + d * (|x| - 1 + steps) as real
  {
    HoltOnLine(p, x, c, d, |x|);
    assert d * (|x| - 1 + steps) as real == d * (|x| - 1) as real + steps as real * d;
  }

  // ---- What the factors do ---------------------------------------------------------------------------

  /** A weighted step moves the old value by the weight's share of the way to the new one. */
  lemma {:induction false} BlendMoves(w: real, u: real, v: real)
    ensures Blend(w, u, v) == v + w * (u - v)
  {
  }

  /** What one step does to the level and the trend, given the error of level plus trend plus season. */
  lemma {:induction false} StepCorrects(alpha: real, beta: real, y: real, season: real, level: real, trend: real,
                                        level': real, trend': real)
    requires level' == Blend(alpha, y - season, level + trend) && trend' == Blend(beta, level' - level, trend)
    ensures var error := y - (level + trend + season);
            level' == level + trend + alpha * error && trend' == trend + alpha * beta * error
  {
    var error := y - (level + trend + season);
    BlendMoves(alpha, y - season, level + trend);
    assert y - season - (level + trend) == error;
    BlendMoves(beta, level' - level, trend);
    assert level' - level - trend == alpha * error;
    assert beta * (alpha * error) == alpha * beta * error;
  }

  lemma {:induction false} SeasonCorrects(alpha: real, gamma: real, y: real, season: real, level': real, error: real,
                                          season': real)
    requires season' == Blend(gamma, y - level', season) && level' == y - season - error + alpha * error
    ensures season' == season + gamma * (1.0 - alpha) * error
  {
    BlendMoves(gamma, y - level', season);
    assert y - level' - season == (1.0 - alpha) * error;
  }

  /** Error correction in the linear recurrence, observing y: alpha of the one-step error goes to the level, alpha *
      beta of it to the trend. */
  ghost predicate HoltErrorCorrected(p: HoltWinters, s: Holt, t: Holt, y: real) {
    var error := y - (s.level + s.trend);
    && t.level == s.level + s.trend + p.alpha * error
    && t.trend == s.trend + p.alpha * p.beta * error
  }

  lemma {:induction false} HoltCorrectsError(p: HoltWinters, x: seq<real>, n: nat)
    requires 1 <= n < |x|
    ensures HoltErrorCorrected(p, HoltAfter(p, x, n), HoltAfter(p, x, n + 1), x[n])
  {
    HoltAfterNext(p, x, n);
    HoltNextCorrects(p, HoltAfter(p, x, n), x[n]);
  }

  lemma {:induction false} HoltAfterNext(p: HoltWinters, x: seq<real>, n: nat)
    requires 1 <= n < |x|
    ensures HoltAfter(p, x, n + 1) == HoltNext(p, HoltAfter(p, x, n), x[n])
  {
  }

  lemma {:induction false} HoltNextCorrects(p: HoltWinters, s: Holt, y: real)
    ensures HoltErrorCorrected(p, s, HoltNext(p, s, y), y)
  {
    var t := HoltNext(p, s, y);
    StepCorrects(p.alpha, p.beta, y, 0.0, s.level, s.trend, t.level, t.trend);
  }

  /** And in the seasonal one: observing y in season i, gamma * (1 - alpha) of the error goes to that season's entry,
      and no other entry moves. */
  ghost predicate ErrorCorrected(p: HoltWinters, s: Smoothing, t: Smoothing, i: nat, y: real)
    requires i < |s.seasonal| == |t.seasonal|
  {
    var error := y - (s.level + s.trend + s.seasonal[i]);
    && t.level == s.level + s.trend + p.alpha * error
    && t.trend == s.trend + p.alpha * p.beta * error
    && t.seasonal[i] == s.seasonal[i] + p.gamma * (1.0 - p.alpha) * error
    && forall j :: 0 <= j < |t.seasonal| && j != i ==> t.seasonal[j] == s.seasonal[j]
  }

  lemma {:induction false} SeasonalCorrectsError(p: HoltWinters, x: seq<real>, n: nat)
    requires p.season >= 2 && |x| >= 2 * p.season && p.season <= n < |x|
    ensures ErrorCorrected(p, After(p, x, n), After(p, x, n + 1), n % p.season, x[n])
  {
    AfterNext(p, x, n);
    NextCorrects(p, After(p, x, n), n, x[n]);
  }

  lemma {:induction false} AfterNext(p: HoltWinters, x: seq<real>, n: nat)
    requires p.season >= 2 && |x| >= 2 * p.season && p.season <= n < |x|
    ensures After(p, x, n + 1) == Next(p, After(p, x, n), n, x[n])
  {
  }

  lemma {:induction false} NextCorrects(p: HoltWinters, s: Smoothing, n: nat, y: real)
    requires p.season >= 2 && |s.seasonal| == p.season
    ensures ErrorCorrected(p, s, Next(p, s, n, y), n % p.season, y)
  {
    var (t, i) := (Next(p, s, n, y), n % p.season);
    var error := y - (s.level + s.trend + s.seasonal[i]);
    StepCorrects(p.alpha, p.beta, y, s.seasonal[i], s.level, s.trend, t.level, t.trend);
    SeasonCorrects(p.alpha, p.gamma, y, s.seasonal[i], t.level, error, t.seasonal[i]);
  }

  lemma {:induction false} HoltOfPrefix(p: HoltWinters, x: seq<real>, n: nat, k: nat)
    requires 2 <= n <= |x| && 1 <= k <= n
    ensures HoltAfter(p, x[..n], k) == HoltAfter(p, x, k)
  {
    if k > 1 {
      HoltOfPrefix(p, x, n, k - 1);
    }
  }

  lemma {:induction false} SumOfPrefix(x: seq<real>, n: nat, lo: int, hi: int)
    requires 0 <= lo <= hi <= n <= |x|
    ensures SumOver(x[..n], lo, hi) == SumOver(x, lo, hi)
    decreases hi
  {
    if lo < hi {
      SumOfPrefix(x, n, lo, hi - 1);
    }
  }

  lemma {:induction false} AfterOfPrefix(p: HoltWinters, x: seq<real>, n: nat, k: nat)
    requires p.season >= 2 && 2 * p.season <= n <= |x| && p.season <= k <= n
    ensures After(p, x[..n], k) == After(p, x, k)
  {
    if k == p.season {
      SumOfPrefix(x, n, 0, k);
      SumOfPrefix(x, n, k, 2 * k);
      assert Start(k, x[..n]).seasonal == Start(k, x).seasonal;
    } else {
      AfterOfPrefix(p, x, n, k - 1);
    }
  }

  /** The errors above are the errors of the forecasts the predictor itself makes, one step ahead of the points it has
      seen. */
  lemma {:induction false} ErrorIsForecastError(p: HoltWinters, x: seq<real>, n: nat)
    requires p.season >= 2 && 2 <= n <= |x|
    ensures n < 2 * p.season ==>
              Forecast(p, x[..n], 1) == HoltAfter(p, x, n).level + HoltAfter(p, x, n).trend
    ensures n >= 2 * p.season ==>
              Forecast(p, x[..n], 1)
              == After(p, x, n).level + After(p, x, n).trend + After(p, x, n).seasonal[n % p.season]
  {
    if n < 2 * p.season {
      HoltOfPrefix(p, x, n, n);
    } else {
      AfterOfPrefix(p, x, n, n);
    }
  }

  /** Further ahead the forecast moves by the trend: by one trend a step on a short history, by a season's worth of it
      a season on a long one. */
  lemma {:induction false} ForecastDrifts(p: HoltWinters, x: seq<real>, steps: int)
    requires p.season >= 2 && |x| >= 2 && steps >= 1
    ensures |x| < 2 * p.season ==>
              Forecast(p, x, steps + 1) == Forecast(p, x, steps) + HoltAfter(p, x, |x|).trend
    ensures |x| >= 2 * p.season ==>
              Forecast(p, x, steps + p.season)
              == Forecast(p, x, steps) + p.season as real * After(p, x, |x|).trend
  {
    if |x| < 2 * p.season {
      var s := HoltAfter(p, x, |x|);
      AheadMore(s.level, s.trend, steps, 1);
    } else {
      var s := After(p, x, |x|);
      SeasonLater(|x| - 1 + steps, p.season);
      AheadMore(s.level, s.trend, steps, p.season);
    }
  }

  lemma {:induction false} AheadMore(level: real, trend: real, a: int, b: int)
    ensures Ahead(level, (a + b) as real, trend) == Ahead(level, a as real, trend) + b as real * trend
  {
    assert (a + b) as real == a as real + b as real;
  }

  lemma {:induction false} SeasonLater(i: int, m: int)
    requires m > 0
    ensures (i + m) % m == i % m
  {
    var q := i / m;
    assert i + m == (q + 1) * m + i % m;
    ModUnique(i + m, q + 1, i % m, m);
  }

  lemma {:induction false} ModUnique(i: int, q: int, r: int, m: int)
    requires m > 0 && 0 <= r < m && i == q * m + r
    ensures i % m == r
  {
    var d := i / m - q;
    assert d * m == r - i % m;
    assert d >= 1 ==> d * m >= m;
    assert d <= -1 ==> d * m <= -m;
  }

  // ---- How the recurrence starts ----------------------------------------------------------------------

  lemma {:induction false} SumWithinRange(x: seq<real>, lo: int, hi: int, a: real, b: real)
    requires 0 <= lo <= hi <= |x| && forall i :: lo <= i < hi ==> a <= x[i] <= b
    ensures (hi - lo) as real * a <= SumOver(x, lo, hi) <= (hi - lo) as real * b
    decreases hi
  {
    if lo < hi {
      SumWithinRange(x, lo, hi - 1, a, b);
      assert (hi - lo) as real == (hi - 1 - lo) as real + 1.0;
      assert (hi - lo) as real * a == (hi - 1 - lo) as real * a + a;
      assert (hi - lo) as real * b == (hi - 1 - lo) as real * b + b;
    }
  }

  lemma {:induction false} ShiftedSum(x: seq<real>, m: int, k: nat, rise: real)
    requires 0 <= k <= m && |x| >= 2 * m && forall i :: 0 <= i < m ==> x[m + i] == x[i] + rise
    ensures SumOver(x, m, m + k) == SumOver(x, 0, k) + k as real * rise
  {
    if k > 0 {
      ShiftedSum(x, m, k - 1, rise);
      assert x[m + (k - 1)] == x[k - 1] + rise;
      assert k as real * rise == (k - 1) as real * rise + rise;
    }
  }

  /** The level starts within the range of the first season, and each entry is its point's distance from it. */
  lemma {:induction false} StartExactly(m: int, x: seq<real>, a: real, b: real)
    requires m >= 2 && |x| >= 2 * m && forall i :: 0 <= i < m ==> a <= x[i] <= b
    ensures a <= Start(m, x).level <= b
    ensures forall i :: 0 <= i < m ==> Start(m, x).level + Start(m, x).seasonal[i] == x[i]
  {
    SumWithinRange(x, 0, m, a, b);
    MeanWithinRange(m as real, SumOver(x, 0, m), a, b);
  }

  /** A second season that lies d a point above the first starts the trend at d. */
  lemma {:induction false} StartsWithTrend(m: int, x: seq<real>, d: real)
    requires m >= 2 && |x| >= 2 * m && forall i :: 0 <= i < m ==> x[m + i] == x[i] + m as real * d
    ensures Start(m, x).trend == d
  {
    ShiftedSum(x, m, m, m as real * d);
    assert m + m == 2 * m;
    RiseOfMeans(m as real, SumOver(x, 0, m), SumOver(x, m, 2 * m), d);
  }

  lemma {:induction false} MeanWithinRange(k: real, sum: real, a: real, b: real)
    requires k > 0.0 && k * a <= sum <= k * b
    ensures a <= sum / k <= b
  {
    var mean := sum / k;
    assert k * mean == sum;
    if mean < a {
      var gap := RealAlgebra.SameSign(k, a - mean);
    }
    if mean > b {
      var gap := RealAlgebra.SameSign(k, mean - b);
    }
  }

  lemma {:induction false} RiseOfMeans(k: real, sum: real, sum': real, d: real)
    requires k > 0.0 && sum' == sum + k * (k * d)
    ensures (sum' / k - sum / k) / k == d
  {
    var (q, q') := (sum / k, sum' / k);
    assert q * k == sum && q' * k == sum';
    assert k * (q' - q) == k * (k * d);
    RealAlgebra.CancelFactor(k, q' - q, k * d);
    var r := (q' - q) / k;
    assert k * r == k * d;
    RealAlgebra.CancelFactor(k, r, d);
  }

  // ---- Superposition -------------------------------------------------------------------------------

  function Mix(a: real, u: real, b: real, v: real): real {
    a * u + b * v
  }

  function Combine(a: real, x: seq<real>, b: real, y: seq<real>): (z: seq<real>)
    requires |x| == |y|
    ensures |z| == |x|
  {
    seq(|x|, i requires 0 <= i < |x| => Mix(a, x[i], b, y[i]))
  }

  ghost predicate IsMix(a: real, s: Smoothing, b: real, t: Smoothing, r: Smoothing) {
    && |s.seasonal| == |t.seasonal| == |r.seasonal|
    && r.level == Mix(a, s.level, b, t.level)
    && r.trend == Mix(a, s.trend, b, t.trend)
    && forall i :: 0 <= i < |r.seasonal| ==> r.seasonal[i] == Mix(a, s.seasonal[i], b, t.seasonal[i])
  }

  lemma {:induction false} MixBlend(a: real, b: real, w: real, u: real, v: real, u': real, v': real)
    ensures Blend(w, Mix(a, u, b, v), Mix(a, u', b, v')) == Mix(a, Blend(w, u, u'), b, Blend(w, v, v'))
  {
  }

  lemma {:induction false} MixSum(a: real, b: real, u: real, v: real, u': real, v': real)
    ensures Mix(a, u, b, v) + Mix(a, u', b, v') == Mix(a, u + u', b, v + v')
    ensures Mix(a, u, b, v) - Mix(a, u', b, v') == Mix(a, u - u', b, v - v')
  {
  }

  lemma {:induction false} MixScale(a: real, b: real, u: real, v: real, k: real)
    ensures k * Mix(a, u, b, v) == Mix(a, k * u, b, k * v)
    ensures k != 0.0 ==> Mix(a, u, b, v) / k == Mix(a, u / k, b, v / k)
  {
    if k != 0.0 {
      var (u', v') := (u / k, v / k);
      assert u == k * u' && v == k * v';
      assert Mix(a, u, b, v) == k * Mix(a, u', b, v');
    }
  }

  lemma {:induction false} SumOverMix(a: real, x: seq<real>, b: real, y: seq<real>, lo: int, hi: int)
    requires |x| == |y| && 0 <= lo <= hi <= |x|
    ensures SumOver(Combine(a, x, b, y), lo, hi) == Mix(a, SumOver(x, lo, hi), b, SumOver(y, lo, hi))
    decreases hi
  {
    if lo < hi {
      SumOverMix(a, x, b, y, lo, hi - 1);
      MixSum(a, b, SumOver(x, lo, hi - 1), SumOver(y, lo, hi - 1), x[hi - 1], y[hi - 1]);
    }
  }

  lemma {:induction false} StartMix(a: real, x: seq<real>, b: real, y: seq<real>, m: int)
    requires |x| == |y| && m >= 2 && |x| >= 2 * m
    ensures IsMix(a, Start(m, x), b, Start(m, y), Start(m, Combine(a, x, b, y)))
  {
    var k := m as real;
    var (s, t, r) := (Start(m, x), Start(m, y), Start(m, Combine(a, x, b, y)));
    SumOverMix(a, x, b, y, 0, m);
    SumOverMix(a, x, b, y, m, 2 * m);
    MixScale(a, b, SumOver(x, 0, m), SumOver(y, 0, m), k);
    MixScale(a, b, SumOver(x, m, 2 * m), SumOver(y, m, 2 * m), k);
    MixSum(a, b, SumOver(x, m, 2 * m) / k, SumOver(y, m, 2 * m) / k, s.level, t.level);
    MixScale(a, b, SumOver(x, m, 2 * m) / k - s.level, SumOver(y, m, 2 * m) / k - t.level, k);
    forall i | 0 <= i < m
      ensures r.seasonal[i] == Mix(a, s.seasonal[i], b, t.seasonal[i])
    {
      MixSum(a, b, x[i], y[i], s.level, t.level);
    }
  }

  /** One weighted step carries combinations over: the step's two inputs are combinations, so is its output. */
  lemma {:induction false} BlendOfMixes(w: real, a: real, b: real, u: real, v: real, u': real, v': real, z: real,
                                        z': real)
    requires z == Mix(a, u, b, v) && z' == Mix(a, u', b, v')
    ensures Blend(w, z, z') == Mix(a, Blend(w, u, u'), b, Blend(w, v, v'))
  {
    MixBlend(a, b, w, u, v, u', v');
  }

  lemma {:induction false} NextMix(p: HoltWinters, a: real, s: Smoothing, b: real, t: Smoothing, r: Smoothing, i: nat,
                                   u: real, v: real)
    requires p.season >= 2 && |s.seasonal| == p.season && IsMix(a, s, b, t, r)
    ensures IsMix(a, Next(p, s, i, u), b, Next(p, t, i, v), Next(p, r, i, Mix(a, u, b, v)))
  {
    var si := i % p.season;
    var y := Mix(a, u, b, v);
    var (s', t', r') := (Next(p, s, i, u), Next(p, t, i, v), Next(p, r, i, y));
    MixSum(a, b, u, v, s.seasonal[si], t.seasonal[si]);
    MixSum(a, b, s.level, t.level, s.trend, t.trend);
    BlendOfMixes(p.alpha, a, b, u - s.seasonal[si], v - t.seasonal[si], s.level + s.trend, t.level + t.trend,
                 y - r.seasonal[si], r.level + r.trend);
    MixSum(a, b, s'.level, t'.level, s.level, t.level);
    BlendOfMixes(p.beta, a, b, s'.level - s.level, t'.level - t.level, s.trend, t.trend,
                 r'.level - r.level, r.trend);
    MixSum(a, b, u, v, s'.level, t'.level);
    BlendOfMixes(p.gamma, a, b, u - s'.level, v - t'.level, s.seasonal[si], t.seasonal[si],
                 y - r'.level, r.seasonal[si]);
  }

  lemma {:induction false} AfterMix(p: HoltWinters, a: real, x: seq<real>, b: real, y: seq<real>, n: nat)
    requires p.season >= 2 && |x| == |y| && |x| >= 2 * p.season && p.season <= n <= |x|
    ensures IsMix(a, After(p, x, n), b, After(p, y, n), After(p, Combine(a, x, b, y), n))
  {
    if n == p.season {
      StartMix(a, x, b, y, p.season);
    } else {
      AfterMix(p, a, x, b, y, n - 1);
      NextMix(p, a, After(p, x, n - 1), b, After(p, y, n - 1), After(p, Combine(a, x, b, y), n - 1),
              n - 1, x[n - 1], y[n - 1]);
    }
  }

  lemma {:induction false} HoltAfterMix(p: HoltWinters, a: real, x: seq<real>, b: real, y: seq<real>, n: nat)
    requires |x| == |y| && |x| >= 2 && 1 <= n <= |x|
    ensures var (s, t, r) := (HoltAfter(p, x, n), HoltAfter(p, y, n), HoltAfter(p, Combine(a, x, b, y), n));
            r.level == Mix(a, s.level, b, t.level) && r.trend == Mix(a, s.trend, b, t.trend)
  {
    if n == 1 {
      MixSum(a, b, x[1], y[1], x[0], y[0]);
    } else {
      HoltAfterMix(p, a, x, b, y, n - 1);
      HoltNextMix(p, a, HoltAfter(p, x, n - 1), b, HoltAfter(p, y, n - 1), HoltAfter(p, Combine(a, x, b, y), n - 1),
                  x[n - 1], y[n - 1]);
    }
  }

  lemma {:induction false} HoltNextMix(p: HoltWinters, a: real, s: Holt, b: real, t: Holt, r: Holt, u: real, v: real)
    requires r.level == Mix(a, s.level, b, t.level) && r.trend == Mix(a, s.trend, b, t.trend)
    ensures var (s', t', r') := (HoltNext(p, s, u), HoltNext(p, t, v), HoltNext(p, r, Mix(a, u, b, v)));
            r'.level == Mix(a, s'.level, b, t'.level) && r'.trend == Mix(a, s'.trend, b, t'.trend)
  {
    var y := Mix(a, u, b, v);
    var (s', t', r') := (HoltNext(p, s, u), HoltNext(p, t, v), HoltNext(p, r, y));
    MixSum(a, b, s.level, t.level, s.trend, t.trend);
    BlendOfMixes(p.alpha, a, b, u, v, s.level + s.trend, t.level + t.trend, y, r.level + r.trend);
    MixSum(a, b, s'.level, t'.level, s.level, t.level);
    BlendOfMixes(p.beta, a, b, s'.level - s.level, t'.level - t.level, s.trend, t.trend,
                 r'.level - r.level, r.trend);
  }

  lemma {:induction false} ExtrapolationMix(a: real, b: real, k: real, level: real, level': real, trend: real,
                                            trend': real)
    ensures Ahead(Mix(a, level, b, level'), k, Mix(a, trend, b, trend'))
         == Mix(a, Ahead(level, k, trend), b, Ahead(level', k, trend'))
  {
  }

  /** The forecast is linear in the series, in both branches. */
  lemma {:induction false} Superposition(p: HoltWinters, a: real, x: seq<real>, b: real, y: seq<real>, steps: int)
    requires p.season >= 2 && |x| == |y| && |x| >= 2 && steps >= 1
    ensures Forecast(p, Combine(a, x, b, y), steps)
         == Mix(a, Forecast(p, x, steps), b, Forecast(p, y, steps))
  {
    var k := steps as real;
    if |x| < 2 * p.season {
      HoltAfterMix(p, a, x, b, y, |x|);
      var (s, t) := (HoltAfter(p, x, |x|), HoltAfter(p, y, |x|));
      ExtrapolationMix(a, b, k, s.level, t.level, s.trend, t.trend);
    } else {
      AfterMix(p, a, x, b, y, |x|);
      var (s, t) := (After(p, x, |x|), After(p, y, |x|));
      var i := (|x| - 1 + steps) % p.season;
      ExtrapolationMix(a, b, k, s.level, t.level, s.trend, t.trend);
      MixSum(a, b, Ahead(s.level, k, s.trend), Ahead(t.level, k, t.trend), s.seasonal[i], t.seasonal[i]);
    }
  }
}
