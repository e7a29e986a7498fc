/** EWMA predictor: an exponentially weighted average plus a least-squares trend. */
module EwmaPredictor {
  import opened Basics
  import opened LeastSquares
  import RealAlgebra

  datatype Ewma = Ewma(alpha: real, trendWindow: int) {
    ghost predicate Valid() {
      0.0 < alpha <= 1.0
    }

    static function New(alpha: real, trendWindow: int): (r: Result<Ewma>)
      ensures r.Ok? <==> 0.0 < alpha <= 1.0
      ensures r.Ok? ==> r.value.Valid()
    {
      if alpha <= 0.0 || alpha > 1.0 then Err else Ok(Ewma(alpha, trendWindow))
    }

    function Window(): (w: int)
      ensures w > 0
      ensures w == trendWindow || (trendWindow <= 0 && w == 30)
    {
      if trendWindow <= 0 then 30 else trendWindow
    }
  }

  /** The exponentially weighted average of a history. */
  function Smoothed(alpha: real, history: seq<DataPoint>): real
    requires history != []
  {
    if |history| == 1 then history[0].value
    else alpha * Last(history).value + (1.0 - alpha) * Smoothed(alpha, Init(history))
  }

  /** The average never leaves the range of the data. */
  lemma {:induction false} SmoothedWithinRange(alpha: real, history: seq<DataPoint>, lo: real, hi: real)
    requires 0.0 < alpha <= 1.0 && history != []
    requires forall p :: p in history ==> lo <= p.value <= hi
    ensures lo <= Smoothed(alpha, history) <= hi
  {
    if |history| > 1 {
      SmoothedWithinRange(alpha, Init(history), lo, hi);
      Blend(alpha, Last(history).value, Smoothed(alpha, Init(history)), lo, hi);
    }
  }

  lemma {:induction false} Blend(alpha: real, x: real, y: real, lo: real, hi: real)
    requires 0.0 <= alpha <= 1.0 && lo <= x <= hi && lo <= y <= hi
    ensures lo <= alpha * x + (1.0 - alpha) * y <= hi
  {
    RealAlgebra.ProductNonNegative(alpha, x - lo);
    RealAlgebra.ProductNonNegative(1.0 - alpha, y - lo);
    RealAlgebra.ProductNonNegative(alpha, hi - x);
    RealAlgebra.ProductNonNegative(1.0 - alpha, hi - y);
    assert alpha * x + (1.0 - alpha) * y - lo == alpha * (x - lo) + (1.0 - alpha) * (y - lo);
    assert hi - (alpha * x + (1.0 - alpha) * y) == alpha * (hi - x) + (1.0 - alpha) * (hi - y);
  }

  /** Each point moves the average by alpha's share of the way to it. */
  lemma {:induction false} SmoothedMoves(alpha: real, history: seq<DataPoint>)
    requires |history| >= 2
    ensures var before := Smoothed(alpha, Init(history));
            Smoothed(alpha, history) == before + alpha * (Last(history).value - before)
  {
  }

  function Lag(alpha: real, history: seq<DataPoint>): real
    requires history != []
  {
    Last(history).value - Smoothed(alpha, history)
  }

  /** The exact lag on a ramp: none at the first point, and then 1 - alpha of the lag before plus the rise. */
  lemma {:induction false} LagExactly(alpha: real, history: seq<DataPoint>, d: real)
    requires history != []
    requires forall i :: 0 < i < |history| ==> history[i].value == history[i - 1].value + d
    ensures |history| == 1 ==> Lag(alpha, history) == 0.0
    ensures |history| > 1 ==> Lag(alpha, history) == (1.0 - alpha) * (Lag(alpha, Init(history)) + d)
  {
    if |history| > 1 {
      var earlier := Init(history);
      assert Last(history).value == Last(earlier).value + d;
      LagStep(alpha, Last(history).value, Last(earlier).value, Smoothed(alpha, earlier), d);
    }
  }

  /** How far the average trails the last value of a series that moves by d at every point. */
  lemma {:induction false} LagOnRamp(alpha: real, history: seq<DataPoint>, d: real)
    requires 0.0 < alpha <= 1.0 && history != []
    requires forall i :: 0 < i < |history| ==> history[i].value == history[i - 1].value + d
    ensures var lag := Last(history).value - Smoothed(alpha, history);
            && (d >= 0.0 ==> lag >= 0.0)
            && (d <= 0.0 ==> lag <= 0.0)
            && (|history| > 1 && alpha < 1.0 ==> (d > 0.0 ==> lag > 0.0) && (d < 0.0 ==> lag < 0.0))
            && (alpha == 1.0 ==> lag == 0.0)
  {
    if |history| > 1 {
      LagOnRamp(alpha, Init(history), d);
      var before := Last(Init(history)).value - Smoothed(alpha, Init(history));
      assert Last(history).value == Last(Init(history)).value + d;
      LagStep(alpha, Last(history).value, Last(Init(history)).value, Smoothed(alpha, Init(history)), d);
      LagKeepsSign(alpha, before, d);
    }
  }

  lemma {:induction false} LagKeepsSign(alpha: real, before: real, d: real)
    requires 0.0 < alpha <= 1.0
    requires (d >= 0.0 ==> before >= 0.0) && (d <= 0.0 ==> before <= 0.0)
    ensures var lag := (1.0 - alpha) * (before + d);
            && (d >= 0.0 ==> lag >= 0.0)
            && (d <= 0.0 ==> lag <= 0.0)
            && (alpha < 1.0 ==> (d > 0.0 ==> lag > 0.0) && (d < 0.0 ==> lag < 0.0))
            && (alpha == 1.0 ==> lag == 0.0)
  {
    if alpha < 1.0 && d > 0.0 {
      var lag := RealAlgebra.SameSign(1.0 - alpha, before + d);
    } else if alpha < 1.0 && d < 0.0 {
      var lag := RealAlgebra.SameSign(1.0 - alpha, -(before + d));
    }
  }

  lemma {:induction false} LagStep(alpha: real, x: real, previous: real, smoothed: real, d: real)
    requires x == previous + d
    ensures x - (alpha * x + (1.0 - alpha) * smoothed) == (1.0 - alpha) * ((previous - smoothed) + d)
  {
  }

  /** On a series moving by d at every point the average equals the last value exactly when
      nothing is smoothed or nothing moves. */
  lemma {:induction false} RampExact(alpha: real, history: seq<DataPoint>, d: real)
    requires 0.0 < alpha <= 1.0 && |history| > 1
    requires forall i :: 0 < i < |history| ==> history[i].value == history[i - 1].value + d
    ensures Smoothed(alpha, history) == Last(history).value <==> alpha == 1.0 || d == 0.0
  {
    LagOnRamp(alpha, history, d);
  }

  method OlsSlope(pts: seq<DataPoint>) returns (slope: real)
    ensures |pts| < 2 || Spread(Samples(pts)) < DEGENERATE ==> slope == 0.0
    ensures |pts| >= 2 && Spread(Samples(pts)) >= DEGENERATE ==>
              exists l: Line :: IsLeastSquares(Samples(pts), l) && slope == l.slope
    ensures |pts| >= 2 ==> forall l: Line | OnLine(Samples(pts), l) ::
              slope == l.slope <==> Spread(Samples(pts)) >= DEGENERATE || l.slope == 0.0
  {
    if |pts| < 2 {
      return 0.0;
    }
    ghost var s := Samples(pts);
    var n := |pts| as real;
    var t0 := pts[0].at;
    var sumT, sumY, sumTT, sumTY := RunningSums(pts);
    SumsCount(s);
    DenominatorIsSpread(s);
    var denom := SpreadDenominator(n, sumT, sumTT);
    if -DEGENERATE < denom < DEGENERATE {
      return 0.0;
    }
    slope := SlopeFrom(n, sumT, sumY, sumTY, denom);
    FitIsLeastSquares(s, Fit(SumsOf(s)));
    assert slope == Fit(SumsOf(s)).slope;
    forall l: Line | OnLine(s, l)
      ensures slope == l.slope
    {
      LineRecovered(s, l);
    }
  }

  method Average(alpha: real, history: seq<DataPoint>) returns (ewma: real)
    requires history != []
    ensures ewma == Smoothed(alpha, history)
  {
    ewma := history[0].value;
    for i := 1 to |history|
      invariant ewma == Smoothed(alpha, history[..i])
    {
      assert Init(history[..i + 1]) == history[..i];
      ewma := alpha * history[i].value + (1.0 - alpha) * ewma;
    }
    assert history[..|history|] == history;
  }

  method Predict(p: Ewma, history: seq<DataPoint>, horizon: int) returns (predicted: real)
    requires p.Valid()
    ensures history == [] ==> predicted == 0.0
    ensures |history| == 1 ==> predicted == history[0].value
    ensures |history| >= 2 ==> forall pts :: Latest(pts, history, p.Window()) && Spread(Samples(pts)) >= DEGENERATE ==>
              exists l: Line :: IsLeastSquares(Samples(pts), l)
                && predicted == MaxReal(Line(Smoothed(p.alpha, history), l.slope).At(Seconds(horizon)), 0.0)
    ensures |history| >= 2 ==> forall pts :: Latest(pts, history, p.Window()) && Spread(Samples(pts)) < DEGENERATE ==>
              predicted == MaxReal(Smoothed(p.alpha, history), 0.0)
  {
    if |history| == 0 {
      return 0.0;
    }
    if |history| == 1 {
      return history[0].value;
    }
    var ewma := Average(p.alpha, history);
    var tw := p.trendWindow;
    if tw <= 0 {
      tw := 30;
    }
    var start := |history| - tw;
    if start < 0 {
      start := 0;
    }
    var recent := history[start..];
    var slope := OlsSlope(recent);
    SinglePointSpread(recent);
    predicted := MaxReal(Line(ewma, slope).At(Seconds(horizon)), 0.0);
    assert slope == 0.0 ==> Line(ewma, slope).At(Seconds(horizon)) == ewma;
    RecentOnly(recent, history, p.Window());
  }

  lemma {:induction false} RecentOnly(recent: seq<DataPoint>, history: seq<DataPoint>, window: int)
    requires window > 0 && recent == Recent(history, window)
    ensures forall pts :: Latest(pts, history, window) <==> pts == recent
  {
    forall pts
      ensures Latest(pts, history, window) <==> pts == recent
    {
      RecentIsLatest(pts, history, window);
    }
  }

  lemma {:induction false} SinglePointSpread(pts: seq<DataPoint>)
    ensures |pts| < 2 ==> Spread(Samples(pts)) == 0.0
  {
    if |pts| == 1 {
      assert Init(Samples(pts)) == [];
    }
  }
}
