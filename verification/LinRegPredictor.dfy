/** Linear-regression predictor: a least-squares line over the last points, extrapolated to the horizon. */
module LinRegPredictor {
  import opened Basics
  import opened LeastSquares
  import RealAlgebra

  datatype LinReg = LinReg(window: int) {
    static function New(window: int): (p: LinReg)
      ensures p.window > 1
      ensures p.window == window || (window <= 1 && p.window == 30)
    {
      LinReg(if window <= 1 then 30 else window)
    }
  }

  /** Seconds from the first point of the window to the moment being forecast. */
  function ForecastTime(pts: seq<DataPoint>, horizon: int): real
    requires pts != []
  {
    Seconds(Last(pts).at - pts[0].at) + Seconds(horizon)
  }

  ghost predicate IsBestConstant(s: seq<Sample>, c: real) {
    forall d: real :: Residuals(s, Line(c, 0.0)) <= Residuals(s, Line(d, 0.0))
  }

  lemma {:induction false} MeanIsBestConstant(s: seq<Sample>)
    requires s != []
    ensures SumsOf(s).n > 0.0
    ensures IsBestConstant(s, SumsOf(s).y / SumsOf(s).n)
  {
    SumsCount(s);
    var mean := SumsOf(s).y / SumsOf(s).n;
    forall d: real
      ensures Residuals(s, Line(mean, 0.0)) <= Residuals(s, Line(d, 0.0))
    {
      ConstantResiduals(s, mean);
      ConstantResiduals(s, d);
      ConstantGain(SumsOf(s).n, SumsOf(s).y, mean, d);
    }
  }

  function ConstantPart(n: real, y: real, c: real): real {
    n * c * c - 2.0 * c * y
  }

  lemma {:induction false} ConstantResiduals(s: seq<Sample>, c: real)
    ensures Residuals(s, Line(c, 0.0)) == SumsOf(s).yy + ConstantPart(SumsOf(s).n, SumsOf(s).y, c)
  {
    ResidualsExpansion(s, Line(c, 0.0));
    ZeroSlope(SumsOf(s), c);
  }

  lemma {:induction false} ZeroSlope(q: Sums, c: real)
    ensures ResidualsFromSums(q, c, 0.0) == q.yy + ConstantPart(q.n, q.y, c)
  {
  }

  lemma {:induction false} ConstantGain(n: real, y: real, c: real, d: real)
    requires n > 0.0 && c == y / n
    ensures ConstantPart(n, y, c) <= ConstantPart(n, y, d)
  {
    assert y == n * c;
    var gap := (d - c) * (d - c);
    RealAlgebra.ProductNonNegative(n, gap);
    assert ConstantPart(n, y, d) - ConstantPart(n, y, c) == n * gap;
  }

  /** The forecast from a window of points: its least-squares line at the moment asked for, or the best constant when
      the times are degenerate, and never below zero. */
  ghost predicate ForecastFrom(pts: seq<DataPoint>, horizon: int, predicted: real)
    requires pts != []
  {
    && (Spread(Samples(pts)) >= DEGENERATE ==>
          exists l: Line :: IsLeastSquares(Samples(pts), l)
                         && predicted == MaxReal(l.At(ForecastTime(pts, horizon)), 0.0))
    && (Spread(Samples(pts)) < DEGENERATE ==>
          exists c: real :: IsBestConstant(Samples(pts), c) && predicted == MaxReal(c, 0.0))
  }

  /** The forecast from a history: two points or more are forecast from the newest ones the window takes. */
  ghost predicate IsForecast(window: int, history: seq<DataPoint>, horizon: int, predicted: real)
    requires window > 1
  {
    && (history == [] ==> predicted == 0.0)
    && (|history| == 1 ==> predicted == history[0].value)
    && (|history| >= 2 ==> forall pts :: Latest(pts, history, window) ==> ForecastFrom(pts, horizon, predicted))
  }

  method Predict(p: LinReg, history: seq<DataPoint>, horizon: int) returns (predicted: real)
    requires p.window > 1
    ensures IsForecast(p.window, history, horizon, predicted)
  {
    if |history| == 0 {
      return 0.0;
    }
    if |history| == 1 {
      return history[0].value;
    }
    var start := |history| - p.window;
    if start < 0 {
      start := 0;
    }
    var pts := history[start..];
    var slope, intercept := FitLine(pts);
    var tForecast := Seconds(pts[|pts| - 1].at - pts[0].at) + Seconds(horizon);
    predicted := MaxReal(intercept + slope * tForecast, 0.0);
    assert Line(intercept, slope).At(tForecast) == intercept + slope * tForecast;
    assert slope == 0.0 ==> slope * tForecast == 0.0;
    assert ForecastFrom(pts, horizon, predicted);
    forall q | Latest(q, history, p.window)
      ensures q == pts
    {
      RecentIsLatest(q, history, p.window);
    }
  }

  /** The fitting half of `Predict` in the source. */
  method FitLine(pts: seq<DataPoint>) returns (slope: real, intercept: real)
    requires pts != []
    ensures Spread(Samples(pts)) >= DEGENERATE ==> IsLeastSquares(Samples(pts), Line(intercept, slope))
    ensures Spread(Samples(pts)) < DEGENERATE ==> slope == 0.0 && IsBestConstant(Samples(pts), intercept)
  {
    var n := |pts| as real;
    var sumT, sumY, sumTT, sumTY := RunningSums(pts);
    ghost var s := Samples(pts);
    SumsCount(s);
    DenominatorIsSpread(s);
    var denom := SpreadDenominator(n, sumT, sumTT);
    if -DEGENERATE < denom < DEGENERATE {
      slope, intercept := 0.0, sumY / n;
      MeanIsBestConstant(s);
    } else {
      slope := SlopeFrom(n, sumT, sumY, sumTY, denom);
      intercept := InterceptFrom(n, sumT, sumY, slope);
      assert Line(intercept, slope) == Fit(SumsOf(s));
      FitIsLeastSquares(s, Line(intercept, slope));
    }
  }

  // ---- What the contract of Predict determines --------------------------------------------------

  lemma {:induction false} BestConstantUnique(s: seq<Sample>, c: real, d: real)
    requires s != [] && IsBestConstant(s, c) && IsBestConstant(s, d)
    ensures c == d
  {
    SumsCount(s);
    var (n, y) := (SumsOf(s).n, SumsOf(s).y);
    BestIsMean(s, c);
    BestIsMean(s, d);
  }

  lemma {:induction false} BestIsMean(s: seq<Sample>, c: real)
    requires s != [] && IsBestConstant(s, c)
    ensures SumsOf(s).n > 0.0 && c == SumsOf(s).y / SumsOf(s).n
  {
    SumsCount(s);
    var (n, y) := (SumsOf(s).n, SumsOf(s).y);
    var mean := y / n;
    assert Residuals(s, Line(c, 0.0)) <= Residuals(s, Line(mean, 0.0));
    ConstantResiduals(s, c);
    ConstantResiduals(s, mean);
    if c != mean {
      StrictGain(n, y, mean, c);
    }
  }

  lemma {:induction false} StrictGain(n: real, y: real, c: real, d: real)
    requires n > 0.0 && c == y / n && d != c
    ensures ConstantPart(n, y, c) < ConstantPart(n, y, d)
  {
    assert y == n * c;
    var gap := RealAlgebra.SameSign(d - c, d - c);
    var gain := RealAlgebra.SameSign(n, gap);
    assert ConstantPart(n, y, d) - ConstantPart(n, y, c) == n * gap;
  }

  lemma {:induction false} WindowDetermines(pts: seq<DataPoint>, horizon: int, a: real, b: real)
    requires pts != [] && ForecastFrom(pts, horizon, a) && ForecastFrom(pts, horizon, b)
    ensures a == b
  {
    var s := Samples(pts);
    if Spread(s) >= DEGENERATE {
      var l: Line :| IsLeastSquares(s, l) && a == MaxReal(l.At(ForecastTime(pts, horizon)), 0.0);
      var m: Line :| IsLeastSquares(s, m) && b == MaxReal(m.At(ForecastTime(pts, horizon)), 0.0);
      FitIsLeastSquares(s, l);
      FitIsLeastSquares(s, m);
    } else {
      var c: real :| IsBestConstant(s, c) && a == MaxReal(c, 0.0);
      var d: real :| IsBestConstant(s, d) && b == MaxReal(d, 0.0);
      BestConstantUnique(s, c, d);
    }
  }

  /** Histories with the same newest points have the same forecast, and there is only one. */
  lemma {:induction false} NewestPointsDecide(window: int, history: seq<DataPoint>, other: seq<DataPoint>,
                                              pts: seq<DataPoint>, horizon: int, a: real, b: real)
    requires window > 1 && Latest(pts, history, window) && Latest(pts, other, window)
    requires IsForecast(window, history, horizon, a) && IsForecast(window, other, horizon, b)
    ensures a == b
  {
    RecentIsLatest(pts, history, window);
    RecentIsLatest(pts, other, window);
    if |history| >= 2 {
      assert |pts| >= 2 && |other| >= 2;
      WindowDetermines(pts, horizon, a, b);
    } else {
      assert history == pts == other;
    }
  }

  /** On data that lie on a line, the only least-squares line is that one. */
  lemma {:induction false} LineForecast(pts: seq<DataPoint>, l: Line, fitted: Line)
    requires pts != [] && OnLine(Samples(pts), l) && Spread(Samples(pts)) >= DEGENERATE
    ensures IsLeastSquares(Samples(pts), fitted) <==> fitted == l
  {
    LineRecovered(Samples(pts), l);
    FitIsLeastSquares(Samples(pts), fitted);
  }

  lemma {:induction false} FittedAhead(pts: seq<DataPoint>, l: Line, horizon: int, predicted: real)
    requires pts != [] && ForecastFrom(pts, horizon, predicted)
    requires OnLine(Samples(pts), l) && Spread(Samples(pts)) >= DEGENERATE
    ensures predicted == MaxReal(l.At(ForecastTime(pts, horizon)), 0.0)
  {
    var fitted: Line :| IsLeastSquares(Samples(pts), fitted)
                     && predicted == MaxReal(fitted.At(ForecastTime(pts, horizon)), 0.0);
    LineForecast(pts, l, fitted);
  }

  /** A straight line over absolute time. */
  function AtTime(c: real, d: real, at: int): real {
    c + d * Seconds(at)
  }

  ghost predicate OnTimeLine(pts: seq<DataPoint>, c: real, d: real) {
    forall i :: 0 <= i < |pts| ==> pts[i].value == AtTime(c, d, pts[i].at)
  }

  /** When the newest points lie on a line over absolute time, the forecast is that line at the horizon past the last of
      them, floored at zero; what came before them does not matter. */
  lemma {:induction false} ForecastContinuesLine(window: int, history: seq<DataPoint>, pts: seq<DataPoint>,
                                                 horizon: int, predicted: real, c: real, d: real)
    requires window > 1 && |history| >= 2 && Latest(pts, history, window)
    requires IsForecast(window, history, horizon, predicted)
    requires OnTimeLine(pts, c, d) && Spread(Samples(pts)) >= DEGENERATE
    ensures predicted == MaxReal(AtTime(c, d, Last(history).at + horizon), 0.0)
  {
    ForecastOfLatest(window, history, pts, horizon, predicted);
    WindowContinuesLine(pts, horizon, predicted, c, d);
  }

  lemma {:induction false} ForecastOfLatest(window: int, history: seq<DataPoint>, pts: seq<DataPoint>,
                                            horizon: int, predicted: real)
    requires window > 1 && |history| >= 2 && Latest(pts, history, window)
    requires IsForecast(window, history, horizon, predicted)
    ensures pts != [] && Last(pts) == Last(history) && ForecastFrom(pts, horizon, predicted)
  {
    RecentIsLatest(pts, history, window);
  }

  lemma {:induction false} WindowContinuesLine(pts: seq<DataPoint>, horizon: int, predicted: real, c: real, d: real)
    requires pts != [] && ForecastFrom(pts, horizon, predicted)
    requires OnTimeLine(pts, c, d) && Spread(Samples(pts)) >= DEGENERATE
    ensures predicted == MaxReal(AtTime(c, d, Last(pts).at + horizon), 0.0)
  {
    var l := Line(AtTime(c, d, pts[0].at), d);
    OnShiftedLine(pts, c, d);
    FittedAhead(pts, l, horizon, predicted);
    AtForecastTime(pts, horizon, c, d);
  }

  lemma {:induction false} OnShiftedLine(pts: seq<DataPoint>, c: real, d: real)
    requires pts != [] && OnTimeLine(pts, c, d)
    ensures OnLine(Samples(pts), Line(AtTime(c, d, pts[0].at), d))
  {
    var l := Line(AtTime(c, d, pts[0].at), d);
    forall i | 0 <= i < |pts|
      ensures Samples(pts)[i].y == l.At(Samples(pts)[i].t)
    {
      SecondsAdd(pts[i].at, pts[0].at);
      ShiftedLine(c, d, Seconds(pts[0].at), Seconds(pts[i].at));
    }
  }

  lemma {:induction false} AtForecastTime(pts: seq<DataPoint>, horizon: int, c: real, d: real)
    requires pts != []
    ensures Line(AtTime(c, d, pts[0].at), d).At(ForecastTime(pts, horizon))
         == AtTime(c, d, Last(pts).at + horizon)
  {
    var (t0, t) := (Seconds(pts[0].at), Seconds(Last(pts).at + horizon));
    SecondsAdd(Last(pts).at, pts[0].at);
    SecondsAdd(Last(pts).at, horizon);
    assert ForecastTime(pts, horizon) == t - t0;
    ShiftedLine(c, d, t0, t);
  }

  lemma {:induction false} ShiftedLine(c: real, d: real, t0: real, t: real)
    ensures c + d * t == Line(c + d * t0, d).At(t - t0)
  {
  }
}
