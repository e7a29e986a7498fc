/** The least-squares arithmetic shared by the linear-regression and EWMA predictors. */
module LeastSquares {
  import opened Basics
  import opened RealAlgebra

  datatype DataPoint = DataPoint(at: int, value: real)

  datatype Sample = Sample(t: real, y: real)

  datatype Line = Line(intercept: real, slope: real) {
    function At(t: real): real {
      intercept + slope * t
    }
  }

  /** Below this spread of sample times the source gives up on a slope. */
  const DEGENERATE: real := 0.000000001

  /** A window of observations as (seconds since its first point, value). */
  function Samples(pts: seq<DataPoint>): seq<Sample> {
    seq(|pts|, i requires 0 <= i < |pts| => Sample(Seconds(pts[i].at - pts[0].at), pts[i].value))
  }

  /** These are the newest points of a history, as many as the window takes. */
  ghost predicate Latest(pts: seq<DataPoint>, history: seq<DataPoint>, window: int) {
    |pts| == MinInt(window, |history|) && exists earlier :: history == earlier + pts
  }

  /** The last `window` points of a history, or all of it when it is shorter. */
  function Recent(history: seq<DataPoint>, window: int): (pts: seq<DataPoint>)
    requires window > 0
    ensures |pts| == MinInt(window, |history|)
  {
    history[MaxInt(|history| - window, 0)..]
  }

  lemma {:induction false} RecentIsLatest(pts: seq<DataPoint>, history: seq<DataPoint>, window: int)
    requires window > 0
    ensures Latest(pts, history, window) <==> pts == Recent(history, window)
  {
    var recent := Recent(history, window);
    assert history == history[..|history| - |recent|] + recent;
    if Latest(pts, history, window) {
      var earlier :| history == earlier + pts;
      assert pts == history[|earlier|..];
    }
  }

  // ---- The running sums ------------------------------------------------------

  datatype Sums = Sums(n: real, t: real, y: real, tt: real, ty: real, yy: real) {
    function Denominator(): real {
      SpreadDenominator(n, t, tt)
    }
  }

  function SpreadDenominator(n: real, t: real, tt: real): real {
    n * tt - t * t
  }

  function SlopeFrom(n: real, t: real, y: real, ty: real, denominator: real): real
    requires denominator != 0.0
  {
    (n * ty - t * y) / denominator
  }

  function InterceptFrom(n: real, t: real, y: real, slope: real): real
    requires n != 0.0
  {
    (y - slope * t) / n
  }

  function Add(q: Sums, p: Sample): Sums {
    Sums(q.n + 1.0, q.t + p.t, q.y + p.y, q.tt + p.t * p.t, q.ty + p.t * p.y, q.yy + p.y * p.y)
  }

  function SumsOf(s: seq<Sample>): Sums {
    if s == [] then Sums(0.0, 0.0, 0.0, 0.0, 0.0, 0.0) else Add(SumsOf(Init(s)), Last(s))
  }

  /** The accumulation loop of the two predictors that fit a line. */
  method RunningSums(pts: seq<DataPoint>) returns (sumT: real, sumY: real, sumTT: real, sumTY: real)
    requires pts != []
    ensures var q := SumsOf(Samples(pts)); sumT == q.t && sumY == q.y && sumTT == q.tt && sumTY == q.ty
  {
    ghost var s := Samples(pts);
    var t0 := pts[0].at;
    sumT, sumY, sumTT, sumTY := 0.0, 0.0, 0.0, 0.0;
    for i := 0 to |pts|
      invariant var q := SumsOf(s[..i]); sumT == q.t && sumY == q.y && sumTT == q.tt && sumTY == q.ty
    {
      var t := Seconds(pts[i].at - t0);
      assert Init(s[..i + 1]) == s[..i] && Last(s[..i + 1]) == Sample(t, pts[i].value);
      sumT := sumT + t;
      sumY := sumY + pts[i].value;
      sumTT := sumTT + t * t;
      sumTY := sumTY + t * pts[i].value;
    }
    assert s[..|pts|] == s;
  }

  lemma {:induction false} SumsCount(s: seq<Sample>)
    ensures SumsOf(s).n == |s| as real
  {
    if s != [] {
      SumsCount(Init(s));
    }
  }

  // ---- Reference definitions, independent of the running sums ------------------

  /** Sum of squared residuals of a line. */
  function Residuals(s: seq<Sample>, l: Line): real {
    if s == [] then 0.0
    else Residuals(Init(s), l) + (Last(s).y - l.At(Last(s).t)) * (Last(s).y - l.At(Last(s).t))
  }

  ghost predicate IsLeastSquares(s: seq<Sample>, l: Line) {
    forall other: Line :: Residuals(s, l) <= Residuals(s, other)
  }

  /** Sum of (t - x)^2 over the samples. */
  function SpreadFrom(s: seq<Sample>, x: real): real {
    if s == [] then 0.0 else SpreadFrom(Init(s), x) + (Last(s).t - x) * (Last(s).t - x)
  }

  /** Sum of (ti - tj)^2 over the unordered pairs of samples. */
  function Spread(s: seq<Sample>): real {
    if s == [] then 0.0 else Spread(Init(s)) + SpreadFrom(Init(s), Last(s).t)
  }

  // ---- The shared denominator ---------------------------------------------------

  /** Sum of (t - x)^2, from the running sums. */
  function SpreadFromSums(q: Sums, x: real): real {
    q.tt - 2.0 * x * q.t + q.n * x * x
  }

  lemma {:induction false} SpreadFromSumsStep(q: Sums, p: Sample, x: real)
    ensures SpreadFromSums(Add(q, p), x) == SpreadFromSums(q, x) + (p.t - x) * (p.t - x)
  {
    SpreadStep(q.n, q.t, q.tt, x, p.t);
  }

  lemma {:induction false} SpreadFromExpansion(s: seq<Sample>, x: real)
    ensures SpreadFrom(s, x) == SpreadFromSums(SumsOf(s), x)
  {
    if s != [] {
      var (q, p) := (SumsOf(Init(s)), Last(s));
      calc {
        SpreadFrom(s, x);
        SpreadFrom(Init(s), x) + (p.t - x) * (p.t - x);
        { SpreadFromExpansion(Init(s), x); }
        SpreadFromSums(q, x) + (p.t - x) * (p.t - x);
        { SpreadFromSumsStep(q, p, x); }
        SpreadFromSums(Add(q, p), x);
      }
    }
  }

  lemma {:induction false} SpreadFromNonNegative(s: seq<Sample>, x: real)
    ensures SpreadFrom(s, x) >= 0.0
  {
    if s != [] {
      SpreadFromNonNegative(Init(s), x);
      SquareNonNegative(Last(s).t - x);
    }
  }

  lemma {:induction false} DenominatorOfAdd(q: Sums, p: Sample)
    ensures Add(q, p).Denominator() == q.Denominator() + SpreadFromSums(q, p.t)
  {
    DenominatorStep(q.n, q.t, q.tt, p.t);
  }

  /** The denominator is the sum over pairs of the squared time differences, so it is never negative. */
  lemma {:induction false} DenominatorIsSpread(s: seq<Sample>)
    ensures SumsOf(s).Denominator() == Spread(s)
    ensures Spread(s) >= 0.0
  {
    if s != [] {
      DenominatorIsSpread(Init(s));
      SpreadFromExpansion(Init(s), Last(s).t);
      SpreadFromNonNegative(Init(s), Last(s).t);
      DenominatorOfAdd(SumsOf(Init(s)), Last(s));
    }
  }

  // ---- Optimality -----------------------------------------------------------------

  /** The squared residuals of a line as a polynomial in its coefficients. */
  function ResidualsFromSums(q: Sums, a: real, b: real): real {
    q.yy - 2.0 * a * q.y - 2.0 * b * q.ty + q.n * a * a + 2.0 * a * b * q.t + b * b * q.tt
  }

  lemma {:induction false} ResidualsOfAdd(q: Sums, p: Sample, l: Line)
    ensures ResidualsFromSums(Add(q, p), l.intercept, l.slope)
         == ResidualsFromSums(q, l.intercept, l.slope) + (p.y - l.At(p.t)) * (p.y - l.At(p.t))
  {
    ResidualStep(q.n, q.t, q.tt, q.y, q.ty, q.yy, p.t, p.y, l.intercept, l.slope);
  }

  lemma {:induction false} ResidualsExpansion(s: seq<Sample>, l: Line)
    ensures Residuals(s, l) == ResidualsFromSums(SumsOf(s), l.intercept, l.slope)
  {
    if s != [] {
      var (q, p) := (SumsOf(Init(s)), Last(s));
      var error := p.y - l.At(p.t);
      calc {
        Residuals(s, l);
        Residuals(Init(s), l) + error * error;
        { ResidualsExpansion(Init(s), l); }
        ResidualsFromSums(q, l.intercept, l.slope) + error * error;
        { ResidualsOfAdd(q, p, l); }
        ResidualsFromSums(Add(q, p), l.intercept, l.slope);
      }
    }
  }

  /** The slope and intercept the source computes from its sums. */
  function Fit(q: Sums): Line
    requires q.n > 0.0 && q.Denominator() != 0.0
  {
    var slope := SlopeFrom(q.n, q.t, q.y, q.ty, q.Denominator());
    Line(InterceptFrom(q.n, q.t, q.y, slope), slope)
  }

  ghost predicate SolvesNormalEquations(q: Sums, l: Line) {
    && q.n * l.intercept + l.slope * q.t == q.y
    && l.intercept * q.t + l.slope * q.tt == q.ty
  }

  lemma {:induction false} FitSolvesNormalEquations(q: Sums)
    requires q.n > 0.0 && q.Denominator() != 0.0
    ensures SolvesNormalEquations(q, Fit(q))
  {
    var l := Fit(q);
    assert l.slope * q.Denominator() == q.n * q.ty - q.t * q.y;
    assert q.n * l.intercept == q.y - l.slope * q.t;
    NormalEquations(q.n, q.t, q.tt, q.y, q.ty, l.intercept, l.slope);
  }

  /** A solution of the normal equations strictly beats every other line. */
  lemma {:induction false} NormalEquationsBeat(q: Sums, l: Line, other: Line)
    requires q.n > 0.0 && q.Denominator() > 0.0 && SolvesNormalEquations(q, l) && other != l
    ensures ResidualsFromSums(q, l.intercept, l.slope) < ResidualsFromSums(q, other.intercept, other.slope)
  {
    var (u, v) := (other.intercept - l.intercept, other.slope - l.slope);
    ResidualGain(q.n, q.t, q.tt, q.y, q.ty, q.yy, l.intercept, l.slope, u, v);
    QuadraticForm(q.n, q.t, q.tt, u, v);
    assert l.intercept + u == other.intercept && l.slope + v == other.slope;
    assert q.n * l.intercept + l.slope * q.t - q.y == 0.0;
    assert l.intercept * q.t + l.slope * q.tt - q.ty == 0.0;
  }

  lemma {:induction false} FitBeats(s: seq<Sample>, other: Line)
    requires s != [] && Spread(s) > 0.0
    ensures SumsOf(s).n > 0.0 && SumsOf(s).Denominator() == Spread(s)
    ensures other != Fit(SumsOf(s)) ==> Residuals(s, Fit(SumsOf(s))) < Residuals(s, other)
  {
    DenominatorIsSpread(s);
    SumsCount(s);
    var best := Fit(SumsOf(s));
    if other != best {
      FitSolvesNormalEquations(SumsOf(s));
      ResidualsExpansion(s, best);
      ResidualsExpansion(s, other);
      NormalEquationsBeat(SumsOf(s), best, other);
    }
  }

  /** The source's line is the unique minimiser of the squared residuals. */
  lemma {:induction false} FitIsLeastSquares(s: seq<Sample>, l: Line)
    requires s != [] && Spread(s) >= DEGENERATE
    ensures SumsOf(s).n > 0.0 && SumsOf(s).Denominator() >= DEGENERATE
    ensures IsLeastSquares(s, l) <==> l == Fit(SumsOf(s))
  {
    FitBeats(s, l);
    var best := Fit(SumsOf(s));
    forall other: Line
      ensures Residuals(s, best) <= Residuals(s, other)
    {
      FitBeats(s, other);
    }
  }

  // ---- Data on a straight line ------------------------------------------------------

  ghost predicate OnLine(s: seq<Sample>, l: Line) {
    forall i :: 0 <= i < |s| ==> s[i].y == l.At(s[i].t)
  }

  lemma {:induction false} ResidualsOnLine(s: seq<Sample>, l: Line)
    requires OnLine(s, l)
    ensures Residuals(s, l) == 0.0
  {
    if s != [] {
      assert OnLine(Init(s), l);
      ResidualsOnLine(Init(s), l);
    }
  }

  lemma {:induction false} ResidualsNonNegative(s: seq<Sample>, l: Line)
    ensures Residuals(s, l) >= 0.0
  {
    if s != [] {
      ResidualsNonNegative(Init(s), l);
      var d := Last(s).y - l.At(Last(s).t);
      assert d * d >= 0.0;
    }
  }

  /** On data that lie on a line, that line is the fit. */
  lemma {:induction false} LineRecovered(s: seq<Sample>, l: Line)
    requires s != [] && OnLine(s, l) && Spread(s) >= DEGENERATE
    ensures SumsOf(s).n > 0.0 && SumsOf(s).Denominator() >= DEGENERATE
    ensures Fit(SumsOf(s)) == l
  {
    ResidualsOnLine(s, l);
    forall other: Line
      ensures Residuals(s, l) <= Residuals(s, other)
    {
      ResidualsNonNegative(s, other);
    }
    assert IsLeastSquares(s, l);
    FitIsLeastSquares(s, l);
  }
}
