/**
 * The least-squares line through the extracted points (app.py:149-193):
 * five running sums, the slope and intercept from the normal equations, the
 * coefficient of determination, and the two end points of the drawn line.
 * Numbers are exact reals: the square root of the source is kept squared
 * (`r * r` is computed as num * num / (Dx * Dy)). Expanded sums keep every
 * coefficient, `1.0` included, in the shape of `Statistics.TotalAffine`.
 */
module Regression {
  import opened Wrappers
  import opened Types
  import opened Statistics

  /** `Math.min(...xValues)`: the smallest x. */
  function MinX(ps: seq<Point>): (m: real)
    requires ps != []
    ensures exists i :: 0 <= i < |ps| && ps[i].x == m
    ensures forall i :: 0 <= i < |ps| ==> m <= ps[i].x
    decreases |ps|
  {
    if |ps| == 1 then ps[0].x
    else
      var rest := MinX(ps[..|ps| - 1]);
      if ps[|ps| - 1].x < rest then ps[|ps| - 1].x else rest
  }

  /** `Math.max(...xValues)`: the largest x. */
  function MaxX(ps: seq<Point>): (m: real)
    requires ps != []
    ensures exists i :: 0 <= i < |ps| && ps[i].x == m
    ensures forall i :: 0 <= i < |ps| ==> ps[i].x <= m
    decreases |ps|
  {
    if |ps| == 1 then ps[0].x
    else
      var rest := MaxX(ps[..|ps| - 1]);
      if ps[|ps| - 1].x > rest then ps[|ps| - 1].x else rest
  }

  /** `numeratorSlope / denominatorSlope`. */
  function Slope(num: real, dx: real): real
    requires dx != 0.0
  {
    num / dx
  }

  /** `(sumY - slope * sumX) / n`. */
  function Intercept(n: real, sumX: real, sumY: real, slope: real): real
    requires n > 0.0
  {
    (sumY - slope * sumX) / n
  }

  /**
   * `r * r` with `r = rNumerator / Math.sqrt(dx * dy)`, or 0 when the square
   * root is zero. With the sums of real points the product dx * dy is never
   * negative.
   */
  function RSquared(num: real, dx: real, dy: real): (q: real)
    ensures dx * dy == 0.0 ==> q == 0.0
    ensures dx * dy != 0.0 ==> q * (dx * dy) == num * num
    ensures dx * dy > 0.0 ==> q >= 0.0
  {
    if dx * dy == 0.0 then 0.0 else num * num / (dx * dy)
  }

  /** The point p lies on the line y = slope * x + intercept. */
  predicate OnLine(p: Point, slope: real, intercept: real) {
    p.y == slope * p.x + intercept
  }

  /** The point of the line at x. */
  function LinePoint(slope: real, intercept: real, x: real): Point {
    Point(x, slope * x + intercept)
  }

  /** The x spread of the points is the slope's denominator. */
  function SpreadX(ps: seq<Point>): real {
    Spread(ps, XOf, XXOf)
  }

  /** The y spread of the points. */
  function SpreadY(ps: seq<Point>): real {
    Spread(ps, YOf, YYOf)
  }

  /** n times the sum of x*y minus the product of the sums: the slope's numerator. */
  function Covariation(ps: seq<Point>): real {
    Count(ps) * Total(ps, XYOf) - Total(ps, XOf) * Total(ps, YOf)
  }

  /**
   * Everything after the loop (app.py:165-192), given the count, the sums of
   * x and y, the slope's numerator and denominator, the y spread and the
   * extreme x values.
   */
  function FromSums(n: real, sumX: real, sumY: real, num: real, dx: real, dy: real, minX: real, maxX: real)
    : (r: Option<RegressionResult>)
    requires n > 0.0
    ensures r.Some? <==> dx != 0.0
    ensures r.Some? ==> r.value.rSquared == RSquared(num, dx, dy)
    ensures r.Some? ==> r.value.slope * dx == num && n * r.value.intercept == sumY - r.value.slope * sumX
  {
    if dx == 0.0 then None
    else
      var slope := Slope(num, dx);
      var intercept := Intercept(n, sumX, sumY, slope);
      Some(RegressionResult(slope, intercept, RSquared(num, dx, dy),
        [LinePoint(slope, intercept, minX), LinePoint(slope, intercept, maxX)]))
  }

  /** The regression over `ps`, or None where the source sets it to null (fewer than two points, or a zero x spread). */
  function Fit(ps: seq<Point>): (r: Option<RegressionResult>)
    ensures r.Some? <==> |ps| >= 2 && SpreadX(ps) != 0.0
  {
    if |ps| < 2 then None
    else
      FromSums(Count(ps), Total(ps, XOf), Total(ps, YOf), Covariation(ps), SpreadX(ps), SpreadY(ps),
               MinX(ps), MaxX(ps))
  }

  /** The regression as the source computes it: one pass accumulating the five sums, then the closed forms. */
  method Regress(points: seq<Point>) returns (r: Option<RegressionResult>)
    ensures r == Fit(points)
  {
    if |points| < 2 {
      return None;
    }
    var n := |points| as real;
    var sumX, sumY, sumXY, sumX2, sumY2 := 0.0, 0.0, 0.0, 0.0, 0.0;
    for i := 0 to |points|
      invariant sumX == Total(points[..i], XOf) && sumY == Total(points[..i], YOf)
      invariant sumXY == Total(points[..i], XYOf)
      invariant sumX2 == Total(points[..i], XXOf) && sumY2 == Total(points[..i], YYOf)
    {
      var p := points[i];
      assert points[..i + 1][..i] == points[..i] && points[..i + 1][i] == p;
      sumX := sumX + p.x;
      sumY := sumY + p.y;
      sumXY := sumXY + p.x * p.y;
      sumX2 := sumX2 + p.x * p.x;
      sumY2 := sumY2 + p.y * p.y;
    }
    assert points[..|points|] == points;
    var numeratorSlope := n * sumXY - sumX * sumY;
    var denominatorSlope := n * sumX2 - sumX * sumX;
    var spreadY := n * sumY2 - sumY * sumY;
    assert numeratorSlope == Covariation(points);
    assert denominatorSlope == SpreadX(points) && spreadY == SpreadY(points);
    r := FromSums(n, sumX, sumY, numeratorSlope, denominatorSlope, spreadY, MinX(points), MaxX(points));
  }

  /**
   * No line is fitted exactly when there are fewer than two points or when
   * every point has the same x.
   */
  lemma FitDefinedIff(ps: seq<Point>)
    ensures Fit(ps).Some? <==> |ps| >= 2 && !AllSame(ps, XOf)
  {
    if |ps| >= 2 {
      SpreadZeroIffAllSame(ps, XOf, XXOf);
    }
  }

  /** The vertical distance from the point p to the line y = a*x + c. */
  function Residual(a: real, c: real, p: Point): real {
    p.y - (a * p.x + c)
  }

  /** Each point's residual from the line y = a*x + c. */
  function Residuals(a: real, c: real): Point -> real {
    (p: Point) => Residual(a, c, p)
  }

  /** Each point's residual times its x. */
  function WeightedResiduals(a: real, c: real): Point -> real {
    (p: Point) => p.x * Residual(a, c, p)
  }

  /** Each point's squared residual. */
  function SquaredResiduals(a: real, c: real): Point -> real {
    (p: Point) => Residual(a, c, p) * Residual(a, c, p)
  }

  /** The sum of squared residuals of the line y = a*x + c. */
  function SquaredError(ps: seq<Point>, a: real, c: real): real {
    Total(ps, SquaredResiduals(a, c))
  }

  /** The fit, spelled out for a list on which it is defined. */
  lemma FitValue(ps: seq<Point>, r: RegressionResult)
    requires Fit(ps) == Some(r)
    ensures |ps| >= 2 && SpreadX(ps) != 0.0
    ensures r.slope == Slope(Covariation(ps), SpreadX(ps))
    ensures r.intercept == Intercept(Count(ps), Total(ps, XOf), Total(ps, YOf), r.slope)
    ensures r.rSquared == RSquared(Covariation(ps), SpreadX(ps), SpreadY(ps))
    ensures r.lineData == [LinePoint(r.slope, r.intercept, MinX(ps)), LinePoint(r.slope, r.intercept, MaxX(ps))]
  {
  }

  lemma SlopeTimesSpread(num: real, dx: real, slope: real)
    requires dx != 0.0 && slope == Slope(num, dx)
    ensures slope * dx == num
  {
  }

  lemma InterceptTimesCount(n: real, sumX: real, sumY: real, slope: real, intercept: real)
    requires n > 0.0 && intercept == Intercept(n, sumX, sumY, slope)
    ensures n * intercept == sumY - slope * sumX
  {
  }

  /** The slope equation for the points' own sums, kept apart to keep `FitEquations` small. */
  lemma FitSlopeEquation(ps: seq<Point>, a: real)
    requires SpreadX(ps) != 0.0 && a == Slope(Covariation(ps), SpreadX(ps))
    ensures a * SpreadX(ps) == Covariation(ps)
  {
    SlopeTimesSpread(Covariation(ps), SpreadX(ps), a);
  }

  /** The intercept equation for the points' own sums, kept apart for the same reason. */
  lemma FitInterceptEquation(ps: seq<Point>, a: real, c: real)
    requires ps != [] && c == Intercept(Count(ps), Total(ps, XOf), Total(ps, YOf), a)
    ensures Count(ps) > 0.0 && Count(ps) * c == Total(ps, YOf) - a * Total(ps, XOf)
  {
    InterceptTimesCount(Count(ps), Total(ps, XOf), Total(ps, YOf), a, c);
  }

  /**
   * The fitted slope a and intercept c, multiplied out: the slope times the
   * x spread is the covariation, and n times the intercept is the sum of y
   * less the slope times the sum of x.
   */
  lemma FitEquations(ps: seq<Point>, r: RegressionResult, a: real, c: real)
    requires Fit(ps) == Some(r) && a == r.slope && c == r.intercept
    ensures |ps| >= 2 && Count(ps) > 0.0
    ensures a * SpreadX(ps) == Covariation(ps)
    ensures Count(ps) * c == Total(ps, YOf) - a * Total(ps, XOf)
  {
    FitValue(ps, r);
    FitSlopeEquation(ps, a);
    FitInterceptEquation(ps, a, c);
  }

  lemma MeanAlgebra(n: real, sumX: real, sumY: real, slope: real, intercept: real)
    requires n > 0.0 && n * intercept == sumY - slope * sumX
    ensures slope * (sumX / n) + intercept == sumY / n
  {
  }

  /** The average of f over the points. */
  function Mean(ps: seq<Point>, f: Point -> real): real
    requires ps != []
  {
    Total(ps, f) / Count(ps)
  }

  lemma LineThroughMeans(ps: seq<Point>, a: real, c: real)
    requires ps != [] && Count(ps) > 0.0
    requires Count(ps) * c == Total(ps, YOf) - a * Total(ps, XOf)
    ensures a * Mean(ps, XOf) + c == Mean(ps, YOf)
  {
    MeanAlgebra(Count(ps), Total(ps, XOf), Total(ps, YOf), a, c);
  }

  /** The fitted line passes through the mean point (mean x, mean y). */
  lemma FitThroughMeans(ps: seq<Point>, r: RegressionResult)
    requires Fit(ps) == Some(r)
    ensures ps != [] && r.slope * Mean(ps, XOf) + r.intercept == Mean(ps, YOf)
  {
    var a, c := r.slope, r.intercept;
    FitEquations(ps, r, a, c);
    LineThroughMeans(ps, a, c);
  }

  lemma InterceptAlgebra(n: real, sumX: real, sumY: real, slope: real, intercept: real, e: real)
    requires n * intercept == sumY - slope * sumX
    requires e == sumY - slope * sumX - intercept * n
    ensures e == 0.0
  {
  }

  lemma WeightedAlgebra(n: real, sumX: real, sumY: real, sumXY: real, sumX2: real,
                        slope: real, intercept: real, w: real)
    requires n * intercept == sumY - slope * sumX
    requires w == 1.0 * sumXY + (-slope) * sumX2 + (-intercept) * sumX
    ensures n * w == (n * sumXY - sumX * sumY) - slope * (n * sumX2 - sumX * sumX)
  {
    calc {
      n * w;
      n * sumXY - slope * (n * sumX2) - (n * intercept) * sumX;
      n * sumXY - slope * (n * sumX2) - (sumY - slope * sumX) * sumX;
    }
  }

  lemma ZeroFactor(n: real, w: real, u: real, v: real)
    requires n > 0.0 && n * w == u - v && v == u
    ensures w == 0.0
  {
  }

  /** The sum of the residuals of any line, in terms of the sums of x and y. */
  lemma ResidualTotal(ps: seq<Point>, a: real, c: real)
    ensures Total(ps, Residuals(a, c)) == Total(ps, YOf) - a * Total(ps, XOf) - c * Count(ps)
  {
    var e := Residuals(a, c);
    forall i | 0 <= i < |ps| ensures e(ps[i]) == 1.0 * YOf(ps[i]) + (-a) * XOf(ps[i]) + (-c) {
    }
    TotalAffine(ps, YOf, XOf, e, 1.0, -a, -c);
  }

  /** The sum of the x-weighted residuals of any line, in terms of the sums of x*y, x*x and x. */
  lemma WeightedResidualTotal(ps: seq<Point>, a: real, c: real)
    ensures Total(ps, WeightedResiduals(a, c)) == 1.0 * Total(ps, XYOf) + (-a) * Total(ps, XXOf) + (-c) * Total(ps, XOf)
  {
    var w, na, nc := WeightedResiduals(a, c), -a, -c;
    WeightedResidualTerms(ps, a, c);
    TotalLinear(ps, XYOf, XXOf, XOf, w, 1.0, na, nc);
  }

  lemma WeightedResidualTerms(ps: seq<Point>, a: real, c: real)
    ensures forall i :: 0 <= i < |ps| ==>
      WeightedResiduals(a, c)(ps[i]) == 1.0 * XYOf(ps[i]) + (-a) * XXOf(ps[i]) + (-c) * XOf(ps[i])
  {
    forall i | 0 <= i < |ps|
      ensures WeightedResiduals(a, c)(ps[i]) == 1.0 * XYOf(ps[i]) + (-a) * XXOf(ps[i]) + (-c) * XOf(ps[i])
    {
      WeightedResidualExpands(ps[i].x, ps[i].y, a, c);
    }
  }

  lemma WeightedResidualExpands(x: real, y: real, a: real, c: real)
    ensures x * (y - (a * x + c)) == 1.0 * (x * y) + (-a) * (x * x) + (-c) * x
  {
  }

  /** The residuals of a line sum to zero when n times its intercept is the sum of y less its slope times the sum of x. */
  lemma ResidualsBalance(ps: seq<Point>, a: real, c: real)
    requires Count(ps) * c == Total(ps, YOf) - a * Total(ps, XOf)
    ensures Total(ps, Residuals(a, c)) == 0.0
  {
    ResidualTotal(ps, a, c);
    InterceptAlgebra(Count(ps), Total(ps, XOf), Total(ps, YOf), a, c, Total(ps, Residuals(a, c)));
  }

  lemma WeightedResidualsVanish(ps: seq<Point>, a: real, c: real, w: real)
    requires Count(ps) > 0.0 && a * SpreadX(ps) == Covariation(ps)
    requires Count(ps) * c == Total(ps, YOf) - a * Total(ps, XOf)
    requires w == 1.0 * Total(ps, XYOf) + (-a) * Total(ps, XXOf) + (-c) * Total(ps, XOf)
    ensures w == 0.0
  {
    WeightedAlgebra(Count(ps), Total(ps, XOf), Total(ps, YOf), Total(ps, XYOf), Total(ps, XXOf), a, c, w);
    ZeroFactor(Count(ps), w, Covariation(ps), a * SpreadX(ps));
  }

  /** If moreover its slope times the x spread is the covariation, the x-weighted residuals sum to zero too. */
  lemma WeightedResidualsBalance(ps: seq<Point>, a: real, c: real)
    requires Count(ps) > 0.0 && a * SpreadX(ps) == Covariation(ps)
    requires Count(ps) * c == Total(ps, YOf) - a * Total(ps, XOf)
    ensures Total(ps, WeightedResiduals(a, c)) == 0.0
  {
    WeightedResidualTotal(ps, a, c);
    WeightedResidualsVanish(ps, a, c, Total(ps, WeightedResiduals(a, c)));
  }

  /**
   * The normal equations of least squares: the residuals of the fitted line
   * sum to zero, and so do the residuals weighted by x.
   */
  lemma NormalEquations(ps: seq<Point>, r: RegressionResult)
    requires Fit(ps) == Some(r)
    ensures Total(ps, Residuals(r.slope, r.intercept)) == 0.0
    ensures Total(ps, WeightedResiduals(r.slope, r.intercept)) == 0.0
  {
    var a, c := r.slope, r.intercept;
    FitEquations(ps, r, a, c);
    ResidualsBalance(ps, a, c);
    WeightedResidualsBalance(ps, a, c);
  }

  /** The gap at p.x between two lines whose slopes differ by d and intercepts by k. */
  function Gap(d: real, k: real, p: Point): real {
    d * p.x + k
  }

  /** Each point's gap between two lines times its residual from the line (s, i). */
  function CrossTerms(s: real, i: real, d: real, k: real): Point -> real {
    (p: Point) => Gap(d, k, p) * Residual(s, i, p)
  }

  /** Each point's squared gap between two lines. */
  function GapSquares(d: real, k: real): Point -> real {
    (p: Point) => Gap(d, k, p) * Gap(d, k, p)
  }

  /** The residual from (a, c) is the residual from (s, i) plus the gap between the two lines. */
  lemma ResidualShift(p: Point, s: real, i: real, a: real, c: real)
    ensures Residual(a, c, p) == Residual(s, i, p) + Gap(s - a, i - c, p)
  {
  }

  lemma SquareOfSum(r: real, e: real, v: real)
    requires r == e + v
    ensures r * r == 1.0 * (e * e) + 2.0 * (v * e) + 1.0 * (v * v)
  {
  }

  lemma SquaredErrorTerm(p: Point, s: real, i: real, a: real, c: real)
    ensures SquaredResiduals(a, c)(p)
      == 1.0 * SquaredResiduals(s, i)(p) + 2.0 * CrossTerms(s, i, s - a, i - c)(p)
         + 1.0 * GapSquares(s - a, i - c)(p)
  {
    ResidualShift(p, s, i, a, c);
    SquareOfSum(Residual(a, c, p), Residual(s, i, p), Gap(s - a, i - c, p));
  }

  lemma SquaredErrorTerms(ps: seq<Point>, s: real, i: real, a: real, c: real)
    ensures forall j :: 0 <= j < |ps| ==>
      SquaredResiduals(a, c)(ps[j])
        == 1.0 * SquaredResiduals(s, i)(ps[j]) + 2.0 * CrossTerms(s, i, s - a, i - c)(ps[j])
           + 1.0 * GapSquares(s - a, i - c)(ps[j])
  {
    forall j | 0 <= j < |ps|
      ensures SquaredResiduals(a, c)(ps[j])
        == 1.0 * SquaredResiduals(s, i)(ps[j]) + 2.0 * CrossTerms(s, i, s - a, i - c)(ps[j])
           + 1.0 * GapSquares(s - a, i - c)(ps[j])
    {
      SquaredErrorTerm(ps[j], s, i, a, c);
    }
  }

  /** The squared error of any line (a, c), split around the line (s, i). */
  lemma SquaredErrorSplits(ps: seq<Point>, s: real, i: real, a: real, c: real)
    ensures SquaredError(ps, a, c)
      == 1.0 * SquaredError(ps, s, i) + 2.0 * Total(ps, CrossTerms(s, i, s - a, i - c))
         + 1.0 * Total(ps, GapSquares(s - a, i - c))
  {
    SquaredErrorTerms(ps, s, i, a, c);
    TotalLinear(ps, SquaredResiduals(s, i), CrossTerms(s, i, s - a, i - c), GapSquares(s - a, i - c),
                SquaredResiduals(a, c), 1.0, 2.0, 1.0);
  }

  lemma CrossExpands(g: real, x: real, e: real, w: real, d: real, k: real)
    requires g == d * x + k && w == x * e
    ensures g * e == d * w + k * e
  {
  }

  /** The cross terms sum to d times the weighted residuals plus k times the residuals. */
  lemma CrossTermsTotal(ps: seq<Point>, s: real, i: real, d: real, k: real)
    ensures Total(ps, CrossTerms(s, i, d, k))
      == d * Total(ps, WeightedResiduals(s, i)) + k * Total(ps, Residuals(s, i))
  {
    var cross, weighted, residuals := CrossTerms(s, i, d, k), WeightedResiduals(s, i), Residuals(s, i);
    forall j | 0 <= j < |ps|
      ensures cross(ps[j]) == d * weighted(ps[j]) + k * residuals(ps[j])
    {
      var p := ps[j];
      var g, e, w := Gap(d, k, p), Residual(s, i, p), weighted(p);
      CrossExpands(g, p.x, e, w, d, k);
    }
    TotalPair(ps, weighted, residuals, cross, d, k);
  }

  /** The squared gaps between two lines never sum to a negative number. */
  lemma GapSquaresNonnegative(ps: seq<Point>, d: real, k: real)
    ensures Total(ps, GapSquares(d, k)) >= 0.0
  {
    forall j | 0 <= j < |ps| ensures GapSquares(d, k)(ps[j]) >= 0.0 {
      var v := Gap(d, k, ps[j]);
      NonnegativeSquareOf(v, v, GapSquares(d, k)(ps[j]));
    }
    TotalOfNonnegative(ps, GapSquares(d, k));
  }

  /** The square m of any value is never negative (the value is passed twice, as in PositiveSquare). */
  lemma NonnegativeSquareOf(u: real, w: real, m: real)
    requires u == w && m == u * w
    ensures m >= 0.0
  {
    if u > 0.0 {
      PositiveProduct(u, w);
    } else if u < 0.0 {
      NegativeProduct(u, w);
    }
  }

  lemma LeastSquaresAlgebra(e: real, e': real, x: real, g: real, w: real, z: real, d: real, k: real)
    requires e' == 1.0 * e + 2.0 * x + 1.0 * g
    requires x == d * w + k * z
    requires w == 0.0 && z == 0.0 && g >= 0.0
    ensures e <= e'
  {
    assert d * w == 0.0 && k * z == 0.0;
    assert x == 0.0;
  }

  /**
   * Least squares: no line has a smaller sum of squared residuals than the
   * fitted one.
   */
  lemma LeastSquares(ps: seq<Point>, r: RegressionResult, a: real, c: real)
    requires Fit(ps) == Some(r)
    ensures SquaredError(ps, r.slope, r.intercept) <= SquaredError(ps, a, c)
  {
    var s, i := r.slope, r.intercept;
    var d, k := s - a, i - c;
    var fitted, other := SquaredError(ps, s, i), SquaredError(ps, a, c);
    var cross, gaps := Total(ps, CrossTerms(s, i, d, k)), Total(ps, GapSquares(d, k));
    var weighted, residuals := Total(ps, WeightedResiduals(s, i)), Total(ps, Residuals(s, i));
    NormalEquations(ps, r);
    SquaredErrorSplits(ps, s, i, a, c);
    CrossTermsTotal(ps, s, i, d, k);
    GapSquaresNonnegative(ps, d, k);
    LeastSquaresAlgebra(fitted, other, cross, gaps, weighted, residuals, d, k);
  }

  /** The smallest x is at most the largest, and equal to it only when every x is the same. */
  lemma MinMaxOrder(ps: seq<Point>)
    requires ps != []
    ensures MinX(ps) <= MaxX(ps)
    ensures MinX(ps) == MaxX(ps) ==> AllSame(ps, XOf)
  {
    if MinX(ps) == MaxX(ps) {
      forall i, j | 0 <= i < |ps| && 0 <= j < |ps| ensures XOf(ps[i]) == XOf(ps[j]) {
      }
    }
  }

  lemma LineDataOf(ps: seq<Point>, r: RegressionResult, a: real, c: real, lo: real, hi: real, line: seq<Point>)
    requires Fit(ps) == Some(r) && a == r.slope && c == r.intercept && line == r.lineData
    requires ps != [] && lo == MinX(ps) && hi == MaxX(ps)
    ensures |ps| >= 2 && !AllSame(ps, XOf)
    ensures line == [LinePoint(a, c, lo), LinePoint(a, c, hi)]
  {
    FitValue(ps, r);
    FitDefinedIff(ps);
  }

  lemma SegmentSpans(ps: seq<Point>, lo: real, hi: real, line: seq<Point>)
    requires ps != [] && !AllSame(ps, XOf) && lo == MinX(ps) && hi == MaxX(ps)
    requires |line| == 2 && line[0].x == lo && line[1].x == hi
    ensures line[0].x < line[1].x
    ensures forall i :: 0 <= i < |ps| ==> line[0].x <= ps[i].x <= line[1].x
    ensures exists i :: 0 <= i < |ps| && ps[i].x == line[0].x
    ensures exists j :: 0 <= j < |ps| && ps[j].x == line[1].x
  {
    MinMaxOrder(ps);
  }

  lemma SegmentOnLine(a: real, c: real, lo: real, hi: real, line: seq<Point>)
    requires line == [LinePoint(a, c, lo), LinePoint(a, c, hi)]
    ensures |line| == 2 && line[0].x == lo && line[1].x == hi
    ensures OnLine(line[0], a, c) && OnLine(line[1], a, c)
  {
  }

  /**
   * `lineData` is a segment of the fitted line from the smallest observed x
   * to the largest: two points, left to right, that span every point.
   */
  lemma LineSpansPoints(ps: seq<Point>, r: RegressionResult)
    requires Fit(ps) == Some(r)
    ensures |r.lineData| == 2 && r.lineData[0].x < r.lineData[1].x
    ensures forall i :: 0 <= i < |ps| ==> r.lineData[0].x <= ps[i].x <= r.lineData[1].x
    ensures exists i :: 0 <= i < |ps| && ps[i].x == r.lineData[0].x
    ensures exists j :: 0 <= j < |ps| && ps[j].x == r.lineData[1].x
    ensures OnLine(r.lineData[0], r.slope, r.intercept) && OnLine(r.lineData[1], r.slope, r.intercept)
  {
    assert |ps| >= 2;
    var a, c, lo, hi, line := r.slope, r.intercept, MinX(ps), MaxX(ps), r.lineData;
    LineDataOf(ps, r, a, c, lo, hi, line);
    SegmentOnLine(a, c, lo, hi, line);
    SegmentSpans(ps, lo, hi, line);
  }
}
