/**
 * The coefficient of determination of the fit (app.py:176-179): the
 * covariation squared never exceeds the product of the two spreads
 * (Cauchy-Schwarz), so r squared lies between 0 and 1, and it does not
 * change when x and y trade places. Expanded sums keep every coefficient,
 * `1.0` included, in the shape of `Statistics.TotalAffine`.
 */
module Correlation {
  import opened Wrappers
  import opened Types
  import opened Statistics
  import opened Regression

  /** y less a times x. */
  function Detrend(a: real, p: Point): real {
    p.y - a * p.x
  }

  function Detrended(a: real): Point -> real {
    (p: Point) => Detrend(a, p)
  }

  function DetrendedSquares(a: real): Point -> real {
    (p: Point) => Detrend(a, p) * Detrend(a, p)
  }

  lemma DetrendedTotal(ps: seq<Point>, a: real)
    ensures Total(ps, Detrended(a)) == Total(ps, YOf) - a * Total(ps, XOf)
  {
    var f, na := Detrended(a), -a;
    forall j | 0 <= j < |ps| ensures f(ps[j]) == 1.0 * YOf(ps[j]) + na * XOf(ps[j]) {
    }
    TotalPair(ps, YOf, XOf, f, 1.0, na);
  }

  lemma DetrendedSquareAt(p: Point, a: real, b: real, c: real)
    requires b == -2.0 * a && c == a * a
    ensures DetrendedSquares(a)(p) == 1.0 * YYOf(p) + b * XYOf(p) + c * XXOf(p)
  {
    var x, y := p.x, p.y;
    calc {
      (y - a * x) * (y - a * x);
      1.0 * (y * y) + (-2.0 * a) * (x * y) + (a * a) * (x * x);
    }
  }

  lemma DetrendedSquaresTotal(ps: seq<Point>, a: real)
    ensures Total(ps, DetrendedSquares(a))
      == 1.0 * Total(ps, YYOf) + (-2.0 * a) * Total(ps, XYOf) + (a * a) * Total(ps, XXOf)
  {
    var g, b, c := DetrendedSquares(a), -2.0 * a, a * a;
    forall j | 0 <= j < |ps| ensures g(ps[j]) == 1.0 * YYOf(ps[j]) + b * XYOf(ps[j]) + c * XXOf(ps[j]) {
      DetrendedSquareAt(ps[j], a, b, c);
    }
    TotalLinear(ps, YYOf, XYOf, XXOf, g, 1.0, b, c);
  }

  lemma DetrendedSpreadAlgebra(n: real, sx: real, sy: real, sxy: real, sxx: real, syy: real,
                               a: real, t: real, tt: real, dx: real, dy: real, cv: real, d: real)
    requires t == sy - a * sx
    requires tt == 1.0 * syy + (-2.0 * a) * sxy + (a * a) * sxx
    requires dx == n * sxx - sx * sx && dy == n * syy - sy * sy && cv == n * sxy - sx * sy
    requires d == n * tt - t * t
    ensures d == dy - 2.0 * a * cv + a * a * dx
  {
  }

  /** A spread in terms of its count, its sum and its sum of squares. */
  lemma SpreadOfSums(ps: seq<Point>, f: Point -> real, ff: Point -> real, n: real, s: real, ss: real, d: real)
    requires n == Count(ps) && s == Total(ps, f) && ss == Total(ps, ff) && d == Spread(ps, f, ff)
    ensures d == n * ss - s * s
  {
  }

  lemma CovariationOfSums(ps: seq<Point>, n: real, sx: real, sy: real, sxy: real, cv: real)
    requires n == Count(ps) && sx == Total(ps, XOf) && sy == Total(ps, YOf) && sxy == Total(ps, XYOf)
    requires cv == Covariation(ps)
    ensures cv == n * sxy - sx * sy
  {
  }

  lemma DetrendedTotalOf(ps: seq<Point>, a: real, sx: real, sy: real, t: real)
    requires sx == Total(ps, XOf) && sy == Total(ps, YOf) && t == Total(ps, Detrended(a))
    ensures t == sy - a * sx
  {
    DetrendedTotal(ps, a);
  }

  lemma DetrendedSquaresTotalOf(ps: seq<Point>, a: real, sxy: real, sxx: real, syy: real, tt: real)
    requires sxy == Total(ps, XYOf) && sxx == Total(ps, XXOf) && syy == Total(ps, YYOf)
    requires tt == Total(ps, DetrendedSquares(a))
    ensures tt == 1.0 * syy + (-2.0 * a) * sxy + (a * a) * sxx
  {
    DetrendedSquaresTotal(ps, a);
  }

  /** The spread of y - a*x is the y spread, less 2a times the covariation, plus a squared times the x spread. */
  lemma DetrendedSpread(ps: seq<Point>, a: real, dx: real, dy: real, cv: real, d: real)
    requires dx == SpreadX(ps) && dy == SpreadY(ps) && cv == Covariation(ps)
    requires d == Spread(ps, Detrended(a), DetrendedSquares(a))
    ensures d == dy - 2.0 * a * cv + a * a * dx
  {
    var n, sx, sy, sxy := Count(ps), Total(ps, XOf), Total(ps, YOf), Total(ps, XYOf);
    var sxx, syy := Total(ps, XXOf), Total(ps, YYOf);
    var t, tt := Total(ps, Detrended(a)), Total(ps, DetrendedSquares(a));
    DetrendedTotalOf(ps, a, sx, sy, t);
    DetrendedSquaresTotalOf(ps, a, sxy, sxx, syy, tt);
    SpreadOfSums(ps, XOf, XXOf, n, sx, sxx, dx);
    SpreadOfSums(ps, YOf, YYOf, n, sy, syy, dy);
    SpreadOfSums(ps, Detrended(a), DetrendedSquares(a), n, t, tt, d);
    CovariationOfSums(ps, n, sx, sy, sxy, cv);
    DetrendedSpreadAlgebra(n, sx, sy, sxy, sxx, syy, a, t, tt, dx, dy, cv, d);
  }

  lemma DetrendedSpreadSign(ps: seq<Point>, a: real, d: real)
    requires d == Spread(ps, Detrended(a), DetrendedSquares(a))
    ensures d >= 0.0
  {
    SpreadNonnegative(ps, Detrended(a), DetrendedSquares(a));
  }

  lemma DetrendedSpreadNonnegative(ps: seq<Point>, a: real, dx: real, dy: real, cv: real)
    requires dx == SpreadX(ps) && dy == SpreadY(ps) && cv == Covariation(ps)
    ensures dy - 2.0 * a * cv + a * a * dx >= 0.0
  {
    var d := Spread(ps, Detrended(a), DetrendedSquares(a));
    DetrendedSpread(ps, a, dx, dy, cv, d);
    DetrendedSpreadSign(ps, a, d);
  }

  /** A value that d times is u. */
  lemma Quotient(u: real, d: real) returns (a: real)
    requires d != 0.0
    ensures a * d == u
  {
    a := u / d;
  }

  lemma CauchySchwarzAlgebra(dx: real, dy: real, cv: real, a: real, v: real)
    requires dx > 0.0 && a * dx == cv
    requires v == dy - 2.0 * a * cv + a * a * dx && v >= 0.0
    ensures cv * cv <= dx * dy
  {
    calc {
      dx * v;
      dx * dy - 2.0 * a * dx * cv + (a * dx) * (a * dx);
      dx * dy - cv * cv;
    }
    ScaledSign(dx, v, dx * v);
  }

  lemma FlatCovariationAlgebra(n: real, sx: real, sy: real, sxy: real, v: real, cv: real)
    requires sxy == v * sy && sx == v * n
    requires cv == n * sxy - sx * sy
    ensures cv == 0.0
  {
  }

  /** When every point has the same x, the covariation is zero. */
  lemma CovariationOfFlat(ps: seq<Point>, cv: real)
    requires AllSame(ps, XOf) && cv == Covariation(ps)
    ensures cv == 0.0
  {
    var n, sx, sy, sxy := Count(ps), Total(ps, XOf), Total(ps, YOf), Total(ps, XYOf);
    if ps == [] {
      assert n == 0.0 && sx == 0.0 && sy == 0.0 && sxy == 0.0;
      FlatCovariationAlgebra(n, sx, sy, sxy, 0.0, cv);
    } else {
      var v := ps[0].x;
      forall j | 0 <= j < |ps|
        ensures XYOf(ps[j]) == v * YOf(ps[j]) && XOf(ps[j]) == v
      {
        assert XOf(ps[j]) == XOf(ps[0]);
      }
      TotalScaled(ps, YOf, XYOf, v);
      TotalConstant(ps, XOf, v);
      FlatCovariationAlgebra(n, sx, sy, sxy, v, cv);
    }
  }

  lemma SpreadCauchySchwarz(ps: seq<Point>, dx: real, dy: real, cv: real)
    requires dx == SpreadX(ps) && dy == SpreadY(ps) && cv == Covariation(ps) && dx > 0.0
    ensures cv * cv <= dx * dy
  {
    var a := Quotient(cv, dx);
    DetrendedSpreadNonnegative(ps, a, dx, dy, cv);
    CauchySchwarzAlgebra(dx, dy, cv, a, dy - 2.0 * a * cv + a * a * dx);
  }

  lemma SpreadXNonnegative(ps: seq<Point>, dx: real)
    requires dx == SpreadX(ps)
    ensures dx >= 0.0
  {
    SpreadNonnegative(ps, XOf, XXOf);
  }

  lemma SpreadYNonnegative(ps: seq<Point>, dy: real)
    requires dy == SpreadY(ps)
    ensures dy >= 0.0
  {
    SpreadNonnegative(ps, YOf, YYOf);
  }

  lemma FlatWhenNoSpread(ps: seq<Point>, dx: real)
    requires dx == SpreadX(ps) && dx <= 0.0
    ensures AllSame(ps, XOf)
  {
    SpreadZeroIffAllSame(ps, XOf, XXOf);
  }

  /** Cauchy-Schwarz for the sums: the covariation squared is at most the x spread times the y spread. */
  lemma CauchySchwarz(ps: seq<Point>, dx: real, dy: real, cv: real)
    requires dx == SpreadX(ps) && dy == SpreadY(ps) && cv == Covariation(ps)
    ensures cv * cv <= dx * dy
  {
    SpreadXNonnegative(ps, dx);
    if dx > 0.0 {
      SpreadCauchySchwarz(ps, dx, dy, cv);
    } else {
      FlatWhenNoSpread(ps, dx);
      CovariationOfFlat(ps, cv);
      assert cv * cv == 0.0 && dx * dy == 0.0;
    }
  }

  lemma RSquaredAlgebra(num: real, dx: real, dy: real, rs: real)
    requires dx > 0.0 && dy >= 0.0 && num * num <= dx * dy
    requires rs == RSquared(num, dx, dy)
    ensures 0.0 <= rs <= 1.0
  {
    var m := dx * dy;
    if m != 0.0 {
      ScaledSign(dx, dy, m);
      NonnegativeSquare(num);
      assert rs * m == num * num;
    }
  }

  lemma RSquaredOfSums(ps: seq<Point>, q: real, num: real, dx: real, dy: real)
    requires num == Covariation(ps) && dx == SpreadX(ps) && dy == SpreadY(ps)
    requires dx != 0.0 && q == RSquared(num, dx, dy)
    ensures 0.0 <= q <= 1.0
  {
    SpreadXNonnegative(ps, dx);
    SpreadYNonnegative(ps, dy);
    CauchySchwarz(ps, dx, dy, num);
    RSquaredAlgebra(num, dx, dy, q);
  }

  lemma FitRSquared(ps: seq<Point>, r: RegressionResult, q: real, num: real, dx: real, dy: real)
    requires Fit(ps) == Some(r) && q == r.rSquared
    requires num == Covariation(ps) && dx == SpreadX(ps) && dy == SpreadY(ps)
    ensures dx != 0.0 && q == RSquared(num, dx, dy)
  {
    FitValue(ps, r);
  }

  /** The fit's r squared lies between 0 and 1. */
  lemma RSquaredBounds(ps: seq<Point>, r: RegressionResult)
    requires Fit(ps) == Some(r)
    ensures 0.0 <= r.rSquared <= 1.0
  {
    var q, num, dx, dy := r.rSquared, Covariation(ps), SpreadX(ps), SpreadY(ps);
    FitRSquared(ps, r, q, num, dx, dy);
    RSquaredOfSums(ps, q, num, dx, dy);
  }
}
