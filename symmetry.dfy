/**
 * Exchanging the X and Y selections (app.py:141-147): the points trade
 * coordinates, the two spreads trade places and the covariation stays, so r
 * squared is the same both ways. The swapped fit exists exactly when the y
 * values are not all equal.
 */
module Symmetry {
  import opened Wrappers
  import opened Types
  import opened Statistics
  import opened Extraction
  import opened Regression
  import opened Correlation

  /** The point with its coordinates exchanged. */
  function Swap(p: Point): Point {
    Point(p.y, p.x)
  }

  /** Every point with its coordinates exchanged. */
  function Swapped(ps: seq<Point>): (qs: seq<Point>)
    ensures |qs| == |ps| && forall i :: 0 <= i < |ps| ==> qs[i] == Swap(ps[i])
  {
    seq(|ps|, i requires 0 <= i < |ps| => Swap(ps[i]))
  }

  /** A candidate point with its coordinates exchanged. */
  function SwapCandidate(c: Option<Point>): Option<Point> {
    match c
    case Some(p) => Some(Swap(p))
    case None => None
  }

  lemma {:induction false} PresentSwapped(cs: seq<Option<Point>>, ds: seq<Option<Point>>)
    requires |ds| == |cs| && forall i :: 0 <= i < |cs| ==> ds[i] == SwapCandidate(cs[i])
    ensures Present(ds) == Swapped(Present(cs))
    decreases |cs|
  {
    if cs != [] {
      var n := |cs| - 1;
      PresentSwapped(cs[..n], ds[..n]);
      var init := Present(cs[..n]);
      match cs[n]
      case Some(p) =>
        assert Swapped(init + [p]) == Swapped(init) + [Swap(p)];
      case None =>
    }
  }

  /** Choosing the columns the other way round gives the same points with x and y exchanged. */
  lemma PointsSwapped(rows: seq<DataRow>, x: string, y: string)
    ensures Points(rows, y, x) == Swapped(Points(rows, x, y))
  {
    var cs, ds := Candidates(rows, x, y), Candidates(rows, y, x);
    forall i | 0 <= i < |cs| ensures ds[i] == SwapCandidate(cs[i]) {
    }
    PresentSwapped(cs, ds);
  }

  lemma {:induction false} RunningTotalSwapped(ps: seq<Point>, f: Point -> real, g: Point -> real)
    requires forall q :: f(Swap(q)) == g(q)
    ensures RunningTotal(Swapped(ps), f) == RunningTotal(ps, g)
    decreases |ps|
  {
    if ps != [] {
      var n := |ps| - 1;
      assert Swapped(ps)[..n] == Swapped(ps[..n]);
      RunningTotalSwapped(ps[..n], f, g);
    }
  }

  /** The five sums of the swapped points are the sums of the points, x and y exchanged. */
  lemma SumsSwapped(ps: seq<Point>)
    ensures Count(Swapped(ps)) == Count(ps)
    ensures Total(Swapped(ps), XOf) == Total(ps, YOf) && Total(Swapped(ps), YOf) == Total(ps, XOf)
    ensures Total(Swapped(ps), XYOf) == Total(ps, XYOf)
    ensures Total(Swapped(ps), XXOf) == Total(ps, YYOf) && Total(Swapped(ps), YYOf) == Total(ps, XXOf)
  {
    RunningTotalSwapped(ps, XOf, YOf);
    RunningTotalSwapped(ps, YOf, XOf);
    RunningTotalSwapped(ps, XYOf, XYOf);
    RunningTotalSwapped(ps, XXOf, YYOf);
    RunningTotalSwapped(ps, YYOf, XXOf);
  }

  lemma SpreadsSwapped(ps: seq<Point>, dx: real, dy: real, cv: real, dx': real, dy': real, cv': real)
    requires dx == SpreadX(ps) && dy == SpreadY(ps) && cv == Covariation(ps)
    requires dx' == SpreadX(Swapped(ps)) && dy' == SpreadY(Swapped(ps)) && cv' == Covariation(Swapped(ps))
    ensures dx' == dy && dy' == dx && cv' == cv
  {
    var qs := Swapped(ps);
    var n, sx, sy, sxy, sxx, syy := Count(ps), Total(ps, XOf), Total(ps, YOf), Total(ps, XYOf), Total(ps, XXOf), Total(ps, YYOf);
    SumsSwapped(ps);
    SpreadOfSums(ps, XOf, XXOf, n, sx, sxx, dx);
    SpreadOfSums(ps, YOf, YYOf, n, sy, syy, dy);
    CovariationOfSums(ps, n, sx, sy, sxy, cv);
    SpreadOfSums(qs, XOf, XXOf, n, sy, syy, dx');
    SpreadOfSums(qs, YOf, YYOf, n, sx, sxx, dy');
    CovariationOfSums(qs, n, sy, sx, sxy, cv');
  }

  lemma RSquaredSwapAlgebra(num: real, dx: real, dy: real)
    ensures RSquared(num, dx, dy) == RSquared(num, dy, dx)
  {
    assert dx * dy == dy * dx;
  }

  /** r squared does not depend on which column is X. */
  lemma RSquaredSymmetric(ps: seq<Point>, r: RegressionResult, r': RegressionResult)
    requires Fit(ps) == Some(r) && Fit(Swapped(ps)) == Some(r')
    ensures r.rSquared == r'.rSquared
  {
    var qs := Swapped(ps);
    var q, num, dx, dy := r.rSquared, Covariation(ps), SpreadX(ps), SpreadY(ps);
    var q', num', dx', dy' := r'.rSquared, Covariation(qs), SpreadX(qs), SpreadY(qs);
    FitRSquared(ps, r, q, num, dx, dy);
    FitRSquared(qs, r', q', num', dx', dy');
    SpreadsSwapped(ps, dx, dy, num, dx', dy', num');
    RSquaredSwapAlgebra(num, dx, dy);
  }

  lemma AllSameSwapped(ps: seq<Point>)
    ensures AllSame(Swapped(ps), XOf) <==> AllSame(ps, YOf)
  {
    var qs := Swapped(ps);
    assert forall i :: 0 <= i < |ps| ==> XOf(qs[i]) == YOf(ps[i]);
  }

  /** With the axes exchanged a line is fitted exactly when there are two points and the y values are not all equal. */
  lemma SwappedFitDefinedIff(ps: seq<Point>)
    ensures Fit(Swapped(ps)).Some? <==> |ps| >= 2 && !AllSame(ps, YOf)
  {
    FitDefinedIff(Swapped(ps));
    AllSameSwapped(ps);
  }
}
