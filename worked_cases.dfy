/**
 * The regression on small concrete point lists: an exact line, a list whose
 * points all share one x, and lists too short to fit.
 */
module WorkedCases {
  import opened Wrappers
  import opened Types
  import opened Statistics
  import opened Regression

  lemma TotalOfThree(p: Point, q: Point, s: Point, f: Point -> real)
    ensures Total([p, q, s], f) == f(p) + f(q) + f(s)
  {
    var ps := [p, q, s];
    assert ps[..2] == [p, q] && [p, q][..1] == [p] && [p][..0] == [];
    assert RunningTotal([p], f) == f(p);
    assert RunningTotal([p, q], f) == f(p) + f(q);
  }

  lemma PerfectLineSums(ps: seq<Point>)
    requires ps == [Point(1.0, 2.0), Point(2.0, 4.0), Point(3.0, 6.0)]
    ensures Count(ps) == 3.0 && Total(ps, XOf) == 6.0 && Total(ps, YOf) == 12.0
    ensures Covariation(ps) == 12.0 && SpreadX(ps) == 6.0 && SpreadY(ps) == 24.0
    ensures MinX(ps) == 1.0 && MaxX(ps) == 3.0
  {
    TotalOfThree(ps[0], ps[1], ps[2], XOf);
    TotalOfThree(ps[0], ps[1], ps[2], YOf);
    TotalOfThree(ps[0], ps[1], ps[2], XYOf);
    TotalOfThree(ps[0], ps[1], ps[2], XXOf);
    TotalOfThree(ps[0], ps[1], ps[2], YYOf);
    assert ps[..2] == [Point(1.0, 2.0), Point(2.0, 4.0)] && ps[..2][..1] == [Point(1.0, 2.0)];
  }

  /** The points of y = 2x have slope 2, intercept 0, r squared 1, and the line from (1, 2) to (3, 6). */
  lemma PerfectLine()
    ensures Fit([Point(1.0, 2.0), Point(2.0, 4.0), Point(3.0, 6.0)])
      == Some(RegressionResult(2.0, 0.0, 1.0, [Point(1.0, 2.0), Point(3.0, 6.0)]))
  {
    var ps := [Point(1.0, 2.0), Point(2.0, 4.0), Point(3.0, 6.0)];
    PerfectLineSums(ps);
    assert Slope(12.0, 6.0) == 2.0;
    assert Intercept(3.0, 6.0, 12.0, 2.0) == 0.0;
    assert RSquared(12.0, 6.0, 24.0) == 1.0;
  }

  lemma SameXSpread(ps: seq<Point>)
    requires ps == [Point(5.0, 1.0), Point(5.0, 2.0), Point(5.0, 3.0)]
    ensures SpreadX(ps) == 0.0
  {
    TotalOfThree(ps[0], ps[1], ps[2], XOf);
    TotalOfThree(ps[0], ps[1], ps[2], XXOf);
  }

  /** No line is fitted to points that all have the same x, nor to fewer than two points. */
  lemma UndefinedFits(p: Point)
    ensures Fit([Point(5.0, 1.0), Point(5.0, 2.0), Point(5.0, 3.0)]) == None
    ensures Fit([p]) == None && Fit([]) == None
  {
    SameXSpread([Point(5.0, 1.0), Point(5.0, 2.0), Point(5.0, 3.0)]);
  }
}
