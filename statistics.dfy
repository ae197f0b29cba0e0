/**
 * Running sums over a list of points, and the facts about them that the
 * regression relies on: sums are linear, a sum of non-negative terms is
 * positive when one term is, and n times the sum of squares minus the square of the sum
 * is never negative and is zero exactly when all the values are equal.
 */
module Statistics {
  import opened Types

  /** The sum of `f` over the points, added from first to last. */
  function RunningTotal(ps: seq<Point>, f: Point -> real): real
    decreases |ps|
  {
    if ps == [] then 0.0 else RunningTotal(ps[..|ps| - 1], f) + f(ps[|ps| - 1])
  }

  /** The sum of `f` over the points: the name the statements below use for the running total. */
  function Total(ps: seq<Point>, f: Point -> real): real {
    RunningTotal(ps, f)
  }

  /** The number of points, as a real. */
  function Count(ps: seq<Point>): real {
    |ps| as real
  }

  function XOf(p: Point): real { p.x }
  function YOf(p: Point): real { p.y }
  function XYOf(p: Point): real { p.x * p.y }
  function XXOf(p: Point): real { p.x * p.x }
  function YYOf(p: Point): real { p.y * p.y }

  /** n times the sum of `ff` minus the square of the sum of `f`; with `ff` = `f` squared, n squared times the variance of `f`. */
  function Spread(ps: seq<Point>, f: Point -> real, ff: Point -> real): real {
    Count(ps) * Total(ps, ff) - Total(ps, f) * Total(ps, f)
  }

  /** `f` takes one value on all the points. */
  predicate AllSame(ps: seq<Point>, f: Point -> real) {
    forall i, j :: 0 <= i < |ps| && 0 <= j < |ps| ==> f(ps[i]) == f(ps[j])
  }

  /** A sum of a*f + b*g + c*k is the same combination of the three sums. */
  lemma {:induction false} TotalLinear(ps: seq<Point>, f: Point -> real, g: Point -> real, k: Point -> real,
                                       h: Point -> real, a: real, b: real, c: real)
    requires forall i :: 0 <= i < |ps| ==> h(ps[i]) == a * f(ps[i]) + b * g(ps[i]) + c * k(ps[i])
    ensures Total(ps, h) == a * Total(ps, f) + b * Total(ps, g) + c * Total(ps, k)
  {
    if ps != [] {
      var init := ps[..|ps| - 1];
      TotalLinear(init, f, g, k, h, a, b, c);
      var p := ps[|ps| - 1];
      calc {
        Total(ps, h);
        Total(init, h) + h(p);
        a * Total(init, f) + b * Total(init, g) + c * Total(init, k) + (a * f(p) + b * g(p) + c * k(p));
        a * (Total(init, f) + f(p)) + b * (Total(init, g) + g(p)) + c * (Total(init, k) + k(p));
      }
    }
  }

  function OneOf(p: Point): real { 1.0 }

  /** The sum of the constant one is the number of points. */
  lemma {:induction false} TotalOfOne(ps: seq<Point>)
    ensures Total(ps, OneOf) == Count(ps)
  {
    if ps != [] {
      TotalOfOne(ps[..|ps| - 1]);
    }
  }

  /**
   * A sum of a*f + b*g + c is a times the sum of f, plus b times the sum of g,
   * plus n times c. Expansions elsewhere are written in this shape, with
   * every coefficient spelled out (`1.0 * …`, `(-a) * …`), so that each one
   * matches this lemma's parameters term by term.
   */
  lemma TotalAffine(ps: seq<Point>, f: Point -> real, g: Point -> real, h: Point -> real,
                    a: real, b: real, c: real)
    requires forall i :: 0 <= i < |ps| ==> h(ps[i]) == a * f(ps[i]) + b * g(ps[i]) + c
    ensures Total(ps, h) == a * Total(ps, f) + b * Total(ps, g) + c * Count(ps)
  {
    forall i | 0 <= i < |ps| ensures h(ps[i]) == a * f(ps[i]) + b * g(ps[i]) + c * OneOf(ps[i]) {
    }
    TotalLinear(ps, f, g, OneOf, h, a, b, c);
    TotalOfOne(ps);
  }

  /** A sum of a*f + b*g: TotalAffine without the constant term. */
  lemma TotalPair(ps: seq<Point>, f: Point -> real, g: Point -> real, h: Point -> real, a: real, b: real)
    requires forall i :: 0 <= i < |ps| ==> h(ps[i]) == a * f(ps[i]) + b * g(ps[i])
    ensures Total(ps, h) == a * Total(ps, f) + b * Total(ps, g)
  {
    TotalAffine(ps, f, g, h, a, b, 0.0);
  }

  /** A sum of a*f is a times the sum of f. */
  lemma TotalScaled(ps: seq<Point>, f: Point -> real, h: Point -> real, a: real)
    requires forall i :: 0 <= i < |ps| ==> h(ps[i]) == a * f(ps[i])
    ensures Total(ps, h) == a * Total(ps, f)
  {
    TotalPair(ps, f, f, h, a, 0.0);
  }

  /** A sum of the constant c is n times c. */
  lemma TotalConstant(ps: seq<Point>, h: Point -> real, c: real)
    requires forall i :: 0 <= i < |ps| ==> h(ps[i]) == c
    ensures Total(ps, h) == c * Count(ps)
  {
    TotalAffine(ps, h, h, h, 0.0, 0.0, c);
  }

  /** A sum of terms that are never negative is never negative, and is zero when every term is. */
  lemma {:induction false} TotalOfNonnegative(ps: seq<Point>, h: Point -> real)
    requires forall i :: 0 <= i < |ps| ==> h(ps[i]) >= 0.0
    ensures Total(ps, h) >= 0.0
    ensures (forall i :: 0 <= i < |ps| ==> h(ps[i]) == 0.0) ==> Total(ps, h) == 0.0
  {
    if ps != [] {
      var init := ps[..|ps| - 1];
      assert forall i :: 0 <= i < |init| ==> init[i] == ps[i];
      TotalOfNonnegative(init, h);
    }
  }

  /** A sum of terms that are never negative, one of them positive, is positive. */
  lemma {:induction false} TotalOfNonnegativeWithPositive(ps: seq<Point>, h: Point -> real, k: nat)
    requires forall i :: 0 <= i < |ps| ==> h(ps[i]) >= 0.0
    requires k < |ps| && h(ps[k]) > 0.0
    ensures Total(ps, h) > 0.0
  {
    var init := ps[..|ps| - 1];
    assert forall i :: 0 <= i < |init| ==> init[i] == ps[i];
    TotalOfNonnegative(init, h);
    if k < |init| {
      TotalOfNonnegativeWithPositive(init, h, k);
    }
  }

  /** The sum of squared distances from a, expanded. */
  lemma TotalOfDeviation(ps: seq<Point>, f: Point -> real, ff: Point -> real, dev: Point -> real, a: real)
    requires forall q :: ff(q) == f(q) * f(q)
    requires forall q :: dev(q) == (f(q) - a) * (f(q) - a)
    ensures Total(ps, dev) == 1.0 * Total(ps, ff) + (-2.0 * a) * Total(ps, f) + (a * a) * Count(ps)
  {
    forall i | 0 <= i < |ps|
      ensures dev(ps[i]) == 1.0 * ff(ps[i]) + (-2.0 * a) * f(ps[i]) + a * a
    {
      DeviationExpands(f(ps[i]), a);
    }
    var b, c := -2.0 * a, a * a;
    TotalAffine(ps, ff, f, dev, 1.0, b, c);
  }

  lemma DeviationExpands(v: real, a: real)
    ensures (v - a) * (v - a) == 1.0 * (v * v) + (-2.0 * a) * v + a * a
  {
  }

  lemma MeanSpreadAlgebra(n: real, q: real, s: real, m: real, t: real)
    requires n * m == s
    requires t == 1.0 * q + (-2.0 * m) * s + (m * m) * n
    ensures n * t == n * q - s * s
  {
    calc {
      n * t;
      n * q - 2.0 * (n * m) * s + (n * m) * (n * m);
      n * q - s * s;
    }
  }

  lemma ConstantSpreadAlgebra(n: real, q: real, s: real, v: real, t: real)
    requires t == 1.0 * q + (-2.0 * v) * s + (v * v) * n && t == 0.0
    ensures n * q - s * s <= 0.0
  {
    var u := s - v * n;
    NonnegativeSquare(u);
    calc {
      n * q - s * s;
      n * (2.0 * v * s - v * v * n) - s * s;
      -(u * u);
    }
  }

  /** The spread is n times the sum of squared distances from the mean. */
  lemma SpreadAsDeviation(ps: seq<Point>, f: Point -> real, ff: Point -> real, dev: Point -> real, m: real)
    requires Count(ps) > 0.0 && Count(ps) * m == Total(ps, f)
    requires forall q :: ff(q) == f(q) * f(q)
    requires forall q :: dev(q) == (f(q) - m) * (f(q) - m)
    ensures Spread(ps, f, ff) == Count(ps) * Total(ps, dev)
    ensures Total(ps, dev) >= 0.0 ==> Spread(ps, f, ff) >= 0.0
    ensures Total(ps, dev) > 0.0 ==> Spread(ps, f, ff) > 0.0
  {
    TotalOfDeviation(ps, f, ff, dev, m);
    MeanSpreadAlgebra(Count(ps), Total(ps, ff), Total(ps, f), m, Total(ps, dev));
    if Total(ps, dev) >= 0.0 {
      ScaledSign(Count(ps), Total(ps, dev), Spread(ps, f, ff));
    }
  }

  /** When the squared distances from v sum to zero, the spread is not positive. */
  lemma SpreadOfConstant(ps: seq<Point>, f: Point -> real, ff: Point -> real, dev: Point -> real, v: real)
    requires forall q :: ff(q) == f(q) * f(q)
    requires forall q :: dev(q) == (f(q) - v) * (f(q) - v)
    requires Total(ps, dev) == 0.0
    ensures Spread(ps, f, ff) <= 0.0
  {
    TotalOfDeviation(ps, f, ff, dev, v);
    ConstantSpreadAlgebra(Count(ps), Total(ps, ff), Total(ps, f), v, Total(ps, dev));
  }

  /** A mean of f: a value that n times is the sum of f. */
  lemma MeanOf(ps: seq<Point>, f: Point -> real) returns (m: real)
    requires ps != []
    ensures Count(ps) > 0.0 && Count(ps) * m == Total(ps, f)
  {
    m := Total(ps, f) / Count(ps);
  }

  /** The sign of n times a sum that is never negative. */
  lemma ScaledSign(n: real, t: real, m: real)
    requires n > 0.0 && t >= 0.0 && m == n * t
    ensures m >= 0.0 && (t > 0.0 ==> m > 0.0)
  {
  }

  /**
   * The square m of a nonzero value is positive. The value is passed twice (u
   * and w) so that the solver treats m as a product of two quantities.
   */
  lemma PositiveSquare(u: real, w: real, m: real)
    requires u == w && u != 0.0
    requires m == u * w
    ensures m > 0.0
  {
    if u > 0.0 {
      PositiveProduct(u, w);
    } else {
      NegativeProduct(u, w);
      assert m == u * w;
    }
  }

  lemma PositiveProduct(a: real, b: real)
    requires a > 0.0 && b > 0.0
    ensures a * b > 0.0
  {
  }

  lemma NegativeProduct(a: real, b: real)
    requires a < 0.0 && b < 0.0
    ensures a * b > 0.0
  {
  }

  lemma NonnegativeSquare(d: real)
    ensures d * d >= 0.0
  {
  }

  /** Every squared distance from a is nonnegative, and that of a value other than a is positive. */
  lemma Deviations(ps: seq<Point>, f: Point -> real, dev: Point -> real, a: real)
    requires forall q :: dev(q) == (f(q) - a) * (f(q) - a)
    ensures forall i :: 0 <= i < |ps| ==> dev(ps[i]) >= 0.0
    ensures forall i :: 0 <= i < |ps| && f(ps[i]) != a ==> dev(ps[i]) > 0.0
    ensures forall i :: 0 <= i < |ps| && f(ps[i]) == a ==> dev(ps[i]) == 0.0
  {
    forall i | 0 <= i < |ps| ensures dev(ps[i]) >= 0.0 {
      NonnegativeSquare(f(ps[i]) - a);
    }
    forall i | 0 <= i < |ps| && f(ps[i]) != a ensures dev(ps[i]) > 0.0 {
      PositiveSquare(f(ps[i]) - a, f(ps[i]) - a, dev(ps[i]));
    }
  }

  /** The spread is never negative, and is positive when f takes two different values. */
  lemma SpreadSign(ps: seq<Point>, f: Point -> real, ff: Point -> real)
    requires ps != []
    requires forall q :: ff(q) == f(q) * f(q)
    ensures Spread(ps, f, ff) >= 0.0
    ensures !AllSame(ps, f) ==> Spread(ps, f, ff) > 0.0
  {
    var m := MeanOf(ps, f);
    var dev := (q: Point) => (f(q) - m) * (f(q) - m);
    SpreadAsDeviation(ps, f, ff, dev, m);
    Deviations(ps, f, dev, m);
    TotalOfNonnegative(ps, dev);
    if !AllSame(ps, f) {
      var i, j :| 0 <= i < |ps| && 0 <= j < |ps| && f(ps[i]) != f(ps[j]);
      var k := if f(ps[i]) != m then i else j;
      TotalOfNonnegativeWithPositive(ps, dev, k);
    }
  }

  /** When f is the same on every point, the spread is not positive. */
  lemma SpreadOfAllSame(ps: seq<Point>, f: Point -> real, ff: Point -> real)
    requires ps != [] && AllSame(ps, f)
    requires forall q :: ff(q) == f(q) * f(q)
    ensures Spread(ps, f, ff) <= 0.0
  {
    var v := f(ps[0]);
    var same := (q: Point) => (f(q) - v) * (f(q) - v);
    Deviations(ps, f, same, v);
    assert forall i :: 0 <= i < |ps| ==> f(ps[i]) == f(ps[0]);
    TotalOfNonnegative(ps, same);
    SpreadOfConstant(ps, f, ff, same, v);
  }

  /** The spread of f is never negative, and is zero exactly when f is the same on every point. */
  lemma SpreadZeroIffAllSame(ps: seq<Point>, f: Point -> real, ff: Point -> real)
    requires forall q :: ff(q) == f(q) * f(q)
    ensures Spread(ps, f, ff) >= 0.0
    ensures AllSame(ps, f) ==> Spread(ps, f, ff) == 0.0
    ensures !AllSame(ps, f) ==> Spread(ps, f, ff) > 0.0
  {
    if ps == [] {
      assert Spread(ps, f, ff) == 0.0 * 0.0 - 0.0 * 0.0;
    } else {
      SpreadSign(ps, f, ff);
      if AllSame(ps, f) {
        SpreadOfAllSame(ps, f, ff);
      }
    }
  }

  /** The spread of f is never negative. */
  lemma SpreadNonnegative(ps: seq<Point>, f: Point -> real, ff: Point -> real)
    requires forall q :: ff(q) == f(q) * f(q)
    ensures Spread(ps, f, ff) >= 0.0
  {
    SpreadZeroIffAllSame(ps, f, ff);
  }
}
