/**
 * The (x, y) observations taken from the rows for two chosen columns
 * (app.py:142-147, and the same expression in the `chartData` memo, app.py:201-204):
 * each row is mapped to a candidate point, and the candidates with a NaN
 * coordinate are filtered out.
 */
module Extraction {
  import opened Wrappers
  import opened Types
  import opened Columns

  /** `{ x: parseFloat(String(row[x])), y: parseFloat(String(row[y])) }`, kept only when neither side is NaN. */
  function PointOf(row: DataRow, x: string, y: string): (p: Option<Point>)
    ensures p.Some? <==> ParsesAsNumber(Lookup(row, x)) && ParsesAsNumber(Lookup(row, y))
  {
    match (CellNumber(Lookup(row, x)), CellNumber(Lookup(row, y)))
    case (Some(a), Some(b)) => Some(Point(a, b))
    case _ => None
  }

  /** `rows.map(...)`: the candidate point of each row, None where a coordinate is NaN. */
  function Candidates(rows: seq<DataRow>, x: string, y: string): (cs: seq<Option<Point>>)
    ensures |cs| == |rows|
    ensures forall i :: 0 <= i < |rows| ==> cs[i] == PointOf(rows[i], x, y)
  {
    seq(|rows|, i requires 0 <= i < |rows| => PointOf(rows[i], x, y))
  }

  /** `.filter(p => !isNaN(p.x) && !isNaN(p.y))`: the candidates that are points, in order. */
  function Present(cs: seq<Option<Point>>): (ps: seq<Point>)
    ensures |ps| <= |cs|
    ensures (forall i :: 0 <= i < |cs| ==> cs[i].Some?) ==> |ps| == |cs|
    decreases |cs|
  {
    if cs == [] then []
    else
      var init := Present(cs[..|cs| - 1]);
      match cs[|cs| - 1]
      case Some(p) => init + [p]
      case None => init
  }

  /** The points of the rows for the columns x and y. */
  function Points(rows: seq<DataRow>, x: string, y: string): (ps: seq<Point>)
    ensures |ps| <= |rows|
    ensures (forall i :: 0 <= i < |rows| ==> PointOf(rows[i], x, y).Some?) ==> |ps| == |rows|
  {
    Present(Candidates(rows, x, y))
  }

  /** The positions, in increasing order, of the candidates that are points. */
  function Kept(cs: seq<Option<Point>>): (idx: seq<nat>)
    ensures forall k :: 0 <= k < |idx| ==> idx[k] < |cs|
    ensures forall k, l :: 0 <= k < l < |idx| ==> idx[k] < idx[l]
    ensures forall i :: 0 <= i < |cs| ==> (i in idx <==> cs[i].Some?)
    decreases |cs|
  {
    if cs == [] then []
    else
      var init := Kept(cs[..|cs| - 1]);
      if cs[|cs| - 1].Some? then init + [|cs| - 1] else init
  }

  /** The filter keeps order and invents nothing: its k-th point is the k-th kept candidate. */
  lemma {:induction false} PresentAreKept(cs: seq<Option<Point>>)
    ensures |Present(cs)| == |Kept(cs)|
    ensures forall k :: 0 <= k < |Present(cs)| ==> cs[Kept(cs)[k]] == Some(Present(cs)[k])
  {
    if cs != [] {
      var init := cs[..|cs| - 1];
      PresentAreKept(init);
      var ps, idx := Present(cs), Kept(cs);
      forall k | 0 <= k < |ps|
        ensures cs[idx[k]] == Some(ps[k])
      {
        if k < |Present(init)| {
          assert ps[k] == Present(init)[k] && idx[k] == Kept(init)[k];
          assert cs[idx[k]] == init[idx[k]];
        }
      }
    }
  }

  /**
   * Extraction keeps row order and invents nothing: the k-th point is the
   * point of the k-th kept row, and a row is kept exactly when both of its
   * cells parse.
   */
  lemma PointsAreKeptRows(rows: seq<DataRow>, x: string, y: string)
    ensures |Points(rows, x, y)| == |Kept(Candidates(rows, x, y))|
    ensures forall k :: 0 <= k < |Points(rows, x, y)| ==>
      PointOf(rows[Kept(Candidates(rows, x, y))[k]], x, y) == Some(Points(rows, x, y)[k])
    ensures forall i :: 0 <= i < |rows| ==>
      (i in Kept(Candidates(rows, x, y)) <==> PointOf(rows[i], x, y).Some?)
  {
    PresentAreKept(Candidates(rows, x, y));
  }

  /** The number of points is the number of rows minus the rows dropped for a NaN. */
  lemma PointCount(rows: seq<DataRow>, x: string, y: string)
    ensures |Points(rows, x, y)| == |set i | 0 <= i < |rows| && PointOf(rows[i], x, y).Some?|
  {
    PointsAreKeptRows(rows, x, y);
    var idx := Kept(Candidates(rows, x, y));
    var kept := set i | 0 <= i < |rows| && PointOf(rows[i], x, y).Some?;
    assert kept == set k | 0 <= k < |idx| :: idx[k];
    DistinctCardinality(idx);
  }

  /** A strictly increasing sequence has as many distinct elements as entries. */
  lemma {:induction false} DistinctCardinality(idx: seq<nat>)
    requires forall k, l :: 0 <= k < l < |idx| ==> idx[k] < idx[l]
    ensures |set k | 0 <= k < |idx| :: idx[k]| == |idx|
  {
    if idx != [] {
      var init := idx[..|idx| - 1];
      DistinctCardinality(init);
      var s := set k | 0 <= k < |init| :: init[k];
      assert (set k | 0 <= k < |idx| :: idx[k]) == s + {idx[|idx| - 1]};
      assert idx[|idx| - 1] !in s;
    }
  }
}
