/** Polygon area by the shoelace formula, the computation the source delegates to its rendering
    library when it measures a closed point list. */
module Shoelace {
  import opened Geometry

  /** Twice the signed area of the triangle spanned by the origin, `p` and `q`. */
  function Cross(p: Point, q: Point): real
  {
    p.x * q.y - q.x * p.y
  }

  /** The shoelace sum along an open path: `Cross` of every pair of consecutive points. */
  function PathCross(ps: seq<Point>): real
    decreases |ps|
  {
    if |ps| < 2 then 0.0 else Cross(ps[0], ps[1]) + PathCross(ps[1..])
  }

  /** Signed area of the polygon with vertices `ps` in order, closed by an edge from the last point
      back to the first; positive for counter-clockwise vertex order, negative for clockwise. */
  function SignedArea(ps: seq<Point>): real
  {
    if |ps| == 0 then 0.0 else (PathCross(ps) + Cross(ps[|ps| - 1], ps[0])) / 2.0
  }

  /** The unsigned polygon area. */
  function Area(ps: seq<Point>): (a: real)
    ensures a >= 0.0
    ensures a == SignedArea(ps) || a == -SignedArea(ps)
  {
    Abs(SignedArea(ps))
  }

  /** The points of `ps` in reverse order. */
  function Reverse(ps: seq<Point>): (rs: seq<Point>)
    ensures |rs| == |ps|
    ensures forall i :: 0 <= i < |ps| ==> rs[i] == ps[|ps| - 1 - i]
  {
    seq(|ps|, i requires 0 <= i < |ps| => ps[|ps| - 1 - i])
  }

  lemma {:induction false} PathCrossCons(p: Point, ps: seq<Point>)
    requires |ps| >= 1
    ensures PathCross([p] + ps) == Cross(p, ps[0]) + PathCross(ps)
  {
    assert ([p] + ps)[1..] == ps;
  }

  /** Appending one point to a path adds the cross term of its new last edge. */
  lemma {:induction false} PathCrossSnoc(ps: seq<Point>, p: Point)
    requires |ps| >= 1
    ensures PathCross(ps + [p]) == PathCross(ps) + Cross(ps[|ps| - 1], p)
    decreases |ps|
  {
    if |ps| == 1 {
      assert (ps + [p])[1..] == [p];
    } else {
      assert (ps + [p])[1..] == ps[1..] + [p];
      PathCrossSnoc(ps[1..], p);
    }
  }

  /** Swapping the two points of a cross term negates it. */
  lemma CrossAntisymmetric(p: Point, q: Point)
    ensures Cross(p, q) == -Cross(q, p)
  {
  }

  /** Walking a path backwards negates its shoelace sum. */
  lemma {:induction false} PathCrossReverse(ps: seq<Point>)
    ensures PathCross(Reverse(ps)) == -PathCross(ps)
    decreases |ps|
  {
    if |ps| >= 2 {
      var tail := ps[1..];
      assert Reverse(ps) == Reverse(tail) + [ps[0]];
      PathCrossReverse(tail);
      PathCrossSnoc(Reverse(tail), ps[0]);
    }
  }

  /** Reversing the vertex order flips the sign of the area and so leaves the unsigned area alone:
      the absolute value makes the result independent of the winding direction. */
  lemma {:induction false} ReverseKeepsArea(ps: seq<Point>)
    ensures SignedArea(Reverse(ps)) == -SignedArea(ps)
    ensures Area(Reverse(ps)) == Area(ps)
  {
    if |ps| > 0 {
      var rs := Reverse(ps);
      PathCrossReverse(ps);
      assert rs[0] == ps[|ps| - 1] && rs[|rs| - 1] == ps[0];
      CrossAntisymmetric(ps[0], ps[|ps| - 1]);
    }
  }

  /** Starting the same loop one vertex later does not change its area. */
  lemma {:induction false} ShiftKeepsSignedArea(ps: seq<Point>)
    requires |ps| >= 2
    ensures SignedArea(ps[1..] + [ps[0]]) == SignedArea(ps)
  {
    PathCrossSnoc(ps[1..], ps[0]);
  }

  /** Every point of `ps` turned a quarter clockwise about the origin. */
  function RotateAll(ps: seq<Point>): (qs: seq<Point>)
    ensures |qs| == |ps|
    ensures forall i :: 0 <= i < |ps| ==> qs[i] == RotateCw(ps[i])
  {
    seq(|ps|, i requires 0 <= i < |ps| => RotateCw(ps[i]))
  }

  /** Turning points one by one distributes over concatenation. */
  lemma RotateAllAppend(ps: seq<Point>, qs: seq<Point>)
    ensures RotateAll(ps + qs) == RotateAll(ps) + RotateAll(qs)
  {
  }

  /** Turning points one by one commutes with putting a point in front. */
  lemma RotateAllCons(c: Point, rest: seq<Point>)
    ensures RotateAll([c] + rest) == [RotateCw(c)] + RotateAll(rest)
  {
  }

  /** Turning a polygon about the origin does not change its signed area. */
  lemma {:induction false} RotateKeepsSignedArea(ps: seq<Point>)
    ensures PathCross(RotateAll(ps)) == PathCross(ps)
    ensures SignedArea(RotateAll(ps)) == SignedArea(ps)
    decreases |ps|
  {
    if |ps| >= 2 {
      assert RotateAll(ps)[1..] == RotateAll(ps[1..]);
      RotateKeepsSignedArea(ps[1..]);
    }
  }

  /** The shoelace sum of a closed loop through three distinct vertices. */
  lemma TriangleLoop(a: Point, b: Point, c: Point)
    ensures 2.0 * SignedArea([a, b, c, a]) == Cross(a, b) + Cross(b, c) + Cross(c, a)
  {
    PathCrossCons(a, [b, c, a]);
    PathCrossCons(b, [c, a]);
  }

  /** The shoelace sum of a closed loop through four vertices. */
  lemma QuadrilateralLoop(a: Point, b: Point, c: Point, d: Point)
    ensures 2.0 * SignedArea([a, b, c, d, a]) == Cross(a, b) + Cross(b, c) + Cross(c, d) + Cross(d, a)
  {
    PathCrossCons(a, [b, c, d, a]);
    PathCrossCons(b, [c, d, a]);
    PathCrossCons(c, [d, a]);
  }

  /** The shoelace sum of a closed loop through five vertices. */
  lemma PentagonLoop(a: Point, b: Point, c: Point, d: Point, e: Point)
    ensures 2.0 * SignedArea([a, b, c, d, e, a])
         == Cross(a, b) + Cross(b, c) + Cross(c, d) + Cross(d, e) + Cross(e, a)
  {
    PathCrossCons(a, [b, c, d, e, a]);
    PathCrossCons(b, [c, d, e, a]);
    PathCrossCons(c, [d, e, a]);
    PathCrossCons(d, [e, a]);
  }

  /** The whole square, walked clockwise from its bottom-right corner, has area (2r)^2. */
  lemma SquareArea(r: real)
    ensures SignedArea([Point(r, -r), Point(-r, -r), Point(-r, r), Point(r, r)]) == -4.0 * r * r
    ensures Area([Point(r, -r), Point(-r, -r), Point(-r, r), Point(r, r)]) == 4.0 * r * r
  {
    var ps := [Point(r, -r), Point(-r, -r), Point(-r, r), Point(r, r)];
    PathCrossCons(ps[0], ps[1..]);
    PathCrossCons(ps[1], ps[2..]);
    PathCrossCons(ps[2], ps[3..]);
    assert ps[1..] == [ps[1]] + ps[2..];
    assert ps[2..] == [ps[2]] + ps[3..];
  }
}
