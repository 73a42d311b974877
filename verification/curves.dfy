/** Placement of the control points of the curves that run from one node towards another
    (`getNextNode` and `getMidPoint`), with every random draw passed in as a unit value. */
module Curves {
  import opened Geometry
  import opened RandomDraw
  import opened Arith

  /** The longest curve piece; longer stretches are split. */
  const MaxCurveLength: real := 10.0

  /** How far each coordinate of the next node may be pushed off the straight line. */
  const DisplacementAmount: real := MaxCurveLength / 5.0

  /** The point a fraction `t` of the way from `s` to `e`. */
  function Lerp(s: Point, e: Point, t: real): Point
  {
    Point((1.0 - t) * s.x + t * e.x, (1.0 - t) * s.y + t * e.y)
  }

  /** The next node before its random displacement: the point that is `MaxCurveLength` along
      the way from `s` to `e`, reading `distanceBetween` as the distance between them. When the
      distance exceeds `MaxCurveLength` the point lies between the two ends, strictly inside
      their span on every axis where they differ. */
  function Advance(s: Point, e: Point, distanceBetween: real): (p: Point)
    requires distanceBetween != 0.0
    ensures distanceBetween > MaxCurveLength ==> Between(s.x, p.x, e.x) && Between(s.y, p.y, e.y)
  {
    var ratio := MaxCurveLength / distanceBetween;
    if distanceBetween > MaxCurveLength then
      LerpBetween(s.x, e.x, ratio);
      LerpBetween(s.y, e.y, ratio);
      Lerp(s, e, ratio)
    else
      Lerp(s, e, ratio)
  }

  /** `v` lies in the span of `a` and `b`, strictly inside it when they differ. */
  predicate Between(a: real, v: real, b: real)
  {
    if a == b then v == a else Min(a, b) < v < Max(a, b)
  }

  lemma LerpBetween(a: real, b: real, t: real)
    requires 0.0 < t < 1.0
    ensures Between(a, (1.0 - t) * a + t * b, b)
  {
    var v := (1.0 - t) * a + t * b;
    assert v == a + t * (b - a);
    if a < b {
      MulFractionBelow(t, b - a);
      assert Mul(t, b - a) == t * (b - a);
    } else if b < a {
      MulFractionBelow(t, a - b);
      assert Mul(t, a - b) == t * (a - b);
    }
  }

  /** The next node: the advanced point pushed off by a draw from
      [-DisplacementAmount, DisplacementAmount) on each axis. */
  function GetNextNode(s: Point, e: Point, distanceBetween: real, ux: real, uy: real): (n: Point)
    requires distanceBetween != 0.0 && IsUnit(ux) && IsUnit(uy)
    ensures distanceBetween > MaxCurveLength ==>
      Min(s.x, e.x) - DisplacementAmount <= n.x < Max(s.x, e.x) + DisplacementAmount
    ensures distanceBetween > MaxCurveLength ==>
      Min(s.y, e.y) - DisplacementAmount <= n.y < Max(s.y, e.y) + DisplacementAmount
  {
    var p := Advance(s, e, distanceBetween);
    var xDisplacement := RandomNumber(ux, -DisplacementAmount, DisplacementAmount);
    var yDisplacement := RandomNumber(uy, -DisplacementAmount, DisplacementAmount);
    Point(p.x + xDisplacement, p.y + yDisplacement)
  }

  /** The next node is the advanced point moved by less than `DisplacementAmount` on each axis
      (or by exactly `-DisplacementAmount`, when the draw is 0). */
  lemma NextNodeDisplacement(s: Point, e: Point, distanceBetween: real, ux: real, uy: real)
    requires distanceBetween != 0.0 && IsUnit(ux) && IsUnit(uy)
    ensures var n, p := GetNextNode(s, e, distanceBetween, ux, uy), Advance(s, e, distanceBetween);
      && -DisplacementAmount <= n.x - p.x < DisplacementAmount
      && -DisplacementAmount <= n.y - p.y < DisplacementAmount
  {
  }

  /** When `distanceBetween` is the distance from `s` to `e` and exceeds `MaxCurveLength`, the
      advanced point lies exactly `MaxCurveLength` from `s` and the rest of the distance from
      `e`: the step eats `MaxCurveLength` of the remaining way. */
  lemma AdvanceStepsCurveLength(s: Point, e: Point, distanceBetween: real)
    requires distanceBetween > MaxCurveLength
    requires distanceBetween * distanceBetween == SqDist(s, e)
    ensures SqDist(s, Advance(s, e, distanceBetween)) == MaxCurveLength * MaxCurveLength
    ensures SqDist(Advance(s, e, distanceBetween), e)
         == (distanceBetween - MaxCurveLength) * (distanceBetween - MaxCurveLength)
  {
    var d := distanceBetween;
    var t := MaxCurveLength / d;
    var p := Advance(s, e, d);
    var dx, dy := e.x - s.x, e.y - s.y;
    assert p.x - s.x == t * dx && p.y - s.y == t * dy;
    assert e.x - p.x == (1.0 - t) * dx && e.y - p.y == (1.0 - t) * dy;
    StepSqDist(s, p, t, dx, dy, d);
    StepSqDist(p, e, 1.0 - t, dx, dy, d);
    assert t * d == MaxCurveLength;
    assert (1.0 - t) * d == d - MaxCurveLength;
  }

  /** A step that covers the fraction `t` of a displacement `(dx, dy)` of length `d` has
      length `t * d`. */
  lemma StepSqDist(p: Point, q: Point, t: real, dx: real, dy: real, d: real)
    requires q.x - p.x == t * dx && q.y - p.y == t * dy
    requires dx * dx + dy * dy == d * d
    ensures SqDist(p, q) == (t * d) * (t * d)
  {
  }

  /** A control point between `s` and `n`: each coordinate is shifted from `s` by a draw over
      the gap, taken from [gap, 0) when `n` is below `s` and from [0, gap) otherwise. So it lies
      in the half-open range from the lower of the two coordinates (included) to the upper
      (excluded), and stays at `s` on an axis where the two agree. */
  function GetMidPoint(s: Point, n: Point, ux: real, uy: real): (m: Point)
    requires IsUnit(ux) && IsUnit(uy)
    ensures s.x == n.x ==> m.x == s.x
    ensures s.x != n.x ==> Min(s.x, n.x) <= m.x < Max(s.x, n.x)
    ensures s.y == n.y ==> m.y == s.y
    ensures s.y != n.y ==> Min(s.y, n.y) <= m.y < Max(s.y, n.y)
  {
    var distX := n.x - s.x;
    var distY := n.y - s.y;
    var displacementX := if distX < 0.0 then RandomNumber(ux, distX, 0.0) else RandomNumber(ux, 0.0, distX);
    var displacementY := if distY < 0.0 then RandomNumber(uy, distY, 0.0) else RandomNumber(uy, 0.0, distY);
    Point(s.x + displacementX, s.y + displacementY)
  }

  /** One coordinate's draw for `GetMidPoint` that lands on `v`. */
  lemma MidDrawReaches(a: real, b: real, v: real) returns (u: real)
    requires a == b ==> v == a
    requires a != b ==> Min(a, b) <= v < Max(a, b)
    ensures IsUnit(u)
    ensures b - a < 0.0 ==> a + RandomNumber(u, b - a, 0.0) == v
    ensures b - a >= 0.0 ==> a + RandomNumber(u, 0.0, b - a) == v
  {
    if b - a < 0.0 {
      u := RandomNumberReaches(v - a, b - a, 0.0);
    } else if b - a > 0.0 {
      u := RandomNumberReaches(v - a, 0.0, b - a);
    } else {
      u := 0.0;
    }
  }

  /** Every point of the span `GetMidPoint` promises is the outcome of some pair of draws. */
  lemma MidPointReaches(s: Point, n: Point, m: Point) returns (ux: real, uy: real)
    requires s.x == n.x ==> m.x == s.x
    requires s.x != n.x ==> Min(s.x, n.x) <= m.x < Max(s.x, n.x)
    requires s.y == n.y ==> m.y == s.y
    requires s.y != n.y ==> Min(s.y, n.y) <= m.y < Max(s.y, n.y)
    ensures IsUnit(ux) && IsUnit(uy) && GetMidPoint(s, n, ux, uy) == m
  {
    ux := MidDrawReaches(s.x, n.x, m.x);
    uy := MidDrawReaches(s.y, n.y, m.y);
  }
}
