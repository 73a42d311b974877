/** Points of the plane and the axis-aligned square of half-width `r` centred at the origin.
    Coordinates are read with y growing upwards, so the line y == -r is the bottom border. */
module Geometry {

  datatype Point = Point(x: real, y: real)

  function Abs(v: real): (a: real)
    ensures a >= 0.0
    ensures a == v || a == -v
  {
    if v < 0.0 then -v else v
  }

  function Min(a: real, b: real): real { if a <= b then a else b }

  function Max(a: real, b: real): real { if a <= b then b else a }

  /** The square of the distance between two points. */
  function SqDist(p: Point, q: Point): real
  {
    (q.x - p.x) * (q.x - p.x) + (q.y - p.y) * (q.y - p.y)
  }

  /** True when both coordinates of `p` are `r` or `-r`. */
  predicate IsCorner(p: Point, r: real)
  {
    (p.x == r || p.x == -r) && (p.y == r || p.y == -r)
  }

  /** The four sides of the square, listed clockwise in the order the source numbers them. */
  datatype Side = Right | Bottom | Left | Top

  /** The side that follows `s` when walking the border clockwise. */
  function Next(s: Side): Side
  {
    match s
    case Right => Bottom
    case Bottom => Left
    case Left => Top
    case Top => Right
  }

  /** The side that precedes `s` when walking the border clockwise. */
  function Prev(s: Side): (p: Side)
    ensures Next(p) == s
  {
    match s
    case Right => Top
    case Bottom => Right
    case Left => Bottom
    case Top => Left
  }

  /** The side facing `s` across the square. */
  function Facing(s: Side): Side
  {
    Next(Next(s))
  }

  /** The corner at the clockwise end of side `s`. */
  function CornerAfter(s: Side, r: real): (c: Point)
    ensures IsCorner(c, r)
  {
    match s
    case Right => Point(r, -r)
    case Bottom => Point(-r, -r)
    case Left => Point(-r, r)
    case Top => Point(r, r)
  }

  /** `p` lies strictly inside side `s`: on its border line and away from both of its corners. */
  predicate InsideSide(p: Point, s: Side, r: real)
  {
    match s
    case Right => p.x == r && -r < p.y < r
    case Bottom => p.y == -r && -r < p.x < r
    case Left => p.x == -r && -r < p.y < r
    case Top => p.y == r && -r < p.x < r
  }

  /** The coordinate of `p` that varies along side `s`. */
  function Along(p: Point, s: Side): real
  {
    if s == Right || s == Left then p.y else p.x
  }

  /** The point of side `s` at position `t` along it. */
  function OnSideAt(s: Side, t: real, r: real): (p: Point)
    ensures Along(p, s) == t
  {
    match s
    case Right => Point(r, t)
    case Bottom => Point(t, -r)
    case Left => Point(-r, t)
    case Top => Point(t, r)
  }

  /** A point inside a side is determined by its position along the side. */
  lemma InsideSideAt(p: Point, s: Side, r: real)
    requires InsideSide(p, s, r)
    ensures p == OnSideAt(s, Along(p, s), r)
  {
  }

  /** `p` lies on the border of the square, corners included. */
  predicate OnBorder(p: Point, r: real)
  {
    -r <= p.x <= r && -r <= p.y <= r && (p.x == r || p.x == -r || p.y == r || p.y == -r)
  }

  /** The index the source gives side `s` when drawing a start point (0 Right, 1 Bottom, 2 Left, 3 Top). */
  function Index(s: Side): (i: nat)
    ensures i < 4
  {
    match s
    case Right => 0
    case Bottom => 1
    case Left => 2
    case Top => 3
  }

  /** The number of clockwise steps from side `a` to side `b`. */
  function Steps(a: Side, b: Side): nat
  {
    (Index(b) - Index(a) + 4) % 4
  }

  /** Moving both sides one step on keeps the number of steps between them. */
  lemma StepsNext(a: Side, b: Side)
    ensures Steps(Next(a), Next(b)) == Steps(a, b)
  {
  }

  /** A quarter turn clockwise about the origin, which maps the square onto itself. */
  function RotateCw(p: Point): Point
  {
    Point(p.y, -p.x)
  }

  /** A quarter turn counter-clockwise about the origin, undoing `RotateCw`. */
  function RotateCcw(p: Point): (q: Point)
    ensures RotateCw(q) == p
  {
    Point(-p.y, p.x)
  }

  /** A quarter turn clockwise carries the inside of each side onto the next side, and the
      anticlockwise turn onto the previous one. */
  lemma RotateSides(p: Point, s: Side, r: real)
    ensures InsideSide(p, s, r) ==> InsideSide(RotateCw(p), Next(s), r)
    ensures InsideSide(p, s, r) ==> InsideSide(RotateCcw(p), Prev(s), r)
  {
  }

  /** The quarter turn takes the corner at the end of a side to the corner at the end of the
      next side. */
  lemma CornerRotates(s: Side, r: real)
    ensures CornerAfter(Next(s), r) == RotateCw(CornerAfter(s, r))
  {
  }
}
