/** Geometry of the square [0,a] x [0,a], traversed counter-clockwise from the origin.

    This is a description of the boundary that does not depend on the discretizer: each
    side starts at a corner of the square and runs along a unit direction to the next
    corner, a point on a side is its start corner moved along that direction, and the
    outward normal of a side is its direction turned clockwise by a right angle.
 */
module Geometry {

  datatype Vec2 = Vec2(x: real, y: real)

  /** The four sides in counter-clockwise order, starting with the bottom side. */
  datatype Side = Bottom | Right | Top | Left

  function Dot(u: Vec2, v: Vec2): real {
    u.x * v.x + u.y * v.y
  }

  function Sub(u: Vec2, v: Vec2): Vec2 {
    Vec2(u.x - v.x, u.y - v.y)
  }

  function Scale(c: real, v: Vec2): Vec2 {
    Vec2(c * v.x, c * v.y)
  }

  /** The side that follows `s` counter-clockwise. */
  function Next(s: Side): Side {
    match s
    case Bottom => Right
    case Right => Top
    case Top => Left
    case Left => Bottom
  }

  /** The side with index k in counter-clockwise order (0 = bottom, 1 = right, 2 = top);
      every other index names the left side. */
  function SideAt(k: int): Side {
    if k == 0 then Bottom else if k == 1 then Right else if k == 2 then Top else Left
  }

  /** The counter-clockwise index of a side: the inverse of `SideAt` on 0..3. */
  function SideIndexOf(s: Side): int {
    match s
    case Bottom => 0
    case Right => 1
    case Top => 2
    case Left => 3
  }

  /** Every side has an index in 0..3, and `SideAt` recovers the side from it. */
  lemma SideAtIndexOf(s: Side)
    ensures 0 <= SideIndexOf(s) < 4 && SideAt(SideIndexOf(s)) == s
  {
  }

  /** Every index in 0..3 is recovered from the side it names. */
  lemma IndexOfSideAt(k: int)
    requires 0 <= k < 4
    ensures SideIndexOf(SideAt(k)) == k
  {
  }

  /** The corner of the unit square at which side `s` starts. */
  function UnitStart(s: Side): Vec2 {
    match s
    case Bottom => Vec2(0.0, 0.0)
    case Right => Vec2(1.0, 0.0)
    case Top => Vec2(1.0, 1.0)
    case Left => Vec2(0.0, 1.0)
  }

  /** The unit direction in which side `s` is traversed. */
  function Direction(s: Side): Vec2 {
    match s
    case Bottom => Vec2(1.0, 0.0)
    case Right => Vec2(0.0, 1.0)
    case Top => Vec2(-1.0, 0.0)
    case Left => Vec2(0.0, -1.0)
  }

  /** The point at distance t along side `s` of the square of side length a. */
  function PointOnSide(a: real, s: Side, t: real): Vec2 {
    Vec2(a * UnitStart(s).x + t * Direction(s).x, a * UnitStart(s).y + t * Direction(s).y)
  }

  /** The outward normal of a side: its direction turned clockwise by a right angle. */
  function OutwardNormal(s: Side): Vec2 {
    Vec2(Direction(s).y, -Direction(s).x)
  }

  predicate InSquare(a: real, p: Vec2) {
    0.0 <= p.x <= a && 0.0 <= p.y <= a
  }

  predicate OnBoundary(a: real, p: Vec2) {
    InSquare(a, p) && (p.x == 0.0 || p.x == a || p.y == 0.0 || p.y == a)
  }

  predicate IsCorner(a: real, p: Vec2) {
    (p.x == 0.0 || p.x == a) && (p.y == 0.0 || p.y == a)
  }

  /** The sides close up: side `s` has length a and ends where the next side starts. */
  lemma SidesConnect(a: real, s: Side)
    ensures PointOnSide(a, s, 0.0) == Scale(a, UnitStart(s))
    ensures PointOnSide(a, s, a) == Scale(a, UnitStart(Next(s)))
  {
  }

  /** The coordinates of the point at distance t along each side. */
  lemma PointOnSideCoordinates(a: real, s: Side, t: real)
    ensures s == Bottom ==> PointOnSide(a, s, t) == Vec2(t, 0.0)
    ensures s == Right ==> PointOnSide(a, s, t) == Vec2(a, t)
    ensures s == Top ==> PointOnSide(a, s, t) == Vec2(a - t, a)
    ensures s == Left ==> PointOnSide(a, s, t) == Vec2(0.0, a - t)
  {
  }

  /** A point strictly inside a side lies on the boundary of the square and is not a corner;
      the side it lies on can be read off its coordinates. */
  lemma PointOnSideOnBoundary(a: real, s: Side, t: real)
    requires a > 0.0 && 0.0 < t < a
    ensures var p := PointOnSide(a, s, t);
      && OnBoundary(a, p) && !IsCorner(a, p)
      && (s == Bottom <==> p.y == 0.0)
      && (s == Right <==> p.x == a)
      && (s == Top <==> p.y == a)
      && (s == Left <==> p.x == 0.0)
  {
  }

  /** One of the four axis-aligned unit vectors. */
  predicate IsAxisUnit(v: Vec2) {
    v == Vec2(1.0, 0.0) || v == Vec2(-1.0, 0.0) || v == Vec2(0.0, 1.0) || v == Vec2(0.0, -1.0)
  }

  lemma AxisUnitHasLengthOne(v: Vec2)
    requires IsAxisUnit(v)
    ensures Dot(v, v) == 1.0 && (v.x == 0.0 || v.y == 0.0)
  {
  }

  /** A vector turned by a right angle is perpendicular to it. */
  lemma TurnedIsPerpendicular(d: Vec2)
    ensures Dot(Vec2(d.y, -d.x), d) == 0.0
  {
  }

  /** The outward normal of a side is an axis-aligned unit vector perpendicular to the side. */
  lemma NormalIsUnitAxisVector(s: Side)
    ensures IsAxisUnit(OutwardNormal(s))
    ensures Dot(OutwardNormal(s), OutwardNormal(s)) == 1.0
    ensures OutwardNormal(s).x == 0.0 || OutwardNormal(s).y == 0.0
    ensures Dot(OutwardNormal(s), Direction(s)) == 0.0
  {
    var d := Direction(s);
    var nv := OutwardNormal(s);
    assert nv == Vec2(d.y, -d.x);
    assert IsAxisUnit(nv);
    AxisUnitHasLengthOne(nv);
    TurnedIsPerpendicular(d);
  }

  /** The whole square lies behind the normal at any point of a side, and every step along
      the normal from such a point leaves the square: the normal points outward. */
  lemma NormalPointsOutward(a: real, s: Side, t: real, q: Vec2, eps: real)
    requires a > 0.0 && 0.0 < t < a
    requires InSquare(a, q) && eps > 0.0
    ensures var p, nv := PointOnSide(a, s, t), OutwardNormal(s);
      && Dot(Sub(q, p), nv) <= 0.0
      && !InSquare(a, Vec2(p.x + eps * nv.x, p.y + eps * nv.y))
  {
  }

  /** Two points strictly inside sides coincide only when they have the same side and offset. */
  lemma PointOnSideInjective(a: real, s1: Side, t1: real, s2: Side, t2: real)
    requires a > 0.0 && 0.0 < t1 < a && 0.0 < t2 < a
    ensures PointOnSide(a, s1, t1) == PointOnSide(a, s2, t2) <==> s1 == s2 && t1 == t2
  {
    PointOnSideOnBoundary(a, s1, t1);
    PointOnSideOnBoundary(a, s2, t2);
  }
}
