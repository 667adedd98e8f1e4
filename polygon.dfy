/** Plane points and the outline handed to a polygon primitive: a vertex
    list plus closed paths of vertex indices.  The signed area and the turn
    at a vertex are computed over a ring of points in traversal order, with
    the y axis pointing up. */
module Polygon {

  datatype Point = Point(x: real, y: real)

  /** The two arguments of a polygon call: `points` and `paths`. */
  datatype Outline = Outline(points: seq<Point>, paths: seq<seq<nat>>)

  function Add(a: Point, b: Point): Point { Point(a.x + b.x, a.y + b.y) }

  function Sub(a: Point, b: Point): Point { Point(a.x - b.x, a.y - b.y) }

  function Neg(a: Point): Point { Point(-a.x, -a.y) }

  /** z-component of the cross product of two plane vectors. */
  function Cross(a: Point, b: Point): real { a.x * b.y - a.y * b.x }

  function SquaredDistance(a: Point, b: Point): real
  {
    (a.x - b.x) * (a.x - b.x) + (a.y - b.y) * (a.y - b.y)
  }

  /** Vector sum of all points of a sequence. */
  function Sum(s: seq<Point>): Point
  {
    if s == [] then Point(0.0, 0.0) else Add(s[0], Sum(s[1..]))
  }

  /** Every point of the sequence reflected through the origin. */
  function Negated(s: seq<Point>): (r: seq<Point>)
    ensures |r| == |s|
    ensures forall i :: 0 <= i < |s| ==> r[i] == Neg(s[i])
  {
    if s == [] then [] else [Neg(s[0])] + Negated(s[1..])
  }

  /** A closed path over `n` vertices: at least three indices, each a valid
      vertex index, none repeated. */
  predicate ValidPath(path: seq<nat>, n: nat)
  {
    && |path| >= 3
    && (forall i :: 0 <= i < |path| ==> path[i] < n)
    && (forall i, j :: 0 <= i < j < |path| ==> path[i] != path[j])
  }

  /** Every path of the outline is a valid closed path over its vertices. */
  predicate WellFormed(o: Outline)
  {
    forall k :: 0 <= k < |o.paths| ==> ValidPath(o.paths[k], |o.points|)
  }

  /** The ring of points visited by a path, in path order. */
  function Traverse(points: seq<Point>, path: seq<nat>): (ring: seq<Point>)
    requires forall i :: 0 <= i < |path| ==> path[i] < |points|
    ensures |ring| == |path|
  {
    seq(|path|, i requires 0 <= i < |path| => points[path[i]])
  }

  /** Sum of Cross(s[i], s[i+1]) over consecutive points of `s`, the last
      point being joined back to `start`. */
  function EdgeSum(s: seq<Point>, start: Point): real
  {
    if s == [] then 0.0
    else if |s| == 1 then Cross(s[0], start)
    else Cross(s[0], s[1]) + EdgeSum(s[1..], start)
  }

  /** Shoelace signed area of a closed ring: positive when the ring is
      traversed counter-clockwise, negative when clockwise. */
  function SignedArea(ring: seq<Point>): real
  {
    if ring == [] then 0.0 else EdgeSum(ring, ring[0]) / 2.0
  }

  /** Turn at vertex `i` of a closed ring: the cross product of the incoming
      and the outgoing edge.  Negative is a right (clockwise) turn. */
  function Turn(ring: seq<Point>, i: nat): real
    requires i < |ring|
  {
    var prev := if i == 0 then ring[|ring| - 1] else ring[i - 1];
    var next := if i == |ring| - 1 then ring[0] else ring[i + 1];
    Cross(Sub(ring[i], prev), Sub(next, ring[i]))
  }

  /** The sum of a four-point sequence, unfolded. */
  lemma SumOfFour(s: seq<Point>)
    requires |s| == 4
    ensures Sum(s) == Point(s[0].x + s[1].x + s[2].x + s[3].x, s[0].y + s[1].y + s[2].y + s[3].y)
  {
    assert s[3..][1..] == [];
    assert Sum(s[3..]) == Point(s[3].x, s[3].y);
    assert s[2..][1..] == s[3..];
    assert Sum(s[2..]) == Point(s[2].x + s[3].x, s[2].y + s[3].y);
    assert s[1..][1..] == s[2..];
    assert Sum(s[1..]) == Point(s[1].x + s[2].x + s[3].x, s[1].y + s[2].y + s[3].y);
  }

  /** The edge sum of a closed four-point ring, unfolded. */
  lemma EdgeSumOfFour(s: seq<Point>)
    requires |s| == 4
    ensures EdgeSum(s, s[0]) == Cross(s[0], s[1]) + Cross(s[1], s[2]) + Cross(s[2], s[3]) + Cross(s[3], s[0])
  {
    assert s[2..][1..] == s[3..] == [s[3]];
    assert EdgeSum(s[2..], s[0]) == Cross(s[2], s[3]) + Cross(s[3], s[0]);
    assert s[1..][1..] == s[2..];
    assert EdgeSum(s[1..], s[0]) == Cross(s[1], s[2]) + Cross(s[2], s[3]) + Cross(s[3], s[0]);
  }

  /** Reflecting every point through the origin keeps each edge term. */
  lemma {:induction false} EdgeSumNegated(s: seq<Point>, start: Point)
    ensures EdgeSum(Negated(s), Neg(start)) == EdgeSum(s, start)
  {
    if |s| > 1 {
      EdgeSumNegated(s[1..], start);
      assert Negated(s)[1..] == Negated(s[1..]);
    }
  }

  /** A half turn about the origin does not change the signed area, so it
      keeps both the enclosed area and the winding direction. */
  lemma SignedAreaNegated(ring: seq<Point>)
    ensures SignedArea(Negated(ring)) == SignedArea(ring)
  {
    if ring != [] {
      EdgeSumNegated(ring, ring[0]);
    }
  }
}
