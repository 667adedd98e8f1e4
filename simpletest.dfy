/** The OpenSCAD module `rhombus(w, l)`: the outline it hands to `polygon`,
    and the geometry facts that outline satisfies.  Numbers are exact reals,
    and no guard is placed on `w` or `l`, as in the script. */
module SimpleTest {
  import opened Polygon

  /** The points and paths `rhombus(w, l)` passes to `polygon`: the vertices
      left, top, right, bottom and one closed path through them in that
      order. */
  function Rhombus(w: real, l: real): (r: Outline)
    ensures |r.points| == 4 && |r.paths| == 1
    ensures WellFormed(r)
  {
    Outline([Point(-w / 2.0, 0.0), Point(0.0, l / 2.0), Point(w / 2.0, 0.0), Point(0.0, -l / 2.0)],
            [[0, 1, 2, 3]])
  }

  /** The ring `polygon` draws: the vertices in the order of the one path. */
  function RhombusRing(w: real, l: real): (ring: seq<Point>)
    ensures ring == Rhombus(w, l).points
  {
    Traverse(Rhombus(w, l).points, Rhombus(w, l).paths[0])
  }

  /** The only path visits every vertex exactly once. */
  lemma PathVisitsEveryVertexOnce(w: real, l: real)
    ensures var r := Rhombus(w, l);
      && ValidPath(r.paths[0], |r.points|)
      && |r.paths[0]| == |r.points|
      && forall v :: 0 <= v < |r.points| ==> v in r.paths[0]
  {
  }

  /** For positive parameters, vertex 0 is the leftmost, 1 the topmost, 2 the
      rightmost and 3 the bottommost. */
  lemma VertexRoles(w: real, l: real)
    requires w > 0.0 && l > 0.0
    ensures var p := Rhombus(w, l).points;
      forall i :: 0 <= i < 4 ==>
        && (i != 0 ==> p[0].x < p[i].x)
        && (i != 1 ==> p[i].y < p[1].y)
        && (i != 2 ==> p[i].x < p[2].x)
        && (i != 3 ==> p[3].y < p[i].y)
  {
  }

  /** Centred at the origin: the vertices sum to the zero vector. */
  lemma Centred(w: real, l: real)
    ensures Sum(Rhombus(w, l).points) == Point(0.0, 0.0)
  {
    var p := Rhombus(w, l).points;
    SumOfFour(p);
  }

  /** Point symmetry: right is the reflection of left, bottom of top, so a
      half turn about the origin maps the ring onto itself shifted by two. */
  lemma PointSymmetric(w: real, l: real)
    ensures var p := Rhombus(w, l).points;
      && p[2] == Neg(p[0]) && p[3] == Neg(p[1])
      && Negated(p) == p[2..] + p[..2]
  {
  }

  /** A half turn about the origin keeps the signed area, and for this ring
      it is the same ring started two vertices later (right, bottom, left,
      top): the point symmetry leaves area and winding unchanged. */
  lemma HalfTurnOfRhombus(w: real, l: real)
    ensures var p := RhombusRing(w, l);
      && Negated(p) == p[2..] + p[..2]
      && SignedArea(p[2..] + p[..2]) == SignedArea(p)
  {
    PointSymmetric(w, l);
    SignedAreaNegated(RhombusRing(w, l));
  }

  /** The horizontal diagonal joins left and right and has length |w|; the
      vertical one joins top and bottom and has length |l|. */
  lemma Diagonals(w: real, l: real)
    ensures var p := Rhombus(w, l).points;
      && p[0].y == 0.0 && p[2].y == 0.0 && p[2].x - p[0].x == w
      && p[1].x == 0.0 && p[3].x == 0.0 && p[1].y - p[3].y == l
      && SquaredDistance(p[0], p[2]) == w * w
      && SquaredDistance(p[1], p[3]) == l * l
  {
  }

  /** The shoelace area of the ring in path order is -(w*l)/2. */
  lemma SignedAreaOfRhombus(w: real, l: real)
    ensures SignedArea(RhombusRing(w, l)) == -(w * l) / 2.0
  {
    var p := RhombusRing(w, l);
    EdgeSumOfFour(p);
    assert Cross(p[0], p[1]) == -(w * l) / 4.0;
    assert Cross(p[1], p[2]) == -(w * l) / 4.0;
    assert Cross(p[2], p[3]) == -(w * l) / 4.0;
    assert Cross(p[3], p[0]) == -(w * l) / 4.0;
  }

  /** The cross product of the incoming and the outgoing edge at each
      vertex of the ring, for half diagonals `hw` and `hl`.  The edges are
      left to top (hw, hl), top to right (hw, -hl), right to bottom
      (-hw, -hl) and bottom to left (-hw, hl); the clauses are in vertex
      order 0 to 3. */
  lemma EdgeCrosses(hw: real, hl: real)
    ensures Cross(Point(-hw, hl), Point(hw, hl)) == -2.0 * (hw * hl)
    ensures Cross(Point(hw, hl), Point(hw, -hl)) == -2.0 * (hw * hl)
    ensures Cross(Point(hw, -hl), Point(-hw, -hl)) == -2.0 * (hw * hl)
    ensures Cross(Point(-hw, -hl), Point(-hw, hl)) == -2.0 * (hw * hl)
  {
  }

  /** Every turn of the ring with half diagonals `hw` and `hl` is
      -2*hw*hl. */
  lemma TurnsOfHalfDiagonals(hw: real, hl: real)
    ensures var p := [Point(-hw, 0.0), Point(0.0, hl), Point(hw, 0.0), Point(0.0, -hl)];
      forall i :: 0 <= i < 4 ==> Turn(p, i) == -2.0 * (hw * hl)
  {
    var p := [Point(-hw, 0.0), Point(0.0, hl), Point(hw, 0.0), Point(0.0, -hl)];
    assert Sub(p[1], p[0]) == Point(hw, hl);
    assert Sub(p[2], p[1]) == Point(hw, -hl);
    assert Sub(p[3], p[2]) == Point(-hw, -hl);
    assert Sub(p[0], p[3]) == Point(-hw, hl);
    EdgeCrosses(hw, hl);
    assert Turn(p, 0) == Cross(Point(-hw, hl), Point(hw, hl));
    assert Turn(p, 1) == Cross(Point(hw, hl), Point(hw, -hl));
    assert Turn(p, 2) == Cross(Point(hw, -hl), Point(-hw, -hl));
    assert Turn(p, 3) == Cross(Point(-hw, -hl), Point(-hw, hl));
  }

  /** Every turn of the ring is -(w*l)/2. */
  lemma TurnsOfRhombus(w: real, l: real)
    ensures forall i :: 0 <= i < 4 ==> Turn(RhombusRing(w, l), i) == -(w * l) / 2.0
  {
    var hw, hl := w / 2.0, l / 2.0;
    assert RhombusRing(w, l) == [Point(-hw, 0.0), Point(0.0, hl), Point(hw, 0.0), Point(0.0, -hl)];
    assert -(w * l) / 2.0 == -2.0 * (hw * hl) by {
      assert w == 2.0 * hw && l == 2.0 * hl;
      assert w * l == 4.0 * (hw * hl);
    }
    TurnsOfHalfDiagonals(hw, hl);
  }

  /** Whenever w*l > 0 the ring turns right at every vertex and is traversed
      clockwise (y axis up), enclosing area w*l/2. */
  lemma Clockwise(w: real, l: real)
    requires w * l > 0.0
    ensures forall i :: 0 <= i < 4 ==> Turn(RhombusRing(w, l), i) < 0.0
    ensures SignedArea(RhombusRing(w, l)) < 0.0
    ensures -SignedArea(RhombusRing(w, l)) == w * l / 2.0
  {
    var p, t := RhombusRing(w, l), -(w * l) / 2.0;
    assert t < 0.0;
    TurnsOfRhombus(w, l);
    SignedAreaOfRhombus(w, l);
    assert SignedArea(p) == t;
    forall i | 0 <= i < 4
      ensures Turn(p, i) < 0.0
    {
      assert Turn(p, i) == t;
    }
  }

  /** The outline degenerates exactly when a parameter is zero: then two
      opposite vertices meet at the origin and the area vanishes. */
  lemma Degenerate(w: real, l: real)
    ensures w == 0.0 ==> Rhombus(w, l).points[0] == Rhombus(w, l).points[2] == Point(0.0, 0.0)
    ensures l == 0.0 ==> Rhombus(w, l).points[1] == Rhombus(w, l).points[3] == Point(0.0, 0.0)
    ensures SignedArea(RhombusRing(w, l)) == 0.0 <==> (w == 0.0 || l == 0.0)
  {
    SignedAreaOfRhombus(w, l);
  }

  /** A four-vertex ring is the rhombus outline of `w` and `l` if and only
      if its first vertex is on the horizontal axis, its second on the
      vertical axis, the last two reflect the first two through the origin,
      and its diagonals measure `w` and `l` as signed coordinate
      differences. */
  lemma Characterised(p: seq<Point>, w: real, l: real)
    requires |p| == 4
    ensures p == Rhombus(w, l).points <==>
      && p[0].y == 0.0 && p[1].x == 0.0
      && p[2] == Neg(p[0]) && p[3] == Neg(p[1])
      && p[2].x - p[0].x == w && p[1].y - p[3].y == l
  {
  }

  /** The call `rhombus(10, 20)` of the script. */
  lemma ScriptCall()
    ensures Rhombus(10.0, 20.0) ==
      Outline([Point(-5.0, 0.0), Point(0.0, 10.0), Point(5.0, 0.0), Point(0.0, -10.0)], [[0, 1, 2, 3]])
    ensures SignedArea(RhombusRing(10.0, 20.0)) == -100.0
  {
  }
}
