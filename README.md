# Rhombus outline of `simpletest.js`

`simpletest.js` is an OpenSCAD script despite its extension. It defines one
parametric shape, the module `rhombus(w, l)`, and places one instance of it
through `rotate`, `translate` and `linear_extrude`. This project models what
`rhombus` computes: the `points` and `paths` arguments it passes to
`polygon`. It also proves the geometry facts of that outline.

- `polygon.dfy`, module `Polygon`: plane points and the polygon outline
  (a vertex list plus closed index paths). It defines when a path is valid,
  the ring a path traverses, the vector sum of a vertex list, the shoelace
  signed area and the turn (cross product of incoming and outgoing edge) at
  a vertex, taken with the y axis up.
- `simpletest.dfy`, module `SimpleTest`: `Rhombus(w, l)`, the ring the
  path draws, and the lemmas about them. The script's call `rhombus(10, 20)`
  is stated as a lemma.

OpenSCAD numbers are IEEE doubles. Here they are Dafny `real`s, which are
exact. Halving a double is exact when the half is a normal double, so for
finite inputs whose halves are normal doubles the model computes the same
coordinates as the script.

Two facts about the script follow directly from its code:

- The script lists the vertices left, top, right, bottom. With the y axis
  up this order is clockwise: each turn and the signed area are
  `-(w*l)/2`, which is negative whenever `w*l > 0` (`TurnsOfRhombus`,
  `Clockwise`).
- `rhombus` has no guard on `w` or `l`, so `Rhombus` is total over all
  reals. The degenerate cases are proved, not excluded (`Degenerate`).

## Model

| member | source | states |
|---|---|---|
| SimpleTest.Rhombus | simpletest.js:3-9 | the outline has exactly four vertices and exactly one path, and every path is a valid closed path over the vertices (at least three indices, all in range, none repeated) |
| SimpleTest.RhombusRing | simpletest.js:9 | the ring drawn by following the path `[0,1,2,3]` is the vertex list itself, in its listed order |
| SimpleTest.PathVisitsEveryVertexOnce | simpletest.js:9 | the single path is valid, has as many indices as there are vertices, and visits every vertex |
| SimpleTest.VertexRoles | simpletest.js:4-7 | for positive `w` and `l`, vertex 0 is strictly leftmost, 1 strictly topmost, 2 strictly rightmost and 3 strictly bottommost |
| SimpleTest.Centred | simpletest.js:2-8 | the four vertices sum to the zero vector, so their centroid is the origin |
| SimpleTest.PointSymmetric | simpletest.js:4-7 | right is the reflection of left through the origin and bottom that of top, so a half turn maps the ring onto itself shifted by two places |
| SimpleTest.HalfTurnOfRhombus | simpletest.js:4-7 | a half turn about the origin maps the ring onto the same ring started two vertices later, and that ring has the same signed area, so the point symmetry keeps area and winding |
| SimpleTest.Diagonals | simpletest.js:4-7 | left and right lie on y = 0 and differ in x by exactly `w`; top and bottom lie on x = 0 and differ in y by exactly `l`; the squared diagonal lengths are `w*w` and `l*l` |
| SimpleTest.SignedAreaOfRhombus | simpletest.js:3-9 | the shoelace signed area of the ring in path order is `-(w*l)/2` for every `w` and `l` |
| SimpleTest.TurnsOfRhombus | simpletest.js:3-9 | the turn at each of the four vertices is `-(w*l)/2`, so the ring turns the same way at every vertex |
| SimpleTest.Clockwise | simpletest.js:3-9 | when `w*l > 0` every turn is negative and the signed area is negative: the ring is clockwise and encloses area `w*l/2` |
| SimpleTest.Degenerate | simpletest.js:1-8 | with `w = 0` left and right both equal the origin; with `l = 0` top and bottom do; the signed area is zero if and only if `w = 0` or `l = 0` |
| SimpleTest.Characterised | simpletest.js:3-8 | a four-point ring is the rhombus vertex list of `w` and `l` if and only if vertex 0 is on the x axis, vertex 1 on the y axis, vertices 2 and 3 reflect 0 and 1, and the signed diagonal differences are `w` and `l` |
| SimpleTest.ScriptCall | simpletest.js:16 | `rhombus(10, 20)` yields exactly the vertices `(-5,0), (0,10), (5,0), (0,-10)` with the path `[[0,1,2,3]]`, signed area `-100` |

## Left out

- `rotate([0, 0, 45])` (simpletest.js:13): defined by the OpenSCAD engine, not by the script. Its effect needs the cosine and sine of 45 degrees, which are irrational and computed in floating point.
- `translate([20, 40, 0])` and `linear_extrude(2)` (simpletest.js:14-15): defined by the OpenSCAD engine, not by the script, as is the tessellation of the extrusion.
- The comment at simpletest.js:12 that the rotation is "around the center": not stated as a property. The rotate is applied outside the translate, and the script's code does not fix what the comment means.
- `polygon` itself (simpletest.js:9): only the `points` and `paths` arguments are modelled, not what the engine builds from them.
- SimpleTest.Diagonals: diagonal lengths are stated as coordinate differences and squared distances, because a square root is not available over exact reals.
- Non-finite doubles, and inputs whose halves are subnormal and so get rounded: the model uses exact reals.
- Loading the script, rendering and export: I/O done by the OpenSCAD engine.
