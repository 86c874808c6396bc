/**
 * Axis-aligned cuboids (core/render_3d.go): the eight-vertex layout, moving
 * a cuboid, and the twelve edges drawn for it. Coordinates are reals; the
 * floating-point rotations applied to cuboids elsewhere are not modelled.
 */
module Geometry {
  import opened Colors

  datatype Point3D = Point3D(x: real, y: real, z: real)

  function Add(p: Point3D, q: Point3D): Point3D {
    Point3D(p.x + q.x, p.y + q.y, p.z + q.z)
  }

  /** `Point3D.Divide` by a point whose components are all s. */
  function DivideScalar(p: Point3D, s: real): Point3D
    requires s != 0.0
  {
    Point3D(p.x / s, p.y / s, p.z / s)
  }

  /** A cuboid: eight corner points and a colour. */
  datatype Cuboid = Cuboid(vertices: seq<Point3D>, color: RGBA)

  predicate ValidCuboid(c: Cuboid) {
    |c.vertices| == 8
  }

  /** Vertex i takes its x coordinate from the maximum corner. */
  predicate XFromMax(i: int) {
    i == 1 || i == 2 || i == 5 || i == 6
  }

  /** Vertex i takes its y coordinate from the maximum corner. */
  predicate YFromMax(i: int) {
    i == 2 || i == 3 || i == 6 || i == 7
  }

  /** Vertex i takes its z coordinate from the maximum corner. */
  predicate ZFromMax(i: int) {
    i >= 4
  }

  /** The eight corners of the box spanned by lo and hi, front face (z = lo.z) first. */
  function MakeAxisAlignedCuboid(lo: Point3D, hi: Point3D, color: RGBA): (c: Cuboid)
    ensures ValidCuboid(c) && c.color == color
    ensures forall i :: 0 <= i < 8 ==>
              && c.vertices[i].x == (if XFromMax(i) then hi.x else lo.x)
              && c.vertices[i].y == (if YFromMax(i) then hi.y else lo.y)
              && c.vertices[i].z == (if ZFromMax(i) then hi.z else lo.z)
  {
    Cuboid([
      Point3D(lo.x, lo.y, lo.z),
      Point3D(hi.x, lo.y, lo.z),
      Point3D(hi.x, hi.y, lo.z),
      Point3D(lo.x, hi.y, lo.z),
      Point3D(lo.x, lo.y, hi.z),
      Point3D(hi.x, lo.y, hi.z),
      Point3D(hi.x, hi.y, hi.z),
      Point3D(lo.x, hi.y, hi.z)
    ], color)
  }

  /** A box with lo strictly below hi on every axis has eight distinct corners. */
  lemma CornersDistinct(lo: Point3D, hi: Point3D, color: RGBA, i: int, j: int)
    requires lo.x < hi.x && lo.y < hi.y && lo.z < hi.z
    requires 0 <= i < 8 && 0 <= j < 8 && i != j
    ensures MakeAxisAlignedCuboid(lo, hi, color).vertices[i] != MakeAxisAlignedCuboid(lo, hi, color).vertices[j]
  {
  }

  /** `Cuboid.Move`: translate a copy of every vertex by offset. */
  method Move(c: Cuboid, offset: Point3D) returns (r: Cuboid)
    requires ValidCuboid(c)
    ensures ValidCuboid(r) && r.color == c.color
    ensures forall i :: 0 <= i < 8 ==> r.vertices[i] == Add(c.vertices[i], offset)
  {
    var vertices := c.vertices;
    for i := 0 to 8
      invariant |vertices| == 8
      invariant forall k :: 0 <= k < i ==> vertices[k] == Add(c.vertices[k], offset)
      invariant forall k :: i <= k < 8 ==> vertices[k] == c.vertices[k]
    {
      vertices := vertices[i := Add(vertices[i], offset)];
    }
    r := c.(vertices := vertices);
  }

  /** Moving the box spanned by lo and hi gives the box spanned by the moved corners. */
  lemma MoveKeepsAlignment(lo: Point3D, hi: Point3D, color: RGBA, offset: Point3D)
    ensures forall i :: 0 <= i < 8 ==>
              Add(MakeAxisAlignedCuboid(lo, hi, color).vertices[i], offset)
              == MakeAxisAlignedCuboid(Add(lo, offset), Add(hi, offset), color).vertices[i]
  {
  }

  /** The edge table of `DrawCuboid`: front face, back face, then the four connecting edges. */
  const Edges: seq<(int, int)> := [
    (0, 1), (1, 2), (2, 3), (3, 0),
    (4, 5), (5, 6), (6, 7), (7, 4),
    (0, 4), (1, 5), (2, 6), (3, 7)
  ]

  /** The number of axes on which vertices i and j take different corners. */
  function AxesApart(i: int, j: int): (n: nat)
    ensures n <= 3
  {
    (if XFromMax(i) != XFromMax(j) then 1 else 0)
    + (if YFromMax(i) != YFromMax(j) then 1 else 0)
    + (if ZFromMax(i) != ZFromMax(j) then 1 else 0)
  }

  /** How many of the first n edges touch vertex v. */
  function Degree(v: int, n: nat): (d: nat)
    requires n <= |Edges|
    ensures d <= n
  {
    if n == 0 then 0
    else Degree(v, n - 1) + (if Edges[n - 1].0 == v || Edges[n - 1].1 == v then 1 else 0)
  }

  /** Every edge joins two vertices that differ on exactly one axis. */
  lemma EdgesAreAxisAligned()
    ensures |Edges| == 12
    ensures forall k :: 0 <= k < 12 ==>
              0 <= Edges[k].0 < 8 && 0 <= Edges[k].1 < 8 && AxesApart(Edges[k].0, Edges[k].1) == 1
  {
  }

  lemma FrontVertexDegrees()
    ensures Degree(0, 12) == 3 && Degree(1, 12) == 3 && Degree(2, 12) == 3 && Degree(3, 12) == 3
  {
    assert Degree(0, 6) == 2;
    assert Degree(1, 6) == 2 && Degree(1, 9) == 2;
    assert Degree(2, 6) == 2 && Degree(2, 9) == 2;
    assert Degree(3, 6) == 2 && Degree(3, 9) == 2;
  }

  lemma BackVertexDegrees()
    ensures Degree(4, 12) == 3 && Degree(5, 12) == 3 && Degree(6, 12) == 3 && Degree(7, 12) == 3
  {
    assert Degree(4, 6) == 1;
    assert Degree(5, 6) == 2;
    assert Degree(6, 6) == 1;
    assert Degree(7, 6) == 0;
  }

  /** Every vertex lies on exactly three edges, so the table is the whole cube. */
  lemma EveryVertexHasThreeEdges(v: int)
    requires 0 <= v < 8
    ensures Degree(v, 12) == 3
  {
    FrontVertexDegrees();
    BackVertexDegrees();
  }
}
