/** Which sides share their three corners, read off the geometry alone. */
module CubeTriangles {
  import opened CubeTables

  // Sum of the three corners of a side (three times its centre), relative to the cube.
  ghost function SideSum(odd: Parity, t: Tet, s: Four): (r: Point) {
    var a, b := TetVertex(odd, t, FaceCorner(s, 0)), TetVertex(odd, t, FaceCorner(s, 1));
    var c := TetVertex(odd, t, FaceCorner(s, 2));
    Point(a.x + b.x + c.x, a.y + b.y + c.y, a.z + b.z + c.z)
  }

  // Whether the corner sum m lies on the planes a and b, at 0 and at 3, or strictly between.
  ghost predicate PlanesFit(m: int, dir: Dir, a: Dir, b: Dir) {
    0 <= m <= 3 && (m == 0 <==> dir == a) && (m == 3 <==> dir == b)
  }

  // Two corners of a side never coincide.
  ghost predicate CornersDiffer(odd: Parity, t: Tet, s: Four) {
    var a, b := TetVertex(odd, t, FaceCorner(s, 0)), TetVertex(odd, t, FaceCorner(s, 1));
    var c := TetVertex(odd, t, FaceCorner(s, 2));
    a != b && b != c && c != a
  }

  /** The side of one of the four outer tetrahedra with corner sum m. */
  ghost function OuterSide(odd: Parity, m: Point): (r: (Tet, Four)) {
    if odd == 0 then
      if m == Point(0, 1, 1) then (0, 2) else if m == Point(0, 2, 2) then (3, 0)
      else if m == Point(1, 0, 1) then (0, 1) else if m == Point(1, 1, 0) then (0, 0)
      else if m == Point(1, 1, 1) then (0, 3) else if m == Point(1, 2, 2) then (3, 2)
      else if m == Point(1, 2, 3) then (3, 3) else if m == Point(1, 3, 2) then (3, 1)
      else if m == Point(2, 0, 2) then (2, 2) else if m == Point(2, 1, 2) then (2, 0)
      else if m == Point(2, 1, 3) then (2, 3) else if m == Point(2, 2, 0) then (1, 1)
      else if m == Point(2, 2, 1) then (1, 0) else if m == Point(2, 3, 1) then (1, 3)
      else if m == Point(3, 1, 2) then (2, 1) else (1, 2)
    else
      if m == Point(0, 1, 2) then (2, 2) else if m == Point(0, 2, 1) then (0, 0)
      else if m == Point(1, 0, 2) then (2, 1) else if m == Point(1, 1, 2) then (2, 0)
      else if m == Point(1, 1, 3) then (2, 3) else if m == Point(1, 2, 0) then (0, 1)
      else if m == Point(1, 2, 1) then (0, 2) else if m == Point(1, 3, 1) then (0, 3)
      else if m == Point(2, 0, 1) then (1, 2) else if m == Point(2, 1, 0) then (1, 1)
      else if m == Point(2, 1, 1) then (1, 0) else if m == Point(2, 2, 2) then (3, 1)
      else if m == Point(2, 2, 3) then (3, 3) else if m == Point(2, 3, 2) then (3, 2)
      else if m == Point(3, 1, 1) then (1, 3) else (3, 0)
  }

  // The side itself, or, for the inner tetrahedron, the outer side it touches.
  ghost predicate SumFindsSide(odd: Parity, t: Tet, s: Four) {
    OuterSide(odd, SideSum(odd, t, s)) == if t < 4 then (t, s) else (StepOf(odd, t, s).tet, TetSideNeighbor(odd, t, s))
  }

  lemma SumFitsX(odd: Parity, t: Tet, s: Four)
    ensures PlanesFit(SideSum(odd, t, s).x, StepOf(odd, t, s).dir, XMin, XMax)
  {}

  lemma SumFitsY(odd: Parity, t: Tet, s: Four)
    ensures PlanesFit(SideSum(odd, t, s).y, StepOf(odd, t, s).dir, YMin, YMax)
  {}

  lemma SumFitsZ(odd: Parity, t: Tet, s: Four)
    ensures PlanesFit(SideSum(odd, t, s).z, StepOf(odd, t, s).dir, ZMin, ZMax)
  {}

  lemma SideCornersDiffer(odd: Parity, t: Tet, s: Four)
    ensures CornersDiffer(odd, t, s)
  {}

  lemma OuterSideFound(odd: Parity, t: Tet, s: Four)
    ensures SumFindsSide(odd, t, s)
  {}

  /** Two sides of one cube with the same corner sum are the same side, or the inner tetrahedron
      and one outer tetrahedron touching there. */
  lemma SumsInOneCube(odd: Parity, t: Tet, s: Four, t1: Tet, s1: Four)
    requires SideSum(odd, t, s) == SideSum(odd, t1, s1)
    ensures (t == t1 && s == s1) || (StepOf(odd, t, s) == Step(Inner, t1) && TetSideNeighbor(odd, t, s) == s1)
  {
    OuterSideFound(odd, t, s);
    OuterSideFound(odd, t1, s1);
    TablesLeadBack(odd, t, s);
    TablesLeadBack(odd, t1, s1);
    InnerSteps(odd, t, s);
    InnerSteps(odd, t1, s1);
    hide SideSum, OuterSide, StepOf, TetSideNeighbor, TetSideOrientation;
  }

  lemma InnerSteps(odd: Parity, t: Tet, s: Four)
    ensures t == 4 ==> StepOf(odd, t, s).dir == Inner
    ensures StepOf(odd, t, s).dir == Inner && t < 4 ==> StepOf(odd, t, s).tet == 4
  {}
}
