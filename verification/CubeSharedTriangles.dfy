/** The neighbour arrays record exactly the shared triangles of the mesh. */
module CubeSharedTriangles {
  import opened CubeTables
  import opened CubeLayout
  import opened CubeMesh
  import opened CubeConformity
  import opened CubeTriangles

  ghost function SumAt(f: Entry): (r: Point) {
    var m := SideSum(OddOf(f.cube), f.tet, f.j);
    Point(m.x + 3 * f.cube.x, m.y + 3 * f.cube.y, m.z + 3 * f.cube.z)
  }

  ghost function CornerSet(f: Entry): (r: set<Point>) {
    {FacePoint(f, 0), FacePoint(f, 1), FacePoint(f, 2)}
  }

  // p is q moved by three times u
  ghost predicate MovedThrice(p: Point, q: Point, u: Point) {
    p.x == q.x + 3 * u.x && p.y == q.y + 3 * u.y && p.z == q.z + 3 * u.z
  }

  lemma MateSum(odd: Parity, t: Tet, s: Four)
    ensures var st := StepOf(odd, t, s);
            MovedThrice(SideSum(odd, t, s), SideSum(Behind(odd, st.dir), st.tet, TetSideNeighbor(odd, t, s)), Unit(st.dir))
  {
    hide TetVertex, FaceCorner, StepOf, TetSideNeighbor, TetSideOrientation, Unit, Behind;
    TableCornersMeet(odd, t, s, 0);
    TableCornersMeet(odd, t, s, 1);
    TableCornersMeet(odd, t, s, 2);
  }

  // Equal corner sums put two sides into one cube, or into two cubes behind one plane.
  lemma SumsMeet(d: Dims, f: Entry, g: Entry)
    requires Valid(d) && InBox(d, f.cube) && InBox(d, g.cube)
    requires SumAt(f) == SumAt(g)
    ensures var dir := StepAt(f).dir;
            g.cube == f.cube || (dir != Inner && !AtBorder(d, f.cube, dir) && g.cube == CubeBehind(d, f.cube, dir))
  {
    forall e: Entry | e in {f, g}
      ensures PlanesFit(SideSum(OddOf(e.cube), e.tet, e.j).x, StepAt(e).dir, XMin, XMax)
      ensures PlanesFit(SideSum(OddOf(e.cube), e.tet, e.j).y, StepAt(e).dir, YMin, YMax)
      ensures PlanesFit(SideSum(OddOf(e.cube), e.tet, e.j).z, StepAt(e).dir, ZMin, ZMax)
    {
      SumFitsX(OddOf(e.cube), e.tet, e.j);
      SumFitsY(OddOf(e.cube), e.tet, e.j);
      SumFitsZ(OddOf(e.cube), e.tet, e.j);
    }
    hide SideSum, StepOf, OddOf;
  }

  lemma SumFindsMate(cfg: Config, f: Entry, g: Entry)
    requires ValidConfig(cfg) && InBox(cfg.d, f.cube) && InBox(cfg.d, g.cube)
    requires SumAt(f) == SumAt(g) && f != g
    ensures g == MateOf(cfg, f) && !AtBorder(cfg.d, f.cube, StepAt(f).dir)
  {
    hide SideSum, StepOf, OddOf, TetSideNeighbor, TetSideOrientation, Behind, AtBorder;
    var odd, dir := OddOf(f.cube), StepAt(f).dir;
    SumsMeet(cfg.d, f, g);
    if g.cube == f.cube {
      SumsInOneCube(odd, f.tet, f.j, g.tet, g.j);
      NoInnerBorder(cfg.d);
    } else {
      var m := MateOf(cfg, f);
      StepParity(cfg.d, f.cube, dir);
      MateSum(odd, f.tet, f.j);
      TablesLeadBack(odd, f.tet, f.j);
      UnitStep(cfg.d, f.cube, dir);
      hide CubeBehind, Unit;
      assert SideSum(OddOf(m.cube), m.tet, m.j) == SideSum(OddOf(g.cube), g.tet, g.j);
      SumsInOneCube(OddOf(m.cube), m.tet, m.j, g.tet, g.j);
    }
  }

  lemma UnitStep(d: Dims, q: Cube, dir: Dir)
    requires !AtBorder(d, q, dir)
    ensures var r, u := CubeBehind(d, q, dir), Unit(dir);
            r.x == q.x + u.x && r.y == q.y + u.y && r.z == q.z + u.z
    ensures Opposite(dir) == Inner <==> dir == Inner
  {}

  lemma SameSetSameSum(a: Point, b: Point, c: Point, p: Point, q: Point, r: Point)
    requires {a, b, c} == {p, q, r}
    requires a != b && b != c && c != a && p != q && q != r && r != p
    ensures a.x + b.x + c.x == p.x + q.x + r.x
    ensures a.y + b.y + c.y == p.y + q.y + r.y
    ensures a.z + b.z + c.z == p.z + q.z + r.z
  {
    assert a in {p, q, r} && b in {p, q, r} && c in {p, q, r};
  }

  lemma SameCornersSameSum(f: Entry, g: Entry)
    requires CornerSet(f) == CornerSet(g)
    ensures SumAt(f) == SumAt(g)
  {
    SideCornersDiffer(OddOf(f.cube), f.tet, f.j);
    SideCornersDiffer(OddOf(g.cube), g.tet, g.j);
    hide TetVertex, FaceCorner, OddOf;
    SameSetSameSum(FacePoint(f, 0), FacePoint(f, 1), FacePoint(f, 2), FacePoint(g, 0), FacePoint(g, 1), FacePoint(g, 2));
  }

  lemma StoredSameCorners(cfg: Config, rank: nat, f: Entry, g: Entry)
    requires ValidConfig(cfg) && rank < cfg.px && InBox(cfg.d, f.cube) && InBox(cfg.d, g.cube)
    requires Stored(cfg, rank, f, g) && !AtBorder(cfg.d, f.cube, StepAt(f).dir)
    ensures CornerSet(f) == CornerSet(g)
  {
    hide FacePoint, Stored, SideOrientation, AtBorder, StepAt;
    SidesConform(cfg, rank, f, g, 0);
    SidesConform(cfg, rank, f, g, 1);
    SidesConform(cfg, rank, f, g, 2);
  }

  /** Two different sides have the same three corners exactly when the arrays store the one as the
      neighbour of the other without going around the box. So no triangle belongs to more than
      two sides, and no shared triangle is missing from the arrays. */
  lemma SharedTrianglesAreStored(cfg: Config, rank: nat, f: Entry, g: Entry)
    requires ValidConfig(cfg) && rank < cfg.px && InBox(cfg.d, f.cube) && InBox(cfg.d, g.cube)
    requires f != g
    ensures CornerSet(f) == CornerSet(g)
            <==> Stored(cfg, rank, f, g) && !AtBorder(cfg.d, f.cube, StepAt(f).dir)
  {
    if CornerSet(f) == CornerSet(g) {
      SameCornersSameSum(f, g);
      SumFindsMate(cfg, f, g);
      StepBack(cfg.d, f.cube, StepAt(f).dir);
      hide StepOf, TetSideNeighbor, OddOf, AtBorder, CubeBehind, ElemOf, CornerSet;
    } else if Stored(cfg, rank, f, g) && !AtBorder(cfg.d, f.cube, StepAt(f).dir) {
      StoredSameCorners(cfg, rank, f, g);
    }
  }
}
