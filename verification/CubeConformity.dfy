/** The mesh is conforming: neighbouring sides find each other and have the same corners. */
module CubeConformity {
  import opened CubeTables
  import opened CubeLayout
  import opened CubeMesh

  // The side of the neighbour that touches side f.
  ghost function MateOf(cfg: Config, f: Entry): (r: Entry) {
    Entry(CubeBehind(cfg.d, f.cube, StepAt(f).dir), StepAt(f).tet, TetSideNeighbor(OddOf(f.cube), f.tet, f.j))
  }

  // What the arrays say of side f: the neighbour is the element of g, and touches f with side g.j.
  ghost predicate Stored(cfg: Config, rank: nat, f: Entry, g: Entry)
    requires ValidConfig(cfg) && InBox(cfg.d, f.cube) && InBox(cfg.d, g.cube)
  {
    Neighbor(cfg, f) == ElemOf(cfg.d, g.cube, g.tet) && NeighborSide(cfg, rank, f) == g.j
  }

  /** Stepping through a plane and back returns to the same cube, also around the box. */
  lemma StepBack(d: Dims, q: Cube, dir: Dir)
    requires Valid(d) && InBox(d, q)
    ensures InBox(d, CubeBehind(d, q, dir))
    ensures CubeBehind(d, CubeBehind(d, q, dir), Opposite(dir)) == q
    ensures AtBorder(d, q, dir) == AtBorder(d, CubeBehind(d, q, dir), Opposite(dir))
  {}

  /** Every step changes the parity, also around the box: the number of cubes is even. */
  lemma StepParity(d: Dims, q: Cube, dir: Dir)
    requires Valid(d) && InBox(d, q)
    ensures OddOf(CubeBehind(d, q, dir)) == Behind(OddOf(q), dir)
  {
    var r := CubeBehind(d, q, dir);
    var n := match dir
      case XMin => d.nx
      case XMax => d.nx
      case YMin => d.ny
      case YMax => d.ny
      case _ => d.nz;
    if dir != Inner {
      SumParity(n, q.z + q.y + q.x, r.z + r.y + r.x);
    }
  }

  lemma SumParity(n: int, s: int, s1: int)
    requires n % 2 == 0
    requires s1 == s - 1 || s1 == s + 1 || s1 == s + n - 1 || s1 == s - n + 1
    ensures s1 % 2 == 1 - s % 2
  {}

  /** The stored neighbour is the mate, and no other side is stored. */
  lemma StoredIsMate(cfg: Config, rank: nat, f: Entry, g: Entry)
    requires ValidConfig(cfg) && rank < cfg.px && InBox(cfg.d, f.cube) && InBox(cfg.d, g.cube)
    requires Stored(cfg, rank, f, g)
    ensures g == MateOf(cfg, f) && !IsFree(cfg, rank, f)
  {
    var st := StepAt(f);
    StepBack(cfg.d, f.cube, st.dir);
    ElemOfInjective(cfg.d, g.cube, g.tet, CubeBehind(cfg.d, f.cube, st.dir), st.tet);
  }

  /** A side has a neighbour in the arrays exactly if its mate is stored there. */
  lemma NeighborIsStored(cfg: Config, rank: nat, f: Entry)
    requires ValidConfig(cfg) && rank < cfg.px && InBox(cfg.d, f.cube)
    ensures InBox(cfg.d, MateOf(cfg, f).cube)
    ensures Neighbor(cfg, f) < NumElems(cfg.d) <==> Stored(cfg, rank, f, MateOf(cfg, f))
  {
    StepBack(cfg.d, f.cube, StepAt(f).dir);
    hide StepOf, OddOf, TetSideNeighbor, CubeBehind, NumCubes, AtBorder;
  }

  // How far a point moves when plane dir is crossed around the box.
  function AroundBox(d: Dims, dir: Dir): (u: Point) {
    match dir
    case XMin => Point(0 - d.nx, 0, 0)
    case XMax => Point(d.nx, 0, 0)
    case YMin => Point(0, 0 - d.ny, 0)
    case YMax => Point(0, d.ny, 0)
    case ZMin => Point(0, 0, 0 - d.nz)
    case ZMax => Point(0, 0, d.nz)
    case Inner => Point(0, 0, 0)
  }

  // p, on a side of cube q in plane dir, and r, on the side behind it, are the same point: the very same
  // inside the box, and the size of the box apart in this direction where the plane is a border.
  ghost predicate MeetAcross(d: Dims, q: Cube, dir: Dir, p: Point, r: Point) {
    if AtBorder(d, q, dir) then Moved(p, r, AroundBox(d, dir)) else p == r
  }

  /** Corner k of a side is corner (h - k) mod 3 of the stored side of the stored neighbour, where
      h is the stored orientation: the very same lattice point inside the box, and exactly the size
      of the box further in the direction of the plane where the box is glued to itself. */
  lemma SidesConform(cfg: Config, rank: nat, f: Entry, g: Entry, k: Three)
    requires ValidConfig(cfg) && rank < cfg.px && InBox(cfg.d, f.cube) && InBox(cfg.d, g.cube)
    requires Stored(cfg, rank, f, g)
    ensures MeetAcross(cfg.d, f.cube, StepAt(f).dir, FacePoint(f, k), FacePoint(g, Turned(SideOrientation(cfg, rank, f), k)))
  {
    StoredIsMate(cfg, rank, f, g);
    MatesConform(cfg, f, k);
    hide *;
  }

  lemma MatesConform(cfg: Config, f: Entry, k: Three)
    requires ValidConfig(cfg) && InBox(cfg.d, f.cube)
    ensures var h := TetSideOrientation(OddOf(f.cube), f.tet, f.j);
            MeetAcross(cfg.d, f.cube, StepAt(f).dir, FacePoint(f, k), FacePoint(MateOf(cfg, f), Turned(h, k)))
  {
    var dir, g := StepAt(f).dir, MateOf(cfg, f);
    StepParity(cfg.d, f.cube, dir);
    StepLength(cfg.d, f.cube, dir);
    TableCornersMeet(OddOf(f.cube), f.tet, f.j, k);
    hide CubeBehind, TetVertex, FaceCorner, TetSideNeighbor, TetSideOrientation, StepOf, OddOf, Behind, Turned, Unit, AtBorder;
    hide AroundBox;
  }

  // A step moves by one unit, or, around the box, by one unit less the size of the box.
  lemma StepLength(d: Dims, q: Cube, dir: Dir)
    requires InBox(d, q)
    ensures var r, u, n := CubeBehind(d, q, dir), Unit(dir), AroundBox(d, dir);
            && r.x == q.x + u.x - (if AtBorder(d, q, dir) then n.x else 0)
            && r.y == q.y + u.y - (if AtBorder(d, q, dir) then n.y else 0)
            && r.z == q.z + u.z - (if AtBorder(d, q, dir) then n.z else 0)
  {}

  /** Crossing a side and crossing back returns to the start, unless the neighbour is on a border
      that is not glued although the opposite one is. */
  lemma StoredBack(cfg: Config, rank: nat, f: Entry, g: Entry)
    requires ValidConfig(cfg) && rank < cfg.px && InBox(cfg.d, f.cube) && InBox(cfg.d, g.cube)
    requires Stored(cfg, rank, f, g)
    ensures StepAt(g).dir == Opposite(StepAt(f).dir)
    ensures AtBorder(cfg.d, g.cube, StepAt(g).dir) == AtBorder(cfg.d, f.cube, StepAt(f).dir)
    ensures AtBorder(cfg.d, g.cube, StepAt(g).dir) && !Wraps(cfg, StepAt(g).dir) ==> Neighbor(cfg, g) == NumElems(cfg.d)
    ensures AtBorder(cfg.d, g.cube, StepAt(g).dir) ==> Wraps(cfg, StepAt(f).dir)
    ensures !AtBorder(cfg.d, g.cube, StepAt(g).dir) || Wraps(cfg, StepAt(g).dir) ==>
              Stored(cfg, rank, g, f) && SideOrientation(cfg, rank, g) == SideOrientation(cfg, rank, f)
  {
    StoredIsMate(cfg, rank, f, g);
    StepBack(cfg.d, f.cube, StepAt(f).dir);
    StepParity(cfg.d, f.cube, StepAt(f).dir);
    TablesLeadBack(OddOf(f.cube), f.tet, f.j);
    hide TetSideNeighbor, TetSideOrientation, StepOf, OddOf, Behind, ElemOf, NumElems, CubeBehind;
  }

  ghost predicate Involution(cfg: Config, rank: nat)
    requires ValidConfig(cfg)
  {
    forall f: Entry, g: Entry | InBox(cfg.d, f.cube) && InBox(cfg.d, g.cube) && Stored(cfg, rank, f, g) ::
      Stored(cfg, rank, g, f) && SideOrientation(cfg, rank, g) == SideOrientation(cfg, rank, f)
  }

  predicate PairedTags(cfg: Config) {
    && (Wraps(cfg, XMin) <==> Wraps(cfg, XMax))
    && (Wraps(cfg, YMin) <==> Wraps(cfg, YMax))
    && (Wraps(cfg, ZMin) <==> Wraps(cfg, ZMax))
  }

  // A side on the border plane dir.
  ghost function BorderSide(d: Dims, dir: Dir): (r: Entry)
    requires dir != Inner
  {
    match dir
    case XMin => Entry(Cube(0, 0, 0), 0, 2)
    case XMax => Entry(Cube(d.nx - 1, 0, 0), 1, 3)
    case YMin => Entry(Cube(0, 0, 0), 0, 1)
    case YMax => Entry(Cube(0, d.ny - 1, 0), 0, 3)
    case ZMin => Entry(Cube(0, 0, 0), 0, 0)
    case ZMax => Entry(Cube(0, 0, d.nz - 1), 2, 3)
  }

  lemma BorderSideOnBorder(d: Dims, dir: Dir)
    requires Valid(d) && dir != Inner
    ensures InBox(d, BorderSide(d, dir).cube) && OnBorder(d, BorderSide(d, dir), dir)
  {}

  /** A border that is glued while the opposite one is not breaks the way back: the mate of its first
      side is stored, and does not name that side in turn. */
  lemma UnpairedBreaks(cfg: Config, rank: nat, dir: Dir)
    requires ValidConfig(cfg) && rank < cfg.px && dir != Inner
    requires Wraps(cfg, dir) && !Wraps(cfg, Opposite(dir))
    ensures var f := BorderSide(cfg.d, dir);
            && InBox(cfg.d, f.cube) && InBox(cfg.d, MateOf(cfg, f).cube)
            && Stored(cfg, rank, f, MateOf(cfg, f)) && !Stored(cfg, rank, MateOf(cfg, f), f)
  {
    var f := BorderSide(cfg.d, dir);
    BorderSideOnBorder(cfg.d, dir);
    StepBack(cfg.d, f.cube, dir);
    var g := MateOf(cfg, f);
    hide StepOf, BorderSide, TetSideNeighbor, CubeBehind, ElemOf;
    assert Stored(cfg, rank, f, g);
    StoredBack(cfg, rank, f, g);
  }

  /** Following neighbour and side twice returns to the same side, everywhere, exactly when the
      glued borders come in pairs. */
  lemma InvolutionIffPaired(cfg: Config, rank: nat)
    requires ValidConfig(cfg) && rank < cfg.px
    ensures Involution(cfg, rank) <==> PairedTags(cfg)
  {
    if PairedTags(cfg) {
      forall f: Entry, g: Entry | InBox(cfg.d, f.cube) && InBox(cfg.d, g.cube) && Stored(cfg, rank, f, g)
        ensures Stored(cfg, rank, g, f) && SideOrientation(cfg, rank, g) == SideOrientation(cfg, rank, f)
      {
        StoredBack(cfg, rank, f, g);
        hide *;
      }
    } else {
      var dir :| dir != Inner && Wraps(cfg, dir) && !Wraps(cfg, Opposite(dir));
      UnpairedBreaks(cfg, rank, dir);
    }
  }
}
