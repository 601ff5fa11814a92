/** The loops of the generator, each proved to leave in its array what the mesh has there. */
module CubeFill {
  import opened CubeTables
  import opened CubeLayout
  import opened CubeMesh

  ghost predicate Fits(d: Dims, a: array<int>) {
    a.Length == 20 * NumCubes(d)
  }

  /** First slot of a cube, as the source computes it. */
  function CubeStart(d: Dims, x: int, y: int, z: int): (c: int)
    requires InBox(d, Cube(x, y, z))
    ensures c == 20 * Cell(d, Cube(x, y, z))
  {
    CellIsSourceIndex(d, Cube(x, y, z));
    ((z * d.ny + y) * d.nx + x) * 20
  }

  /** Two entries of one cube are set. */
  method SetPair(d: Dims, a: array<int>, ghost q: Cube, c: int, k1: int, k2: int, v: int)
    requires Fits(d, a) && InBox(d, q) && c == 20 * Cell(d, q) && 0 <= k1 < 20 && 0 <= k2 < 20
    modifies a
    ensures forall f: Entry | InBox(d, f.cube) ::
              a[SlotOf(d, f)] == if f.cube == q && 4 * f.tet + f.j in {k1, k2} then v else old(a[SlotOf(d, f)])
  {
    assert c + k1 == SlotOf(d, Entry(q, k1 / 4, k1 % 4));
    assert c + k2 == SlotOf(d, Entry(q, k2 / 4, k2 % 4));
    a[c + k1] := v;
    a[c + k2] := v;
  }

  // Cube q comes before position (u, v) of the two loops over the plane dir.
  ghost predicate Before(q: Cube, dir: Dir, u: int, v: int) {
    match dir
    case XMin => q.z < u || (q.z == u && q.y < v)
    case XMax => q.z < u || (q.z == u && q.y < v)
    case YMin => q.z < u || (q.z == u && q.x < v)
    case YMax => q.z < u || (q.z == u && q.x < v)
    case _ => q.y < u || (q.y == u && q.x < v)
  }

  // Cube q is where the loops are.
  ghost predicate At(q: Cube, dir: Dir, u: int, v: int) {
    match dir
    case XMin => q.z == u && q.y == v
    case XMax => q.z == u && q.y == v
    case YMin => q.z == u && q.x == v
    case YMax => q.z == u && q.x == v
    case _ => q.y == u && q.x == v
  }

  // The sides in plane dir that the loops have reached hold v, everything else is as before.
  twostate predicate FilledTo(d: Dims, a: array<int>, dir: Dir, u: int, w: int, v: int)
    requires Fits(d, a)
    reads a
  {
    forall f: Entry | InBox(d, f.cube) ::
      a[SlotOf(d, f)] == if OnBorder(d, f, dir) && Before(f.cube, dir, u, w) then v else old(a[SlotOf(d, f)])
  }

  twostate predicate FilledAt(d: Dims, a: array<int>, dir: Dir, u: int, w: int, v: int)
    requires Fits(d, a)
    reads a
  {
    forall f: Entry | InBox(d, f.cube) ::
      a[SlotOf(d, f)] == if OnBorder(d, f, dir) && At(f.cube, dir, u, w) then v else old(a[SlotOf(d, f)])
  }

  twostate predicate Filled(d: Dims, a: array<int>, dir: Dir, v: int)
    requires Fits(d, a)
    reads a
  {
    forall f: Entry | InBox(d, f.cube) ::
      a[SlotOf(d, f)] == if OnBorder(d, f, dir) then v else old(a[SlotOf(d, f)])
  }

  // The two sides of a cube in each plane.
  lemma PlanesX()
    ensures forall odd: Parity, t: Tet, j: Four ::
              StepOf(odd, t, j).dir == XMin <==> 4 * t + j in (if odd == 1 then {0, 10} else {2, 12})
    ensures forall odd: Parity, t: Tet, j: Four ::
              StepOf(odd, t, j).dir == XMax <==> 4 * t + j in (if odd == 1 then {7, 12} else {6, 9})
  {}

  lemma PlanesY()
    ensures forall odd: Parity, t: Tet, j: Four ::
              StepOf(odd, t, j).dir == YMin <==> 4 * t + j in (if odd == 1 then {6, 9} else {1, 10})
    ensures forall odd: Parity, t: Tet, j: Four ::
              StepOf(odd, t, j).dir == YMax <==> 4 * t + j in (if odd == 1 then {3, 14} else {7, 13})
  {}

  lemma PlanesZ()
    ensures forall odd: Parity, t: Tet, j: Four ::
              StepOf(odd, t, j).dir == ZMin <==> 4 * t + j in (if odd == 1 then {1, 5} else {0, 5})
    ensures forall odd: Parity, t: Tet, j: Four ::
              StepOf(odd, t, j).dir == ZMax <==> 4 * t + j in (if odd == 1 then {11, 15} else {11, 15})
  {}

  // The parity of a cube at a border: the last coordinate is odd.
  lemma BorderParity(d: Dims, u: int, w: int)
    requires Valid(d)
    ensures OddOf(Cube(0, w, u)) == (u + w) % 2 && OddOf(Cube(d.nx - 1, w, u)) == (u + w + 1) % 2
    ensures OddOf(Cube(w, 0, u)) == (u + w) % 2 && OddOf(Cube(w, d.ny - 1, u)) == (u + w + 1) % 2
    ensures OddOf(Cube(w, u, 0)) == (u + w) % 2
  {}

  method SetMinX(d: Dims, a: array<int>, zz: int, yy: int, v: int)
    requires Valid(d) && Fits(d, a) && 0 <= zz < d.nz && 0 <= yy < d.ny
    modifies a
    ensures FilledAt(d, a, XMin, zz, yy, v)
  {
    PlanesX();
    BorderParity(d, zz, yy);
    hide CubeStart, SlotOf, Cell, StepOf, OddOf;
    var c, odd := CubeStart(d, 0, yy, zz), (zz + yy) % 2;
    if odd != 0 {
      SetPair(d, a, Cube(0, yy, zz), c, 0, 10, v);
    } else {
      SetPair(d, a, Cube(0, yy, zz), c, 2, 12, v);
    }
  }

  /** Every side in the plane x = 0 is set to v, and no other entry is touched. */
  method FillMinX(d: Dims, a: array<int>, v: int)
    requires Valid(d) && Fits(d, a)
    modifies a
    ensures Filled(d, a, XMin, v)
  {
    hide OnBorder, SlotOf, NumCubes;
    for zz := 0 to d.nz
      invariant FilledTo(d, a, XMin, zz, 0, v)
    {
      for yy := 0 to d.ny
        invariant FilledTo(d, a, XMin, zz, yy, v)
      {
        SetMinX(d, a, zz, yy, v);
      }
    }
  }

  method SetMaxX(d: Dims, a: array<int>, zz: int, yy: int, v: int)
    requires Valid(d) && Fits(d, a) && 0 <= zz < d.nz && 0 <= yy < d.ny
    modifies a
    ensures FilledAt(d, a, XMax, zz, yy, v)
  {
    PlanesX();
    BorderParity(d, zz, yy);
    hide CubeStart, SlotOf, Cell, StepOf, OddOf;
    var c, odd := CubeStart(d, d.nx - 1, yy, zz), (zz + yy + 1) % 2;
    if odd != 0 {
      SetPair(d, a, Cube(d.nx - 1, yy, zz), c, 7, 12, v);
    } else {
      SetPair(d, a, Cube(d.nx - 1, yy, zz), c, 6, 9, v);
    }
  }

  method FillMaxX(d: Dims, a: array<int>, v: int)
    requires Valid(d) && Fits(d, a)
    modifies a
    ensures Filled(d, a, XMax, v)
  {
    hide OnBorder, SlotOf, NumCubes;
    for zz := 0 to d.nz
      invariant FilledTo(d, a, XMax, zz, 0, v)
    {
      for yy := 0 to d.ny
        invariant FilledTo(d, a, XMax, zz, yy, v)
      {
        SetMaxX(d, a, zz, yy, v);
      }
    }
  }

  method SetMinY(d: Dims, a: array<int>, zz: int, xx: int, v: int)
    requires Valid(d) && Fits(d, a) && 0 <= zz < d.nz && 0 <= xx < d.nx
    modifies a
    ensures FilledAt(d, a, YMin, zz, xx, v)
  {
    PlanesY();
    BorderParity(d, zz, xx);
    hide CubeStart, SlotOf, Cell, StepOf, OddOf;
    var c, odd := CubeStart(d, xx, 0, zz), (zz + xx) % 2;
    if odd != 0 {
      SetPair(d, a, Cube(xx, 0, zz), c, 6, 9, v);
    } else {
      SetPair(d, a, Cube(xx, 0, zz), c, 1, 10, v);
    }
  }

  method FillMinY(d: Dims, a: array<int>, v: int)
    requires Valid(d) && Fits(d, a)
    modifies a
    ensures Filled(d, a, YMin, v)
  {
    hide OnBorder, SlotOf, NumCubes;
    for zz := 0 to d.nz
      invariant FilledTo(d, a, YMin, zz, 0, v)
    {
      for xx := 0 to d.nx
        invariant FilledTo(d, a, YMin, zz, xx, v)
      {
        SetMinY(d, a, zz, xx, v);
      }
    }
  }

  method SetMaxY(d: Dims, a: array<int>, zz: int, xx: int, v: int)
    requires Valid(d) && Fits(d, a) && 0 <= zz < d.nz && 0 <= xx < d.nx
    modifies a
    ensures FilledAt(d, a, YMax, zz, xx, v)
  {
    PlanesY();
    BorderParity(d, zz, xx);
    hide CubeStart, SlotOf, Cell, StepOf, OddOf;
    var c, odd := CubeStart(d, xx, d.ny - 1, zz), (zz + xx + 1) % 2;
    if odd != 0 {
      SetPair(d, a, Cube(xx, d.ny - 1, zz), c, 3, 14, v);
    } else {
      SetPair(d, a, Cube(xx, d.ny - 1, zz), c, 7, 13, v);
    }
  }

  method FillMaxY(d: Dims, a: array<int>, v: int)
    requires Valid(d) && Fits(d, a)
    modifies a
    ensures Filled(d, a, YMax, v)
  {
    hide OnBorder, SlotOf, NumCubes;
    for zz := 0 to d.nz
      invariant FilledTo(d, a, YMax, zz, 0, v)
    {
      for xx := 0 to d.nx
        invariant FilledTo(d, a, YMax, zz, xx, v)
      {
        SetMaxY(d, a, zz, xx, v);
      }
    }
  }

  method SetMinZ(d: Dims, a: array<int>, yy: int, xx: int, v: int)
    requires Valid(d) && Fits(d, a) && 0 <= yy < d.ny && 0 <= xx < d.nx
    modifies a
    ensures FilledAt(d, a, ZMin, yy, xx, v)
  {
    PlanesZ();
    BorderParity(d, yy, xx);
    hide CubeStart, SlotOf, Cell, StepOf, OddOf;
    var c, odd := CubeStart(d, xx, yy, 0), (yy + xx) % 2;
    if odd != 0 {
      SetPair(d, a, Cube(xx, yy, 0), c, 1, 5, v);
    } else {
      SetPair(d, a, Cube(xx, yy, 0), c, 0, 5, v);
    }
  }

  method FillMinZ(d: Dims, a: array<int>, v: int)
    requires Valid(d) && Fits(d, a)
    modifies a
    ensures Filled(d, a, ZMin, v)
  {
    hide OnBorder, SlotOf, NumCubes;
    for yy := 0 to d.ny
      invariant FilledTo(d, a, ZMin, yy, 0, v)
    {
      for xx := 0 to d.nx
        invariant FilledTo(d, a, ZMin, yy, xx, v)
      {
        SetMinZ(d, a, yy, xx, v);
      }
    }
  }

  method SetMaxZ(d: Dims, a: array<int>, yy: int, xx: int, v: int)
    requires Valid(d) && Fits(d, a) && 0 <= yy < d.ny && 0 <= xx < d.nx
    modifies a
    ensures FilledAt(d, a, ZMax, yy, xx, v)
  {
    PlanesZ();
    BorderParity(d, yy, xx);
    hide CubeStart, SlotOf, Cell, StepOf, OddOf;
    SetPair(d, a, Cube(xx, yy, d.nz - 1), CubeStart(d, xx, yy, d.nz - 1), 11, 15, v);
  }

  method FillMaxZ(d: Dims, a: array<int>, v: int)
    requires Valid(d) && Fits(d, a)
    modifies a
    ensures Filled(d, a, ZMax, v)
  {
    hide OnBorder, SlotOf, NumCubes;
    for yy := 0 to d.ny
      invariant FilledTo(d, a, ZMax, yy, 0, v)
    {
      for xx := 0 to d.nx
        invariant FilledTo(d, a, ZMax, yy, xx, v)
      {
        SetMaxZ(d, a, yy, xx, v);
      }
    }
  }

  ghost predicate HoldsBoundaries(cfg: Config, rank: nat, a: array<int>)
    requires ValidConfig(cfg) && Fits(cfg.d, a)
    reads a
  {
    forall f: Entry | InBox(cfg.d, f.cube) :: a[SlotOf(cfg.d, f)] == Boundary(cfg, rank, f)
  }

  /** elemBoundaries: the tag of the border a side lies on, 0 elsewhere. */
  method ComputeBoundaries(cfg: Config, rank: nat, a: array<int>)
    requires ValidConfig(cfg) && rank < cfg.px && Fits(cfg.d, a)
    modifies a
    ensures HoldsBoundaries(cfg, rank, a)
  {
    hide SlotOf, StepOf, OddOf, AtBorder, NumCubes;
    forall i | 0 <= i < a.Length {
      a[i] := 0;
    }
    if rank == 0 {
      FillMinX(cfg.d, a, cfg.tags.minX);
    }
    if rank == cfg.px - 1 {
      FillMaxX(cfg.d, a, cfg.tags.maxX);
    }
    FillMinY(cfg.d, a, cfg.tags.minY);
    FillMaxY(cfg.d, a, cfg.tags.maxY);
    FillMinZ(cfg.d, a, cfg.tags.minZ);
    FillMaxZ(cfg.d, a, cfg.tags.maxZ);
  }

  // The tables that are copied cube by cube.
  datatype Table = Sides | Orientations | Offsets(row: int, layer: int) {
    function At(odd: Parity, t: Tet, j: Four): (r: int) {
      match this
      case Sides => TetSideNeighbor(odd, t, j)
      case Orientations => TetSideOrientation(odd, t, j)
      case Offsets(row, layer) => TetNeighbor(row, layer, odd, t, j)
    }
  }

  /** The rows of a table are copied into every cube, by its parity. */
  method CopyRows(d: Dims, a: array<int>, table: Table)
    requires Valid(d) && Fits(d, a)
    modifies a
    ensures forall f: Entry | InBox(d, f.cube) :: a[SlotOf(d, f)] == table.At(OddOf(f.cube), f.tet, f.j)
  {
    hide CubeStart, SlotOf, Cell;
    for zz := 0 to d.nz
      invariant forall f: Entry | InBox(d, f.cube) && f.cube.z < zz ::
                  a[SlotOf(d, f)] == table.At(OddOf(f.cube), f.tet, f.j)
    {
      for yy := 0 to d.ny
        invariant forall f: Entry | InBox(d, f.cube) && BeforeCube(f.cube, 0, yy, zz) ::
                    a[SlotOf(d, f)] == table.At(OddOf(f.cube), f.tet, f.j)
      {
        for xx := 0 to d.nx
          invariant forall f: Entry | InBox(d, f.cube) && BeforeCube(f.cube, xx, yy, zz) ::
                      a[SlotOf(d, f)] == table.At(OddOf(f.cube), f.tet, f.j)
        {
          SetRow(d, a, Cube(xx, yy, zz), CubeStart(d, xx, yy, zz), table, (zz + yy + xx) % 2, 0);
        }
      }
    }
  }

  // Cube q comes before (x, y, z) in the order of the arrays.
  ghost predicate BeforeCube(q: Cube, x: int, y: int, z: int) {
    q.z < z || (q.z == z && (q.y < y || (q.y == y && q.x < x)))
  }

  /** The twenty entries of one cube are set to a row of a table, each raised by offset. */
  method SetRow(d: Dims, a: array<int>, ghost q: Cube, c: int, table: Table, odd: Parity, offset: int)
    requires Fits(d, a) && InBox(d, q) && c == 20 * Cell(d, q)
    modifies a
    ensures forall f: Entry | InBox(d, f.cube) ::
              a[SlotOf(d, f)] == if f.cube == q then table.At(odd, f.tet, f.j) + offset else old(a[SlotOf(d, f)])
  {
    for i := 0 to 20
      invariant forall f: Entry | InBox(d, f.cube) ::
                  a[SlotOf(d, f)] == if f.cube == q && 4 * f.tet + f.j < i then table.At(odd, f.tet, f.j) + offset
                                     else old(a[SlotOf(d, f)])
    {
      assert c + i == SlotOf(d, Entry(q, i / 4, i % 4));
      a[c + i] := table.At(odd, i / 4, i % 4) + offset;
    }
  }

  // The sides in planes lo and hi that nothing lies behind hold 0, everything else is as before.
  twostate predicate ZeroedIn(cfg: Config, rank: nat, a: array<int>, lo: Dir, hi: Dir)
    requires Fits(cfg.d, a)
    reads a
  {
    forall f: Entry | InBox(cfg.d, f.cube) ::
      a[SlotOf(cfg.d, f)] ==
        if IsFree(cfg, rank, f) && (StepAt(f).dir == lo || StepAt(f).dir == hi) then 0 else old(a[SlotOf(cfg.d, f)])
  }

  method ZeroX(cfg: Config, rank: nat, a: array<int>)
    requires ValidConfig(cfg) && rank < cfg.px && Fits(cfg.d, a)
    modifies a
    ensures ZeroedIn(cfg, rank, a, XMin, XMax)
  {
    hide SlotOf, StepOf, OddOf, AtBorder, NumCubes;
    if cfg.tags.minX != PERIODIC && rank == 0 {
      FillMinX(cfg.d, a, 0);
    }
    if cfg.tags.maxX != PERIODIC && rank == cfg.px - 1 {
      FillMaxX(cfg.d, a, 0);
    }
  }

  method ZeroY(cfg: Config, rank: nat, a: array<int>)
    requires ValidConfig(cfg) && rank < cfg.px && Fits(cfg.d, a)
    modifies a
    ensures ZeroedIn(cfg, rank, a, YMin, YMax)
  {
    hide SlotOf, StepOf, OddOf, AtBorder, NumCubes;
    if cfg.tags.minY != PERIODIC {
      FillMinY(cfg.d, a, 0);
    }
    if cfg.tags.maxY != PERIODIC {
      FillMaxY(cfg.d, a, 0);
    }
  }

  method ZeroZ(cfg: Config, rank: nat, a: array<int>)
    requires ValidConfig(cfg) && rank < cfg.px && Fits(cfg.d, a)
    modifies a
    ensures ZeroedIn(cfg, rank, a, ZMin, ZMax)
  {
    hide SlotOf, StepOf, OddOf, AtBorder, NumCubes;
    if cfg.tags.minZ != PERIODIC {
      FillMinZ(cfg.d, a, 0);
    }
    if cfg.tags.maxZ != PERIODIC {
      FillMaxZ(cfg.d, a, 0);
    }
  }

  ghost predicate HoldsNeighborSides(cfg: Config, rank: nat, a: array<int>)
    requires ValidConfig(cfg) && Fits(cfg.d, a)
    reads a
  {
    forall f: Entry | InBox(cfg.d, f.cube) :: a[SlotOf(cfg.d, f)] == NeighborSide(cfg, rank, f)
  }

  /** elemNeighborSides: the table, and 0 on the borders of the box that are not periodic. */
  method ComputeNeighborSides(cfg: Config, rank: nat, a: array<int>)
    requires ValidConfig(cfg) && rank < cfg.px && Fits(cfg.d, a)
    modifies a
    ensures HoldsNeighborSides(cfg, rank, a)
  {
    NoInnerBorder(cfg.d);
    hide SlotOf, StepOf, OddOf, AtBorder, NumCubes, TetSideNeighbor;
    CopyRows(cfg.d, a, Sides);
    ZeroX(cfg, rank, a);
    ZeroY(cfg, rank, a);
    ZeroZ(cfg, rank, a);
  }

  ghost predicate HoldsSideOrientations(cfg: Config, rank: nat, a: array<int>)
    requires ValidConfig(cfg) && Fits(cfg.d, a)
    reads a
  {
    forall f: Entry | InBox(cfg.d, f.cube) :: a[SlotOf(cfg.d, f)] == SideOrientation(cfg, rank, f)
  }

  // Why the loops over the two y planes may be left out.
  lemma NoTurnInY(odd: Parity, t: Tet, s: Four)
    ensures StepOf(odd, t, s).dir == YMin || StepOf(odd, t, s).dir == YMax ==> TetSideOrientation(odd, t, s) == 0
  {}

  /** elemSideOrientations: the table, and 0 on the borders of the box that are not periodic. The
      loops over the y planes are missing, but the result is the same. */
  method ComputeSideOrientations(cfg: Config, rank: nat, a: array<int>)
    requires ValidConfig(cfg) && rank < cfg.px && Fits(cfg.d, a)
    modifies a
    ensures HoldsSideOrientations(cfg, rank, a)
  {
    NoInnerBorder(cfg.d);
    hide SlotOf, StepOf, OddOf, AtBorder, NumCubes, TetSideOrientation;
    CopyRows(cfg.d, a, Orientations);
    ZeroX(cfg, rank, a);
    ZeroZ(cfg, rank, a);
    forall f: Entry | InBox(cfg.d, f.cube)
      ensures a[SlotOf(cfg.d, f)] == SideOrientation(cfg, rank, f)
    {
      NoTurnInY(OddOf(f.cube), f.tet, f.j);
    }
  }

  ghost predicate HoldsNeighborRanks(cfg: Config, rank: nat, a: array<int>)
    requires ValidConfig(cfg) && Fits(cfg.d, a)
    reads a
  {
    forall f: Entry | InBox(cfg.d, f.cube) :: a[SlotOf(cfg.d, f)] == NeighborRank(cfg, rank, f)
  }

  /** elemNeighborRanks: the own rank, and the next one on the planes shared with it. With one
      partition along y and z, no other plane is shared. */
  method ComputeNeighborRanks(cfg: Config, rank: nat, a: array<int>)
    requires ValidConfig(cfg) && rank < cfg.px && Fits(cfg.d, a)
    modifies a
    ensures HoldsNeighborRanks(cfg, rank, a)
  {
    hide SlotOf, StepOf, OddOf, AtBorder, NumCubes;
    forall i | 0 <= i < a.Length {
      a[i] := rank;
    }
    if LinksRanks(cfg, rank, XMin) {
      FillMinX(cfg.d, a, RankBehind(cfg, rank, XMin));
    }
    if LinksRanks(cfg, rank, XMax) {
      FillMaxX(cfg.d, a, RankBehind(cfg, rank, XMax));
    }
  }

  /** One pair of neighbours on a border: counted around the box, or replaced by the number of
      elements. */
  method PatchPair(d: Dims, a: array<int>, ghost q: Cube, c: int, k1: int, k2: int, wraps: bool, delta: int, numElems: int)
    requires Fits(d, a) && InBox(d, q) && c == 20 * Cell(d, q) && 0 <= k1 < 20 && 0 <= k2 < 20 && k1 != k2
    modifies a
    ensures forall f: Entry | InBox(d, f.cube) ::
              a[SlotOf(d, f)] == if f.cube == q && 4 * f.tet + f.j in {k1, k2}
                                 then (if wraps then old(a[SlotOf(d, f)]) + delta else numElems)
                                 else old(a[SlotOf(d, f)])
  {
    assert c + k1 == SlotOf(d, Entry(q, k1 / 4, k1 % 4));
    assert c + k2 == SlotOf(d, Entry(q, k2 / 4, k2 % 4));
    if wraps {
      a[c + k1] := a[c + k1] + delta;
      a[c + k2] := a[c + k2] + delta;
    } else {
      a[c + k1] := numElems;
      a[c + k2] := numElems;
    }
  }

  // What the patch of plane dir makes of the neighbour v.
  ghost function Patched(cfg: Config, dir: Dir, delta: int, v: int): (r: int) {
    if Wraps(cfg, dir) then v + delta else NumElems(cfg.d)
  }

  // What the patches of the planes lo and hi make of the neighbour v of side f.
  ghost function PatchedAt(cfg: Config, f: Entry, lo: Dir, hi: Dir, delta: int, v: int): (r: int) {
    if OnBorder(cfg.d, f, lo) then Patched(cfg, lo, delta, v)
    else if OnBorder(cfg.d, f, hi) then Patched(cfg, hi, -delta, v)
    else v
  }

  // Only the neighbours of cube q behind its planes lo and hi have been patched.
  twostate predicate PatchedAxis(cfg: Config, a: array<int>, q: Cube, lo: Dir, hi: Dir, delta: int)
    requires Fits(cfg.d, a)
    reads a
  {
    forall f: Entry | InBox(cfg.d, f.cube) ::
      a[SlotOf(cfg.d, f)] ==
        if f.cube == q then PatchedAt(cfg, f, lo, hi, delta, old(a[SlotOf(cfg.d, f)])) else old(a[SlotOf(cfg.d, f)])
  }

  method PatchX(cfg: Config, a: array<int>, q: Cube, c: int, odd: int, numElems: int)
    requires ValidConfig(cfg) && Fits(cfg.d, a) && InBox(cfg.d, q) && c == 20 * Cell(cfg.d, q)
    requires odd == OddOf(q) && numElems == NumElems(cfg.d)
    modifies a
    ensures PatchedAxis(cfg, a, q, XMin, XMax, cfg.d.nx * 5)
  {
    PlanesX();
    hide SlotOf, Cell, NumCubes, StepOf, OddOf;
    var wraps := if q.x == 0 then Wraps(cfg, XMin) else Wraps(cfg, XMax);
    if q.x == 0 {
      if odd != 0 {
        PatchPair(cfg.d, a, q, c, 0, 10, wraps, cfg.d.nx * 5, numElems);
      } else {
        PatchPair(cfg.d, a, q, c, 2, 12, wraps, cfg.d.nx * 5, numElems);
      }
    } else if q.x == cfg.d.nx - 1 {
      if odd != 0 {
        PatchPair(cfg.d, a, q, c, 7, 12, wraps, -(cfg.d.nx * 5), numElems);
      } else {
        PatchPair(cfg.d, a, q, c, 6, 9, wraps, -(cfg.d.nx * 5), numElems);
      }
    }
  }

  method PatchY(cfg: Config, a: array<int>, q: Cube, c: int, odd: int, layer: int, numElems: int)
    requires ValidConfig(cfg) && Fits(cfg.d, a) && InBox(cfg.d, q) && c == 20 * Cell(cfg.d, q)
    requires odd == OddOf(q) && numElems == NumElems(cfg.d)
    modifies a
    ensures PatchedAxis(cfg, a, q, YMin, YMax, layer * 5)
  {
    PlanesY();
    hide SlotOf, Cell, NumCubes, StepOf, OddOf;
    var wraps := if q.y == 0 then Wraps(cfg, YMin) else Wraps(cfg, YMax);
    if q.y == 0 {
      if odd != 0 {
        PatchPair(cfg.d, a, q, c, 6, 9, wraps, layer * 5, numElems);
      } else {
        PatchPair(cfg.d, a, q, c, 1, 10, wraps, layer * 5, numElems);
      }
    } else if q.y == cfg.d.ny - 1 {
      if odd != 0 {
        PatchPair(cfg.d, a, q, c, 3, 14, wraps, -(layer * 5), numElems);
      } else {
        PatchPair(cfg.d, a, q, c, 7, 13, wraps, -(layer * 5), numElems);
      }
    }
  }

  method PatchZ(cfg: Config, a: array<int>, q: Cube, c: int, odd: int, numElems: int)
    requires ValidConfig(cfg) && Fits(cfg.d, a) && InBox(cfg.d, q) && c == 20 * Cell(cfg.d, q)
    requires odd == OddOf(q) && numElems == NumElems(cfg.d)
    modifies a
    ensures PatchedAxis(cfg, a, q, ZMin, ZMax, numElems)
  {
    PlanesZ();
    hide SlotOf, Cell, NumCubes, StepOf, OddOf;
    var wraps := if q.z == 0 then Wraps(cfg, ZMin) else Wraps(cfg, ZMax);
    if q.z == 0 {
      if odd != 0 {
        PatchPair(cfg.d, a, q, c, 1, 5, wraps, numElems, numElems);
      } else {
        PatchPair(cfg.d, a, q, c, 0, 5, wraps, numElems, numElems);
      }
    } else if q.z == cfg.d.nz - 1 {
      PatchPair(cfg.d, a, q, c, 11, 15, wraps, -numElems, numElems);
    }
  }

  // Distance between the cubes on the two sides of plane dir, inside the box.
  ghost function Distance(d: Dims, dir: Dir): (r: int) {
    match dir
    case XMin => -1
    case XMax => 1
    case YMin => 0 - d.nx
    case YMax => d.nx
    case ZMin => 0 - Layer(d)
    case ZMax => Layer(d)
    case Inner => 0
  }

  // Extra distance around the box.
  ghost function Around(d: Dims, dir: Dir): (r: int) {
    match dir
    case XMin => d.nx
    case XMax => 0 - d.nx
    case YMin => Layer(d)
    case YMax => 0 - Layer(d)
    case ZMin => NumCubes(d)
    case ZMax => 0 - NumCubes(d)
    case Inner => 0
  }

  lemma CellBehind(d: Dims, q: Cube, dir: Dir)
    requires Valid(d) && InBox(d, q)
    ensures InBox(d, CubeBehind(d, q, dir))
    ensures Cell(d, CubeBehind(d, q, dir))
            == Cell(d, q) + Distance(d, dir) + (if AtBorder(d, q, dir) then Around(d, dir) else 0)
  {}

  /** The offset table is the geometric step. */
  lemma OffsetIsStep(d: Dims, odd: Parity, t: Tet, j: Four)
    ensures var st := StepOf(odd, t, j);
            TetNeighbor(d.nx, Layer(d), odd, t, j) == 5 * Distance(d, st.dir) + st.tet
  {
    hide Layer;
  }

  // The neighbour before any patch.
  ghost function RawNeighbor(d: Dims, f: Entry): (r: int)
    requires InBox(d, f.cube)
  {
    TetNeighbor(d.nx, Layer(d), OddOf(f.cube), f.tet, f.j) + 5 * Cell(d, f.cube)
  }

  lemma PatchedIsNeighbor(cfg: Config, f: Entry)
    requires ValidConfig(cfg) && InBox(cfg.d, f.cube)
    ensures var dir := StepAt(f).dir;
            Neighbor(cfg, f) == if AtBorder(cfg.d, f.cube, dir)
                                then Patched(cfg, dir, 5 * Around(cfg.d, dir), RawNeighbor(cfg.d, f))
                                else RawNeighbor(cfg.d, f)
  {
    hide Cell, NumCubes, Layer, StepOf, TetNeighbor, OddOf, AtBorder, CubeBehind, Wraps;
    CellBehind(cfg.d, f.cube, StepAt(f).dir);
    OffsetIsStep(cfg.d, OddOf(f.cube), f.tet, f.j);
  }

  method SetNeighborsOfCube(cfg: Config, a: array<int>, q: Cube, layer: int, numElems: int)
    requires ValidConfig(cfg) && Fits(cfg.d, a) && InBox(cfg.d, q)
    requires layer == Layer(cfg.d) && numElems == NumElems(cfg.d)
    modifies a
    ensures forall f: Entry | InBox(cfg.d, f.cube) ::
              a[SlotOf(cfg.d, f)] == if f.cube == q then Neighbor(cfg, f) else old(a[SlotOf(cfg.d, f)])
  {
    hide SlotOf, Cell, NumCubes, StepOf, CubeStart, PatchedAt, RawNeighbor, Neighbor, TetNeighbor, Layer;
    var c, odd := CubeStart(cfg.d, q.x, q.y, q.z), (q.z + q.y + q.x) % 2;
    SetRow(cfg.d, a, q, c, Offsets(cfg.d.nx, layer), odd, c / 4);
    RawNeighborIs(cfg.d, q);
    PatchX(cfg, a, q, c, odd, numElems);
    PatchY(cfg, a, q, c, odd, layer, numElems);
    PatchZ(cfg, a, q, c, odd, numElems);
    forall f: Entry | InBox(cfg.d, f.cube) && f.cube == q
      ensures a[SlotOf(cfg.d, f)] == Neighbor(cfg, f)
    {
      PatchesGiveNeighbor(cfg, f);
    }
  }

  lemma RawNeighborIs(d: Dims, q: Cube)
    requires InBox(d, q)
    ensures forall t: Tet, j: Four ::
              RawNeighbor(d, Entry(q, t, j)) == TetNeighbor(d.nx, Layer(d), OddOf(q), t, j) + 20 * Cell(d, q) / 4
  {
    hide TetNeighbor, Cell, Layer, OddOf;
  }

  // At most one of the three patches applies to a side.
  lemma PatchesGiveNeighbor(cfg: Config, f: Entry)
    requires ValidConfig(cfg) && InBox(cfg.d, f.cube)
    ensures Neighbor(cfg, f)
         == PatchedAt(cfg, f, ZMin, ZMax, NumElems(cfg.d),
              PatchedAt(cfg, f, YMin, YMax, Layer(cfg.d) * 5,
                PatchedAt(cfg, f, XMin, XMax, cfg.d.nx * 5, RawNeighbor(cfg.d, f))))
  {
    hide StepOf, Layer, NumCubes, RawNeighbor, AtBorder, Neighbor, Patched;
    NoInnerBorder(cfg.d);
    PatchedIsNeighbor(cfg, f);
  }

  ghost predicate HoldsNeighbors(cfg: Config, a: array<int>)
    requires ValidConfig(cfg) && Fits(cfg.d, a)
    reads a
  {
    forall f: Entry | InBox(cfg.d, f.cube) :: a[SlotOf(cfg.d, f)] == Neighbor(cfg, f)
  }

  // As HoldsNeighbors, for the cubes before (x, y, z).
  ghost predicate HoldsNeighborsTo(cfg: Config, a: array<int>, x: int, y: int, z: int)
    requires ValidConfig(cfg) && Fits(cfg.d, a)
    reads a
  {
    forall f: Entry | InBox(cfg.d, f.cube) && BeforeCube(f.cube, x, y, z) :: a[SlotOf(cfg.d, f)] == Neighbor(cfg, f)
  }

  /** elemNeighbors. */
  method ComputeNeighbors(cfg: Config, a: array<int>)
    requires ValidConfig(cfg) && Fits(cfg.d, a)
    modifies a
    ensures HoldsNeighbors(cfg, a)
  {
    CubeCountIsSourceCount(cfg.d);
    var layer := cfg.d.ny * cfg.d.nx;
    var numElems := cfg.d.nz * layer * 5;
    hide SlotOf, NumCubes, Layer, Neighbor;
    for zz := 0 to cfg.d.nz
      invariant HoldsNeighborsTo(cfg, a, 0, 0, zz)
    {
      for yy := 0 to cfg.d.ny
        invariant HoldsNeighborsTo(cfg, a, 0, yy, zz)
      {
        for xx := 0 to cfg.d.nx
          invariant HoldsNeighborsTo(cfg, a, xx, yy, zz)
        {
          SetNeighborsOfCube(cfg, a, Cube(xx, yy, zz), layer, numElems);
        }
      }
    }
  }
}
