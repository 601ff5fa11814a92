/** The lists two ranks use to exchange the sides between them. */
module CubeExchange {
  import opened CubeTables
  import opened CubeLayout
  import opened CubeMesh
  import opened CubeConformity
  import F = CubeFill
  import B = CubeBorder

  // The tetrahedron that comes first in the two entries of a cube.
  function FirstTet(dir: Dir): (r: Tet) {
    if dir == XMin then 0 else 1
  }

  /** Place of a side in the list of its border plane: row by row, two sides a cube. */
  ghost function IndexOf(d: Dims, f: Entry): (r: nat)
    requires InBox(d, f.cube)
  {
    2 * (Times(f.cube.z, d.ny) + f.cube.y) + (if f.tet == FirstTet(StepAt(f).dir) then 0 else 1)
  }

  // Sides on one plane x = 0 or x = nx.
  ghost function ListSize(d: Dims): (r: nat) {
    2 * Times(d.nz, d.ny)
  }

  lemma ListSizeIsProduct(d: Dims)
    ensures ListSize(d) == 2 * d.ny * d.nz
  {
    TimesIsProduct(d.nz, d.ny);
  }

  // The sides of plane dir that come before row y of layer z are in both arrays.
  ghost predicate ListedTo(d: Dims, dir: Dir, mpi: array<int>, bnd: array<int>, y: int, z: int)
    requires F.Fits(d, mpi) && y >= 0 && z >= 0
    reads mpi, bnd
  {
    forall f: Entry | InBox(d, f.cube) && OnBorder(d, f, dir) && F.Before(f.cube, dir, z, y) ::
      && mpi[SlotOf(d, f)] == IndexOf(d, f) < bnd.Length
      && IndexOf(d, f) < 2 * RowsBefore(d, y, z)
      && bnd[IndexOf(d, f)] == ElemOf(d, f.cube, f.tet)
  }

  /** Every side of plane dir knows its place, and its place holds its element. */
  ghost predicate Listed(d: Dims, dir: Dir, mpi: array<int>, bnd: array<int>)
    requires F.Fits(d, mpi)
    reads mpi, bnd
  {
    forall f: Entry | InBox(d, f.cube) && OnBorder(d, f, dir) ::
      && mpi[SlotOf(d, f)] == IndexOf(d, f) < bnd.Length
      && bnd[IndexOf(d, f)] == ElemOf(d, f.cube, f.tet)
  }

  twostate predicate OthersUnchanged(d: Dims, dir: Dir, mpi: array<int>)
    requires F.Fits(d, mpi)
    reads mpi
  {
    forall f: Entry | InBox(d, f.cube) && !OnBorder(d, f, dir) :: mpi[SlotOf(d, f)] == old(mpi[SlotOf(d, f)])
  }

  // Rows before row y of layer z.
  ghost function RowsBefore(d: Dims, y: nat, z: nat): (r: nat) {
    Times(z, d.ny) + y
  }

  lemma RowsBelow(d: Dims, y: nat, z: nat)
    requires y < d.ny && z < d.nz
    ensures 2 * RowsBefore(d, y, z) + 2 <= ListSize(d)
  {
    TimesBelow(z, d.nz, d.ny);
  }

  /** Two sides of one cube are listed one after the other. */
  method ListPair(d: Dims, mpi: array<int>, bnd: array<int>, ghost q: Cube, c: int, k1: int, k2: int, next: nat)
    requires F.Fits(d, mpi) && InBox(d, q) && c == 20 * Cell(d, q) && 0 <= k1 < 20 && 0 <= k2 < 20 && k1 != k2
    requires next + 2 <= bnd.Length && mpi != bnd
    modifies mpi, bnd
    ensures forall f: Entry | InBox(d, f.cube) ::
              mpi[SlotOf(d, f)] == if f.cube == q && 4 * f.tet + f.j == k1 then next
                                   else if f.cube == q && 4 * f.tet + f.j == k2 then next + 1
                                   else old(mpi[SlotOf(d, f)])
    ensures forall i | 0 <= i < bnd.Length ::
              bnd[i] == if i == next then c / 4 + k1 / 4 else if i == next + 1 then c / 4 + k2 / 4 else old(bnd[i])
  {
    assert c + k1 == SlotOf(d, Entry(q, k1 / 4, k1 % 4));
    assert c + k2 == SlotOf(d, Entry(q, k2 / 4, k2 % 4));
    bnd[next] := c / 4 + k1 / 4;
    mpi[c + k1] := next;
    bnd[next + 1] := c / 4 + k2 / 4;
    mpi[c + k2] := next + 1;
  }

  // The entry of a cube in plane dir: the first or the second one.
  ghost function ListSide(odd: Parity, dir: Dir, first: bool): (r: (Tet, Four)) {
    if dir == XMin then
      if odd != 0 then (if first then (0, 0) else (2, 2)) else (if first then (0, 2) else (3, 0))
    else
      if odd != 0 then (if first then (1, 3) else (3, 0)) else (if first then (1, 2) else (2, 1))
  }

  lemma ListSides(odd: Parity, dir: Dir, t: Tet, s: Four)
    requires dir == XMin || dir == XMax
    ensures StepOf(odd, t, s).dir == dir ==> (t, s) == ListSide(odd, dir, t == FirstTet(dir))
  {}

  lemma ListSideLies(odd: Parity, dir: Dir, first: bool)
    requires dir == XMin || dir == XMax
    ensures var (t, s) := ListSide(odd, dir, first);
            StepOf(odd, t, s).dir == dir && (t == FirstTet(dir) <==> first)
  {}

  // Slot of an entry within its cube.
  ghost function SlotInCube(e: (Tet, Four)): (r: int) {
    4 * e.0 + e.1
  }

  // Where the sides of a cube in plane dir are in the cube, and in the list.
  lemma PlaceInCube(d: Dims, dir: Dir, f: Entry)
    requires (dir == XMin || dir == XMax) && InBox(d, f.cube) && OnBorder(d, f, dir)
    ensures 4 * f.tet + f.j == SlotInCube(ListSide(OddOf(f.cube), dir, f.tet == FirstTet(dir)))
    ensures IndexOf(d, f) == 2 * RowsBefore(d, f.cube.y, f.cube.z) + if f.tet == FirstTet(dir) then 0 else 1
  {
    hide StepOf, OddOf, ListSide, Times;
    ListSides(OddOf(f.cube), dir, f.tet, f.j);
  }

  lemma PlacesInCubeDiffer(odd: Parity, dir: Dir)
    requires dir == XMin || dir == XMax
    ensures SlotInCube(ListSide(odd, dir, true)) != SlotInCube(ListSide(odd, dir, false))
    ensures 0 <= SlotInCube(ListSide(odd, dir, true)) < 20 && 0 <= SlotInCube(ListSide(odd, dir, false)) < 20
  {}

  lemma ElsewhereInCube(d: Dims, dir: Dir, q: Cube, f: Entry)
    requires (dir == XMin || dir == XMax) && AtBorder(d, q, dir) && !OnBorder(d, f, dir)
    ensures f.cube == q ==> 4 * f.tet + f.j != SlotInCube(ListSide(OddOf(q), dir, true))
    ensures f.cube == q ==> 4 * f.tet + f.j != SlotInCube(ListSide(OddOf(q), dir, false))
  {
    hide StepOf, OddOf, ListSide;
    ListSideLies(OddOf(q), dir, true);
    ListSideLies(OddOf(q), dir, false);
  }

  lemma NextRow(d: Dims, y: nat, z: nat)
    ensures RowsBefore(d, y + 1, z) == RowsBefore(d, y, z) + 1
  {}

  // One cube of the plane is new.
  lemma BeforeNextCube(d: Dims, dir: Dir, q: Cube, f: Entry)
    requires (dir == XMin || dir == XMax) && AtBorder(d, q, dir) && OnBorder(d, f, dir)
    requires F.Before(f.cube, dir, q.z, q.y + 1)
    ensures f.cube == q || F.Before(f.cube, dir, q.z, q.y)
  {
    hide StepOf;
  }

  /** The two sides of a cube in plane dir are listed next. */
  method ListCube(d: Dims, ghost dir: Dir, mpi: array<int>, bnd: array<int>, ghost q: Cube, c: int, k1: int, k2: int,
                  next: nat)
    requires Valid(d) && F.Fits(d, mpi) && InBox(d, q) && c == 20 * Cell(d, q) && next + 2 <= bnd.Length && mpi != bnd
    requires (dir == XMin || dir == XMax) && AtBorder(d, q, dir)
    requires k1 == SlotInCube(ListSide(OddOf(q), dir, true)) && k2 == SlotInCube(ListSide(OddOf(q), dir, false))
    requires next == 2 * RowsBefore(d, q.y, q.z) && ListedTo(d, dir, mpi, bnd, q.y, q.z)
    modifies mpi, bnd
    ensures ListedTo(d, dir, mpi, bnd, q.y + 1, q.z) && OthersUnchanged(d, dir, mpi)
  {
    hide SlotOf, Cell, NumCubes, OddOf, ListSide, SlotInCube, IndexOf, F.Before, RowsBefore;
    PlacesInCubeDiffer(OddOf(q), dir);
    ListSideLies(OddOf(q), dir, true);
    ListSideLies(OddOf(q), dir, false);
    ListPair(d, mpi, bnd, q, c, k1, k2, next);
    NextRow(d, q.y, q.z);
    forall f: Entry | InBox(d, f.cube) && OnBorder(d, f, dir) && F.Before(f.cube, dir, q.z, q.y + 1)
      ensures mpi[SlotOf(d, f)] == IndexOf(d, f) < bnd.Length
      ensures IndexOf(d, f) < 2 * RowsBefore(d, q.y + 1, q.z)
      ensures bnd[IndexOf(d, f)] == ElemOf(d, f.cube, f.tet)
    {
      PlaceInCube(d, dir, f);
      BeforeNextCube(d, dir, q, f);
    }
    forall f: Entry | InBox(d, f.cube) && !OnBorder(d, f, dir)
      ensures mpi[SlotOf(d, f)] == old(mpi[SlotOf(d, f)])
    {
      ElsewhereInCube(d, dir, q, f);
    }
  }

  method ListMinX(d: Dims, mpi: array<int>, bnd: array<int>, yy: nat, zz: nat, next: nat)
    requires Valid(d) && F.Fits(d, mpi) && next + 2 <= bnd.Length && mpi != bnd && yy < d.ny && zz < d.nz
    requires next == 2 * RowsBefore(d, yy, zz) && ListedTo(d, XMin, mpi, bnd, yy, zz)
    modifies mpi, bnd
    ensures ListedTo(d, XMin, mpi, bnd, yy + 1, zz) && OthersUnchanged(d, XMin, mpi)
  {
    hide SlotOf, Cell, NumCubes, IndexOf, ListedTo;
    ghost var q := Cube(0, yy, zz);
    var c := F.CubeStart(d, 0, yy, zz);
    if (zz + yy) % 2 != 0 {
      ListCube(d, XMin, mpi, bnd, q, c, 0, 10, next);
    } else {
      ListCube(d, XMin, mpi, bnd, q, c, 2, 12, next);
    }
  }

  /** The list of the plane x = 0. */
  method BuildMinXList(d: Dims, mpi: array<int>, bnd: array<int>) returns (next: nat)
    requires Valid(d) && F.Fits(d, mpi) && bnd.Length >= ListSize(d) && mpi != bnd
    modifies mpi, bnd
    ensures next == ListSize(d)
    ensures Listed(d, XMin, mpi, bnd) && OthersUnchanged(d, XMin, mpi)
  {
    hide SlotOf, Cell, NumCubes, IndexOf;
    next := 0;
    for zz := 0 to d.nz
      invariant next == 2 * RowsBefore(d, 0, zz)
      invariant ListedTo(d, XMin, mpi, bnd, 0, zz) && OthersUnchanged(d, XMin, mpi)
    {
      for yy := 0 to d.ny
        invariant next == 2 * RowsBefore(d, yy, zz)
        invariant ListedTo(d, XMin, mpi, bnd, yy, zz) && OthersUnchanged(d, XMin, mpi)
      {
        RowsBelow(d, yy, zz);
        ListMinX(d, mpi, bnd, yy, zz, next);
        next := next + 2;
      }
    }
  }

  lemma LastInRow(d: Dims, y: nat, z: nat)
    requires Valid(d) && y < d.ny && z < d.nz
    ensures var q := Cube(d.nx - 1, y, z);
            InBox(d, q) && OddOf(q) == (z + y + 1) % 2 && AtBorder(d, q, XMax)
  {}

  method ListMaxX(d: Dims, mpi: array<int>, bnd: array<int>, yy: nat, zz: nat, next: nat)
    requires Valid(d) && F.Fits(d, mpi) && next + 2 <= bnd.Length && mpi != bnd && yy < d.ny && zz < d.nz
    requires next == 2 * RowsBefore(d, yy, zz) && ListedTo(d, XMax, mpi, bnd, yy, zz)
    modifies mpi, bnd
    ensures ListedTo(d, XMax, mpi, bnd, yy + 1, zz) && OthersUnchanged(d, XMax, mpi)
  {
    hide SlotOf, Cell, NumCubes, IndexOf, ListedTo, OddOf, RowsBefore, OnBorder, Valid;
    ghost var q := Cube(d.nx - 1, yy, zz);
    LastInRow(d, yy, zz);
    var c := F.CubeStart(d, d.nx - 1, yy, zz);
    if (zz + yy + 1) % 2 != 0 {
      ListCube(d, XMax, mpi, bnd, q, c, 7, 12, next);
    } else {
      ListCube(d, XMax, mpi, bnd, q, c, 6, 9, next);
    }
  }

  /** The list of the plane x = nx. */
  method BuildMaxXList(d: Dims, mpi: array<int>, bnd: array<int>) returns (next: nat)
    requires Valid(d) && F.Fits(d, mpi) && bnd.Length >= ListSize(d) && mpi != bnd
    modifies mpi, bnd
    ensures next == ListSize(d)
    ensures Listed(d, XMax, mpi, bnd) && OthersUnchanged(d, XMax, mpi)
  {
    hide SlotOf, Cell, NumCubes, IndexOf;
    next := 0;
    for zz := 0 to d.nz
      invariant next == 2 * RowsBefore(d, 0, zz)
      invariant ListedTo(d, XMax, mpi, bnd, 0, zz) && OthersUnchanged(d, XMax, mpi)
    {
      for yy := 0 to d.ny
        invariant next == 2 * RowsBefore(d, yy, zz)
        invariant ListedTo(d, XMax, mpi, bnd, yy, zz) && OthersUnchanged(d, XMax, mpi)
      {
        RowsBelow(d, yy, zz);
        ListMaxX(d, mpi, bnd, yy, zz, next);
        next := next + 2;
      }
    }
  }

  // Digits of an index.
  lemma SplitIndex(y: nat, z: nat, y1: nat, z1: nat, ny: nat)
    requires y < ny && y1 < ny && Times(z, ny) + y == Times(z1, ny) + y1
    ensures y == y1 && z == z1
  {
    if z < z1 { TimesBelow(z, z1, ny); assert false; }
    if z1 < z { TimesBelow(z1, z, ny); assert false; }
  }

  /** No two sides of a border plane have the same place in its list. */
  lemma PlacesDiffer(d: Dims, dir: Dir, f: Entry, g: Entry)
    requires Valid(d) && (dir == XMin || dir == XMax) && InBox(d, f.cube) && InBox(d, g.cube)
    requires OnBorder(d, f, dir) && OnBorder(d, g, dir) && IndexOf(d, f) == IndexOf(d, g)
    ensures f == g
  {
    hide StepOf, OddOf, ListSide, Times;
    SplitIndex(f.cube.y, f.cube.z, g.cube.y, g.cube.z, d.ny);
    ListSides(OddOf(f.cube), dir, f.tet, f.j);
    ListSides(OddOf(g.cube), dir, g.tet, g.j);
  }

  /** Every place of a list is taken. */
  lemma PlacesTaken(d: Dims, dir: Dir, i: nat) returns (f: Entry)
    requires Valid(d) && (dir == XMin || dir == XMax) && i < ListSize(d)
    ensures InBox(d, f.cube) && OnBorder(d, f, dir) && IndexOf(d, f) == i
  {
    hide StepOf, OddOf, ListSide;
    var z := TimesSplit(i / 2, d.nz, d.ny);
    var q := Cube(if dir == XMin then 0 else d.nx - 1, i / 2 - Times(z, d.ny), z);
    ListSideLies(OddOf(q), dir, i % 2 == 0);
    f := Entry(q, ListSide(OddOf(q), dir, i % 2 == 0).0, ListSide(OddOf(q), dir, i % 2 == 0).1);
  }

  // The outer x planes of a cube pair up in the order they are listed.
  lemma StepsKeepPlaces(odd: Parity, t: Tet, s: Four)
    ensures var st := StepOf(odd, t, s);
            st.dir == XMax ==> (t == FirstTet(XMax) <==> st.tet == FirstTet(XMin))
  {}

  /** A side of the last plane and a side of the first plane have the same place in the two lists
      exactly when they are the two sides of one triangle, seen from both ranks. */
  lemma SamePlaceIffMate(cfg: Config, f: Entry, g: Entry)
    requires ValidConfig(cfg) && InBox(cfg.d, f.cube) && InBox(cfg.d, g.cube)
    requires OnBorder(cfg.d, f, XMax) && OnBorder(cfg.d, g, XMin)
    ensures IndexOf(cfg.d, f) == IndexOf(cfg.d, g) <==> g == MateOf(cfg, f)
  {
    hide StepOf, OddOf, ListSide, TetSideNeighbor, TetSideOrientation, Times, Behind;
    var m := MateOf(cfg, f);
    StepParity(cfg.d, f.cube, XMax);
    TablesLeadBack(OddOf(f.cube), f.tet, f.j);
    StepsKeepPlaces(OddOf(f.cube), f.tet, f.j);
    ListSides(OddOf(m.cube), XMin, m.tet, m.j);
    ListSides(OddOf(g.cube), XMin, g.tet, g.j);
    if IndexOf(cfg.d, f) == IndexOf(cfg.d, g) {
      SplitIndex(f.cube.y, f.cube.z, g.cube.y, g.cube.z, cfg.d.ny);
    }
  }

  /** What rank and rank + 1 store of a side between them fits together, and a corner of the side
      is, one partition further, the corner the orientation says. */
  lemma RanksAgree(cfg: Config, rank: nat, f: Entry, g: Entry, k: Three)
    requires ValidConfig(cfg) && rank + 1 < cfg.px && InBox(cfg.d, f.cube) && InBox(cfg.d, g.cube)
    requires OnBorder(cfg.d, f, XMax) && OnBorder(cfg.d, g, XMin) && IndexOf(cfg.d, f) == IndexOf(cfg.d, g)
    ensures NeighborRank(cfg, rank, f) == rank + 1 && NeighborRank(cfg, rank + 1, g) == rank
    ensures NeighborSide(cfg, rank, f) == g.j && NeighborSide(cfg, rank + 1, g) == f.j
    ensures SideOrientation(cfg, rank, f) == SideOrientation(cfg, rank + 1, g)
    ensures var p, q := FacePoint(f, k), FacePoint(g, Turned(SideOrientation(cfg, rank, f), k));
            p.x == q.x + cfg.d.nx && p.y == q.y && p.z == q.z
  {
    hide StepOf, OddOf, TetVertex, FaceCorner, TetSideNeighbor, TetSideOrientation, Behind, IndexOf, Turned, RankBehind;
    SamePlaceIffMate(cfg, f, g);
    StepParity(cfg.d, f.cube, XMax);
    TablesLeadBack(OddOf(f.cube), f.tet, f.j);
    TableCornersMeet(OddOf(f.cube), f.tet, f.j, k);
    B.RanksBehind(cfg, rank);
    B.RanksBehind(cfg, rank + 1);
  }

  /** Position of a lattice coordinate of partition block in space, in exact arithmetic. */
  function Coordinate(v: int, block: nat, perBlock: nat, total: nat, scale: real, shift: real): (r: real)
    requires total > 0
  {
    (v + block * perBlock) as real / total as real * scale - scale / 2.0 + shift
  }

  /** Both ranks place a shared corner at the same point. */
  lemma SharedCoordinate(v: int, rank: nat, perBlock: nat, total: nat, scale: real, shift: real)
    requires total > 0
    ensures Coordinate(v + perBlock, rank, perBlock, total, scale, shift)
          == Coordinate(v, rank + 1, perBlock, total, scale, shift)
  {
    assert v + perBlock + rank * perBlock == v + (rank + 1) * perBlock;
  }
}
