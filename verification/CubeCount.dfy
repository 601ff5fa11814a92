/** How many sides have no neighbour, counted cube by cube, row by row and layer by layer: the surface of the box. */
module CubeCount {
  import opened CubeTables
  import opened CubeLayout
  import opened CubeMesh

  function One(b: bool): (r: nat) { if b then 1 else 0 }

  // Number of the first n slots whose side has no neighbour in this rank.
  ghost function OpenSides(cfg: Config, n: nat): (r: nat)
    requires ValidConfig(cfg) && n <= 20 * NumCubes(cfg.d)
  {
    if n == 0 then 0
    else OpenSides(cfg, n - 1) + One(Neighbor(cfg, EntryAt(cfg.d, n - 1)) == NumElems(cfg.d))
  }

  // Plane dir of cube q is part of a border that is not glued.
  ghost predicate OpenPlane(cfg: Config, q: Cube, dir: Dir) {
    AtBorder(cfg.d, q, dir) && !Wraps(cfg, dir)
  }

  ghost function OpenPlanes(cfg: Config, q: Cube): (r: nat) {
    One(OpenPlane(cfg, q, XMin)) + One(OpenPlane(cfg, q, XMax)) + One(OpenPlane(cfg, q, YMin))
    + One(OpenPlane(cfg, q, YMax)) + One(OpenPlane(cfg, q, ZMin)) + One(OpenPlane(cfg, q, ZMax))
  }

  ghost function OpenAt(cfg: Config, q: Cube, odd: Parity, t: Tet, j: Four): (r: nat) {
    One(OpenPlane(cfg, q, StepOf(odd, t, j).dir))
  }

  ghost function OpenInTet(cfg: Config, q: Cube, odd: Parity, t: Tet): (r: nat) {
    OpenAt(cfg, q, odd, t, 0) + OpenAt(cfg, q, odd, t, 1) + OpenAt(cfg, q, odd, t, 2) + OpenAt(cfg, q, odd, t, 3)
  }

  ghost function OpenInCube(cfg: Config, q: Cube, odd: Parity): (r: nat) {
    OpenInTet(cfg, q, odd, 0) + OpenInTet(cfg, q, odd, 1) + OpenInTet(cfg, q, odd, 2) + OpenInTet(cfg, q, odd, 3)
    + OpenInTet(cfg, q, odd, 4)
  }

  lemma NothingOpenInside(cfg: Config, q: Cube)
    ensures !OpenPlane(cfg, q, Inner)
  {}

  lemma TwoSidesPerPlaneOfEven(cfg: Config, q: Cube)
    ensures OpenInCube(cfg, q, 0) == 2 * OpenPlanes(cfg, q)
  {
    hide OpenPlane;
    NothingOpenInside(cfg, q);
  }

  lemma TwoSidesPerPlaneOfOdd(cfg: Config, q: Cube)
    ensures OpenInCube(cfg, q, 1) == 2 * OpenPlanes(cfg, q)
  {
    hide OpenPlane;
    NothingOpenInside(cfg, q);
  }

  /** Every plane of a cube is cut into two sides. */
  lemma TwoSidesPerPlane(cfg: Config, q: Cube, odd: Parity)
    ensures OpenInCube(cfg, q, odd) == 2 * OpenPlanes(cfg, q)
  {
    hide OpenInCube, OpenPlanes;
    if odd == 0 {
      TwoSidesPerPlaneOfEven(cfg, q);
    } else {
      TwoSidesPerPlaneOfOdd(cfg, q);
    }
  }

  lemma OpenSidesOfTet(cfg: Config, q: Cube, t: Tet)
    requires ValidConfig(cfg) && InBox(cfg.d, q)
    ensures var i := 20 * Cell(cfg.d, q) + 4 * t;
            i + 4 <= 20 * NumCubes(cfg.d) && OpenSides(cfg, i + 4) == OpenSides(cfg, i) + OpenInTet(cfg, q, OddOf(q), t)
  {
    hide OpenSides, OpenAt, Cell, NumCubes, OddOf;
    OneOpenSide(cfg, q, t, 0);
    OneOpenSide(cfg, q, t, 1);
    OneOpenSide(cfg, q, t, 2);
    OneOpenSide(cfg, q, t, 3);
  }

  lemma OneOpenSide(cfg: Config, q: Cube, t: Tet, j: Four)
    requires ValidConfig(cfg) && InBox(cfg.d, q)
    ensures var i := 20 * Cell(cfg.d, q) + 4 * t + j;
            i < 20 * NumCubes(cfg.d) && OpenSides(cfg, i + 1) == OpenSides(cfg, i) + OpenAt(cfg, q, OddOf(q), t, j)
  {
    hide EntryAt, StepOf, OddOf, NumCubes, Cell, Neighbor, NumElems, OpenPlane, SlotOf;
    var f := Entry(q, t, j);
    SlotIs(cfg.d, f);
    NoNeighborIffOpen(cfg, f);
    OpenSidesGrows(cfg, SlotOf(cfg.d, f));
  }

  lemma SlotIs(d: Dims, f: Entry)
    requires InBox(d, f.cube)
    ensures SlotOf(d, f) == 20 * Cell(d, f.cube) + 4 * f.tet + f.j
  {
    hide Cell, NumCubes, EntryAt;
  }

  lemma OpenSidesGrows(cfg: Config, i: nat)
    requires ValidConfig(cfg) && i < 20 * NumCubes(cfg.d)
    ensures OpenSides(cfg, i + 1) == OpenSides(cfg, i) + One(Neighbor(cfg, EntryAt(cfg.d, i)) == NumElems(cfg.d))
  {
    hide EntryAt, NumCubes, NumElems, Neighbor;
  }

  lemma NoNeighborIffOpen(cfg: Config, f: Entry)
    requires ValidConfig(cfg) && InBox(cfg.d, f.cube)
    ensures Neighbor(cfg, f) == NumElems(cfg.d) <==> OpenPlane(cfg, f.cube, StepAt(f).dir)
  {
    hide StepOf, AtBorder, CubeBehind, OddOf;
  }

  lemma OpenSidesOfCube(cfg: Config, q: Cube)
    requires ValidConfig(cfg) && InBox(cfg.d, q)
    ensures Cell(cfg.d, q) < NumCubes(cfg.d)
    ensures OpenSides(cfg, 20 * (Cell(cfg.d, q) + 1)) == OpenSides(cfg, 20 * Cell(cfg.d, q)) + 2 * OpenPlanes(cfg, q)
  {
    hide OpenSides, OpenInTet, OpenPlanes, Cell, NumCubes, OddOf;
    OpenSidesOfTet(cfg, q, 0);
    OpenSidesOfTet(cfg, q, 1);
    OpenSidesOfTet(cfg, q, 2);
    OpenSidesOfTet(cfg, q, 3);
    OpenSidesOfTet(cfg, q, 4);
    TwoSidesPerPlane(cfg, q, OddOf(q));
  }

  ghost predicate NothingWraps(cfg: Config) {
    forall dir :: !Wraps(cfg, dir)
  }

  // Borders of one direction met by the first n coordinates in it.
  function Ends(n: nat, size: nat): (r: nat) {
    One(n > 0) + One(n == size)
  }

  // Open planes a cube has because of one coordinate.
  function EndPlanes(c: int, size: nat): (r: nat) {
    One(c == 0) + One(c == size - 1)
  }

  lemma PlanesByCoordinate(cfg: Config, q: Cube)
    requires NothingWraps(cfg)
    ensures OpenPlanes(cfg, q) == EndPlanes(q.x, cfg.d.nx) + EndPlanes(q.y, cfg.d.ny) + EndPlanes(q.z, cfg.d.nz)
  {
    hide Wraps;
  }

  // Index of the first cube of a row.
  ghost function RowStart(d: Dims, y: nat, z: nat): (r: nat) {
    Times(z, Layer(d)) + Times(y, d.nx)
  }

  lemma RowFits(d: Dims, y: nat, z: nat)
    requires y < d.ny && z < d.nz
    ensures RowStart(d, y, z) + d.nx <= NumCubes(d)
  {
    TimesBelow(y, d.ny, d.nx);
    TimesBelow(z, d.nz, Layer(d));
    hide Times;
  }

  // Open sides of the first x cubes of a row.
  ghost function InRow(d: Dims, x: nat, y: nat, z: nat): (r: nat) {
    2 * (Ends(x, d.nx) + Times(x, EndPlanes(y, d.ny) + EndPlanes(z, d.nz)))
  }

  lemma OpenSidesOfNextCube(cfg: Config, x: nat, y: nat, z: nat)
    requires ValidConfig(cfg) && NothingWraps(cfg)
    requires x < cfg.d.nx && y < cfg.d.ny && z < cfg.d.nz
    requires RowStart(cfg.d, y, z) + x < NumCubes(cfg.d)
    ensures var i := RowStart(cfg.d, y, z) + x;
            OpenSides(cfg, 20 * (i + 1)) - OpenSides(cfg, 20 * i) == InRow(cfg.d, x + 1, y, z) - InRow(cfg.d, x, y, z)
  {
    hide *;
    var q := Cube(x, y, z);
    CellInRow(cfg.d, x, y, z);
    InRowGrows(cfg.d, x, y, z);
    OpenSidesOfCube(cfg, q);
    PlanesByCoordinate(cfg, q);
  }

  lemma CellInRow(d: Dims, x: nat, y: nat, z: nat)
    requires x < d.nx && y < d.ny && z < d.nz
    ensures InBox(d, Cube(x, y, z)) && Cell(d, Cube(x, y, z)) == RowStart(d, y, z) + x
  {}

  lemma InRowEmpty(cfg: Config, y: nat, z: nat)
    requires ValidConfig(cfg)
    ensures InRow(cfg.d, 0, y, z) == 0
  {}

  lemma InRowGrows(d: Dims, x: nat, y: nat, z: nat)
    requires x < d.nx
    ensures InRow(d, x + 1, y, z) - InRow(d, x, y, z) == 2 * (EndPlanes(x, d.nx) + EndPlanes(y, d.ny) + EndPlanes(z, d.nz))
  {}

  lemma {:induction false} OpenSidesOfRow(cfg: Config, x: nat, y: nat, z: nat)
    requires ValidConfig(cfg) && NothingWraps(cfg)
    requires x <= cfg.d.nx && y < cfg.d.ny && z < cfg.d.nz
    requires RowStart(cfg.d, y, z) + x <= NumCubes(cfg.d)
    ensures var start := RowStart(cfg.d, y, z);
            OpenSides(cfg, 20 * (start + x)) == OpenSides(cfg, 20 * start) + InRow(cfg.d, x, y, z)
  {
    hide *;
    if x == 0 {
      InRowEmpty(cfg, y, z);
    } else {
      OpenSidesOfRow(cfg, x - 1, y, z);
      OpenSidesOfNextCube(cfg, x - 1, y, z);
    }
  }

  // Open sides of the first y rows of a layer.
  ghost function InRows(d: Dims, y: nat, z: nat): (r: nat) {
    2 * (Times(y, 2) + Times(d.nx, Ends(y, d.ny)) + Times(y, Times(d.nx, EndPlanes(z, d.nz))))
  }

  lemma InRowsGrows(cfg: Config, y: nat, z: nat)
    requires ValidConfig(cfg) && y < cfg.d.ny
    ensures InRows(cfg.d, y + 1, z) - InRows(cfg.d, y, z) == InRow(cfg.d, cfg.d.nx, y, z)
  {
    hide Times, Ends, EndPlanes;
    var d := cfg.d;
    EndsGrow(y, d.ny);
    AllEnds(d.nx);
    TimesSum(d.nx, EndPlanes(y, d.ny), EndPlanes(z, d.nz));
    TimesSum(d.nx, Ends(y, d.ny), EndPlanes(y, d.ny));
    TimesGrows(y, 2);
    TimesGrows(y, Times(d.nx, EndPlanes(z, d.nz)));
  }

  lemma EndsGrow(n: nat, size: nat)
    requires n < size
    ensures Ends(n + 1, size) == Ends(n, size) + EndPlanes(n, size)
  {}

  lemma AllEnds(size: nat)
    requires size > 0
    ensures Ends(size, size) == 2
  {}

  lemma TimesGrows(n: nat, step: nat)
    ensures Times(n + 1, step) == Times(n, step) + step
  {}

  lemma {:induction false} TimesSum(n: nat, a: nat, b: nat)
    ensures Times(n, a + b) == Times(n, a) + Times(n, b)
  {
    if n > 0 {
      TimesSum(n - 1, a, b);
    }
  }

  lemma {:induction false} TimesZero(n: nat)
    ensures Times(n, 0) == 0
  {
    if n > 0 {
      TimesZero(n - 1);
    }
  }

  lemma {:induction false} OpenSidesOfRows(cfg: Config, y: nat, z: nat)
    requires ValidConfig(cfg) && NothingWraps(cfg)
    requires y <= cfg.d.ny && z < cfg.d.nz
    requires RowStart(cfg.d, y, z) <= NumCubes(cfg.d)
    ensures RowStart(cfg.d, 0, z) <= RowStart(cfg.d, y, z)
    ensures OpenSides(cfg, 20 * RowStart(cfg.d, y, z)) == OpenSides(cfg, 20 * RowStart(cfg.d, 0, z)) + InRows(cfg.d, y, z)
  {
    hide *;
    if y == 0 {
      InRowsEmpty(cfg, z);
    } else {
      InRowsGrows(cfg, y - 1, z);
      RowFits(cfg.d, y - 1, z);
      RowsJoin(cfg.d, y - 1, z);
      OpenSidesOfRows(cfg, y - 1, z);
      OpenSidesOfRow(cfg, cfg.d.nx, y - 1, z);
    }
  }

  lemma RowsJoin(d: Dims, y: nat, z: nat)
    ensures RowStart(d, y + 1, z) == RowStart(d, y, z) + d.nx
  {}

  lemma InRowsEmpty(cfg: Config, z: nat)
    requires ValidConfig(cfg)
    ensures InRows(cfg.d, 0, z) == 0
  {
    TimesZero(cfg.d.nx);
  }

  // Open sides of the first z layers.
  ghost function InLayers(d: Dims, z: nat): (r: nat) {
    2 * (Times(z, 2 * d.ny + 2 * d.nx) + Times(d.ny, Times(d.nx, Ends(z, d.nz))))
  }

  lemma InLayersEmpty(cfg: Config)
    requires ValidConfig(cfg)
    ensures InLayers(cfg.d, 0) == 0
  {
    TimesZero(cfg.d.nx);
    TimesZero(cfg.d.ny);
  }

  lemma InLayersGrows(cfg: Config, z: nat)
    requires ValidConfig(cfg) && z < cfg.d.nz
    ensures InLayers(cfg.d, z + 1) - InLayers(cfg.d, z) == InRows(cfg.d, cfg.d.ny, z)
  {
    hide Times, Ends, EndPlanes;
    var d := cfg.d;
    EndsGrow(z, d.nz);
    AllEnds(d.ny);
    TimesGrows(z, 2 * d.ny + 2 * d.nx);
    TimesSum(d.nx, Ends(z, d.nz), EndPlanes(z, d.nz));
    TimesSum(d.ny, Times(d.nx, Ends(z, d.nz)), Times(d.nx, EndPlanes(z, d.nz)));
    TimesIsProduct(d.ny, 2);
    TimesIsProduct(d.nx, 2);
  }

  lemma LayersJoin(d: Dims, z: nat)
    requires z < d.nz
    ensures RowStart(d, d.ny, z) == RowStart(d, 0, z + 1) <= NumCubes(d)
  {
    if z + 1 < d.nz {
      TimesBelow(z + 1, d.nz, Layer(d));
    }
  }

  lemma {:induction false} OpenSidesOfLayers(cfg: Config, z: nat)
    requires ValidConfig(cfg) && NothingWraps(cfg)
    requires z <= cfg.d.nz && RowStart(cfg.d, 0, z) <= NumCubes(cfg.d)
    ensures OpenSides(cfg, 20 * RowStart(cfg.d, 0, z)) == InLayers(cfg.d, z)
  {
    if z == 0 {
      InLayersEmpty(cfg);
    } else {
      hide *;
      InLayersGrows(cfg, z - 1);
      LayersJoin(cfg.d, z - 1);
      OpenSidesOfRows(cfg, cfg.d.ny, z - 1);
      OpenSidesOfLayers(cfg, z - 1);
    }
  }

  /** Where nothing is glued, the sides without a neighbour are two for each square on the six
      border planes of the partition box. */
  lemma OpenSidesTotal(cfg: Config)
    requires ValidConfig(cfg) && NothingWraps(cfg)
    ensures OpenSides(cfg, 20 * NumCubes(cfg.d))
            == 4 * (cfg.d.nx * cfg.d.ny + cfg.d.ny * cfg.d.nz + cfg.d.nx * cfg.d.nz)
  {
    hide OpenSides, NothingWraps;
    var d := cfg.d;
    OpenSidesOfLayers(cfg, d.nz);
    TimesIsProduct(d.nz, 2 * d.ny + 2 * d.nx);
    TimesIsProduct(d.nx, 2);
    TimesIsProduct(d.ny, 2 * d.nx);
    Surface(d.nx, d.ny, d.nz);
  }

  lemma Surface(x: nat, y: nat, z: nat)
    ensures 2 * (z * (2 * y + 2 * x) + y * (2 * x)) == 4 * (x * y + y * z + x * z)
  {}
}
