/** Where the vertices of the built mesh objects are: the box, its two ends, and the distances in between. */
module CubePositions {
  import opened CubeTables
  import opened CubeLayout
  import opened CubeMesh
  import F = CubeFill
  import V = CubeVertices
  import X = CubeExchange
  import G = CubeGenerator

  // The stored vertex of corner e of an element.
  ghost function StoredId(mesh: G.CubeGenerator, e: Entry): (r: int)
    requires mesh.Sized() && InBox(mesh.cfg.d, e.cube)
    reads mesh.elemVertices
  {
    mesh.elemVertices[SlotOf(mesh.cfg.d, e)]
  }

  // Corner e has a vertex, and the vertex is at c.
  ghost predicate IsAt(mesh: G.CubeGenerator, e: Entry, c: G.Coords)
    requires mesh.Sized() && InBox(mesh.cfg.d, e.cube)
    reads mesh.elemVertices, mesh.vertexCoords
  {
    0 <= StoredId(mesh, e) < mesh.vertexCoords.Length && mesh.vertexCoords[StoredId(mesh, e)] == c
  }

  // ---- one coordinate ----

  lemma CoordinateStarts(perBlock: nat, total: nat, scale: real, shift: real)
    requires total > 0
    ensures X.Coordinate(0, 0, perBlock, total, scale, shift) == shift - scale / 2.0
  {
    assert 0 as real / total as real == 0.0;
  }

  lemma CoordinateEnds(v: int, block: nat, perBlock: nat, total: nat, scale: real, shift: real)
    requires total > 0 && v + block * perBlock == total
    ensures X.Coordinate(v, block, perBlock, total, scale, shift) == shift + scale / 2.0
  {
    assert total as real / total as real == 1.0;
  }

  lemma Proportional(a: real, b: real, t: real, s: real)
    requires t > 0.0
    ensures a / t * s - b / t * s == (a - b) * (s / t)
  {
    Quotient(a, t, s);
    Quotient(b, t, s);
    assert (a - b) * (s / t) == a * (s / t) - b * (s / t);
  }

  lemma Quotient(a: real, t: real, s: real)
    requires t > 0.0
    ensures a / t * s == a * (s / t)
  {
    var x, y := a / t, s / t;
    assert x * t == a && y * t == s;
    assert x * (y * t) == (x * t) * y;
  }

  lemma CoordinateMoves(v: int, w: int, block: nat, perBlock: nat, total: nat, scale: real, shift: real)
    requires total > 0
    ensures X.Coordinate(w, block, perBlock, total, scale, shift) - X.Coordinate(v, block, perBlock, total, scale, shift)
         == (w - v) as real * (scale / total as real)
  {
    var o := block * perBlock;
    Proportional((w + o) as real, (v + o) as real, total as real, scale);
    assert (w + o) as real - (v + o) as real == (w - v) as real;
  }

  // ---- the vertices ----

  lemma CornerIsAt(mesh: G.CubeGenerator, e: Entry)
    requires mesh.Generated() && InBox(mesh.cfg.d, e.cube)
    ensures IsAt(mesh, e, G.PositionOf(mesh.cfg, mesh.rank, mesh.at, CornerPoint(e.cube, e.tet, e.j)))
  {
    hide SlotOf, CornerPoint, NumCubes, G.PositionOf, F.HoldsNeighbors, F.HoldsBoundaries, F.HoldsNeighborSides;
    hide F.HoldsSideOrientations, F.HoldsNeighborRanks, G.HoldsExchange, G.HoldsIncidence, G.Registered;
  }

  lemma SizesKnown(mesh: G.CubeGenerator)
    requires mesh.Generated()
    ensures mesh.Sized() && ValidConfig(mesh.cfg) && mesh.cfg.d.nx * mesh.cfg.px > 0
  {}

  lemma IsAtMeans(mesh: G.CubeGenerator, e: Entry, c: G.Coords)
    requires mesh.Sized() && InBox(mesh.cfg.d, e.cube) && IsAt(mesh, e, c)
    ensures 0 <= StoredId(mesh, e) < mesh.vertexCoords.Length && mesh.vertexCoords[StoredId(mesh, e)] == c
  {}

  lemma FirstPosition(cfg: Config, at: G.Placement)
    requires ValidConfig(cfg)
    ensures G.PositionOf(cfg, 0, at, Point(0, 0, 0))
         == G.Coords(at.tx - at.scaleX / 2.0, at.ty - at.scaleY / 2.0, at.tz - at.scaleZ / 2.0)
  {
    hide X.Coordinate;
    assert cfg.d.nx * cfg.px > 0;
    CoordinateStarts(cfg.d.nx, cfg.d.nx * cfg.px, at.scaleX, at.tx);
    CoordinateStarts(cfg.d.ny, cfg.d.ny, at.scaleY, at.ty);
    CoordinateStarts(cfg.d.nz, cfg.d.nz, at.scaleZ, at.tz);
  }

  lemma LastPosition(cfg: Config, at: G.Placement)
    requires ValidConfig(cfg)
    ensures G.PositionOf(cfg, cfg.px - 1, at, Point(cfg.d.nx, cfg.d.ny, cfg.d.nz))
         == G.Coords(at.tx + at.scaleX / 2.0, at.ty + at.scaleY / 2.0, at.tz + at.scaleZ / 2.0)
  {
    hide X.Coordinate;
    assert cfg.d.nx * cfg.px > 0 && cfg.d.nx + (cfg.px - 1) * cfg.d.nx == cfg.d.nx * cfg.px;
    CoordinateEnds(cfg.d.nx, cfg.px - 1, cfg.d.nx, cfg.d.nx * cfg.px, at.scaleX, at.tx);
    CoordinateEnds(cfg.d.ny, 0, cfg.d.ny, cfg.d.ny, at.scaleY, at.ty);
    CoordinateEnds(cfg.d.nz, 0, cfg.d.nz, cfg.d.nz, at.scaleZ, at.tz);
  }

  lemma PositionMoves(cfg: Config, rank: nat, at: G.Placement, p: Point, q: Point)
    requires ValidConfig(cfg) && cfg.d.nx * cfg.px > 0
    ensures var a, b := G.PositionOf(cfg, rank, at, p), G.PositionOf(cfg, rank, at, q);
            && b.x - a.x == (q.x - p.x) as real * (at.scaleX / (cfg.d.nx * cfg.px) as real)
            && b.y - a.y == (q.y - p.y) as real * (at.scaleY / cfg.d.ny as real)
            && b.z - a.z == (q.z - p.z) as real * (at.scaleZ / cfg.d.nz as real)
  {
    hide X.Coordinate;
    CoordinateMoves(p.x, q.x, rank, cfg.d.nx, cfg.d.nx * cfg.px, at.scaleX, at.tx);
    CoordinateMoves(p.y, q.y, 0, cfg.d.ny, cfg.d.ny, at.scaleY, at.ty);
    CoordinateMoves(p.z, q.z, 0, cfg.d.nz, cfg.d.nz, at.scaleZ, at.tz);
  }

  /** The first lattice point of the first rank is the lower end of the box, centred at (tx, ty, tz). */
  lemma BoxStarts(mesh: G.CubeGenerator, e: Entry)
    requires mesh.Generated() && InBox(mesh.cfg.d, e.cube) && mesh.rank == 0
    requires CornerPoint(e.cube, e.tet, e.j) == Point(0, 0, 0)
    ensures var at := mesh.at;
            IsAt(mesh, e, G.Coords(at.tx - at.scaleX / 2.0, at.ty - at.scaleY / 2.0, at.tz - at.scaleZ / 2.0))
  {
    hide IsAt, CornerPoint, G.PositionOf;
    CornerIsAt(mesh, e);
    FirstPosition(mesh.cfg, mesh.at);
  }

  /** The last lattice point of the last rank is the upper end of the box. */
  lemma BoxEnds(mesh: G.CubeGenerator, e: Entry)
    requires mesh.Generated() && InBox(mesh.cfg.d, e.cube) && mesh.rank == mesh.cfg.px - 1
    requires CornerPoint(e.cube, e.tet, e.j) == Point(mesh.cfg.d.nx, mesh.cfg.d.ny, mesh.cfg.d.nz)
    ensures var at := mesh.at;
            IsAt(mesh, e, G.Coords(at.tx + at.scaleX / 2.0, at.ty + at.scaleY / 2.0, at.tz + at.scaleZ / 2.0))
  {
    hide IsAt, CornerPoint, G.PositionOf;
    CornerIsAt(mesh, e);
    LastPosition(mesh.cfg, mesh.at);
  }

  /** From one corner to another, every lattice step moves the vertex by the width of a cube in its own
      direction, and by nothing in the others. */
  lemma StepsAreEven(mesh: G.CubeGenerator, e: Entry, g: Entry)
    requires mesh.Generated() && InBox(mesh.cfg.d, e.cube) && InBox(mesh.cfg.d, g.cube)
    ensures mesh.cfg.d.nx * mesh.cfg.px > 0
    ensures 0 <= StoredId(mesh, e) < mesh.vertexCoords.Length && 0 <= StoredId(mesh, g) < mesh.vertexCoords.Length
    ensures var p, q := CornerPoint(e.cube, e.tet, e.j), CornerPoint(g.cube, g.tet, g.j);
            var a, b := mesh.vertexCoords[StoredId(mesh, e)], mesh.vertexCoords[StoredId(mesh, g)];
            && b.x - a.x == (q.x - p.x) as real * (mesh.at.scaleX / (mesh.cfg.d.nx * mesh.cfg.px) as real)
            && b.y - a.y == (q.y - p.y) as real * (mesh.at.scaleY / mesh.cfg.d.ny as real)
            && b.z - a.z == (q.z - p.z) as real * (mesh.at.scaleZ / mesh.cfg.d.nz as real)
  {
    hide *;
    SizesKnown(mesh);
    CornerIsAt(mesh, e);
    CornerIsAt(mesh, g);
    IsAtMeans(mesh, e, G.PositionOf(mesh.cfg, mesh.rank, mesh.at, CornerPoint(e.cube, e.tet, e.j)));
    IsAtMeans(mesh, g, G.PositionOf(mesh.cfg, mesh.rank, mesh.at, CornerPoint(g.cube, g.tet, g.j)));
    PositionMoves(mesh.cfg, mesh.rank, mesh.at, CornerPoint(e.cube, e.tet, e.j), CornerPoint(g.cube, g.tet, g.j));
  }

  // The first corner of the first cube and one of the last cube, which is odd.
  const FIRST := Entry(Cube(0, 0, 0), 0, 0)

  function Last(d: Dims): (e: Entry)
    requires Valid(d)
  {
    Entry(Cube(d.nx - 1, d.ny - 1, d.nz - 1), 3, 2)
  }

  lemma EndParities(d: Dims)
    requires Valid(d)
    ensures OddOf(FIRST.cube) == 0 && OddOf(Last(d).cube) == 1
  {}

  lemma EndTables()
    ensures TetVertex(0, 0, 0) == Point(0, 0, 0) && TetVertex(1, 3, 2) == Point(1, 1, 1)
  {}

  /** Both ends of the box are corners of elements. */
  lemma EndsAreCorners(d: Dims)
    requires Valid(d)
    ensures CornerPoint(FIRST.cube, FIRST.tet, FIRST.j) == Point(0, 0, 0)
    ensures CornerPoint(Last(d).cube, Last(d).tet, Last(d).j) == Point(d.nx, d.ny, d.nz)
  {
    hide OddOf, Valid, TetVertex;
    EndParities(d);
    EndTables();
  }
}
