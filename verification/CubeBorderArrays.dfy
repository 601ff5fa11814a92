/** What the arrays of the built mesh objects hold at the border, said in coordinates and tags alone. */
module CubeBorderArrays {
  import opened CubeTables
  import opened CubeLayout
  import opened CubeMesh
  import opened CubeBorder
  import F = CubeFill
  import V = CubeVertices
  import G = CubeGenerator
  import X = CubeExchange
  import T = CubeTheorems

  // All three corners of side f have this coordinate.
  ghost predicate AllX(f: Entry, v: int) { FacePoint(f, 0).x == v && FacePoint(f, 1).x == v && FacePoint(f, 2).x == v }

  ghost predicate AllY(f: Entry, v: int) { FacePoint(f, 0).y == v && FacePoint(f, 1).y == v && FacePoint(f, 2).y == v }

  ghost predicate AllZ(f: Entry, v: int) { FacePoint(f, 0).z == v && FacePoint(f, 1).z == v && FacePoint(f, 2).z == v }

  ghost predicate Inside(d: Dims, f: Entry) {
    && !AllX(f, 0) && !AllX(f, d.nx) && !AllY(f, 0) && !AllY(f, d.ny) && !AllZ(f, 0) && !AllZ(f, d.nz)
  }

  lemma PlanesAre(d: Dims, f: Entry)
    requires Valid(d) && InBox(d, f.cube)
    ensures AllX(f, 0) <==> OnBorder(d, f, XMin)
    ensures AllX(f, d.nx) <==> OnBorder(d, f, XMax)
    ensures AllY(f, 0) <==> OnBorder(d, f, YMin)
    ensures AllY(f, d.ny) <==> OnBorder(d, f, YMax)
    ensures AllZ(f, 0) <==> OnBorder(d, f, ZMin)
    ensures AllZ(f, d.nz) <==> OnBorder(d, f, ZMax)
  {
    hide OnBorder, FacePoint, Valid, InBox;
    OnBorderIffLiesIn(d, f, XMin);
    OnBorderIffLiesIn(d, f, XMax);
    OnBorderIffLiesIn(d, f, YMin);
    OnBorderIffLiesIn(d, f, YMax);
    OnBorderIffLiesIn(d, f, ZMin);
    OnBorderIffLiesIn(d, f, ZMax);
  }

  // ---- the meaning of the arrays, for any tags ----

  /** The plane of a side decides its tag, whatever the tag is. */
  lemma BoundaryIs(cfg: Config, rank: nat, f: Entry)
    requires ValidConfig(cfg) && rank < cfg.px && InBox(cfg.d, f.cube)
    ensures forall dir | LiesIn(cfg.d, f, dir) ::
              Boundary(cfg, rank, f) == if Outermost(cfg, rank, dir) then TagOf(cfg, dir) else 0
    ensures (forall dir :: !LiesIn(cfg.d, f, dir)) ==> Boundary(cfg, rank, f) == 0
  {
    var st := StepAt(f);
    forall dir
      ensures OnBorder(cfg.d, f, dir) <==> LiesIn(cfg.d, f, dir)
    {
      OnBorderIffLiesIn(cfg.d, f, dir);
    }
    hide LiesIn, StepAt;
    assert AtBorder(cfg.d, f.cube, st.dir) <==> LiesIn(cfg.d, f, st.dir);
  }

  /** It decides the rank too: a plane that is not shared leaves the own rank. */
  lemma NeighborRankIs(cfg: Config, rank: nat, f: Entry)
    requires ValidConfig(cfg) && rank < cfg.px && InBox(cfg.d, f.cube)
    ensures forall dir | LiesIn(cfg.d, f, dir) ::
              NeighborRank(cfg, rank, f) == if LinksRanks(cfg, rank, dir) then RankBehind(cfg, rank, dir) else rank
    ensures (forall dir :: !LiesIn(cfg.d, f, dir)) ==> NeighborRank(cfg, rank, f) == rank
  {
    var st := StepAt(f);
    forall dir
      ensures OnBorder(cfg.d, f, dir) <==> LiesIn(cfg.d, f, dir)
    {
      OnBorderIffLiesIn(cfg.d, f, dir);
    }
    hide LiesIn, StepAt, RankBehind, LinksRanks;
    assert AtBorder(cfg.d, f.cube, st.dir) <==> LiesIn(cfg.d, f, st.dir);
  }

  // ---- the built objects ----

  lemma ArraysHold(mesh: G.CubeGenerator, f: Entry)
    requires mesh.Generated() && InBox(mesh.cfg.d, f.cube)
    ensures mesh.Sized() && ValidConfig(mesh.cfg) && Valid(mesh.cfg.d) && mesh.rank < mesh.cfg.px
    ensures mesh.elemNeighbors[SlotOf(mesh.cfg.d, f)] == Neighbor(mesh.cfg, f)
    ensures mesh.elemBoundaries[SlotOf(mesh.cfg.d, f)] == Boundary(mesh.cfg, mesh.rank, f)
    ensures mesh.elemNeighborSides[SlotOf(mesh.cfg.d, f)] == NeighborSide(mesh.cfg, mesh.rank, f)
    ensures mesh.elemSideOrientations[SlotOf(mesh.cfg.d, f)] == SideOrientation(mesh.cfg, mesh.rank, f)
    ensures mesh.elemNeighborRanks[SlotOf(mesh.cfg.d, f)] == NeighborRank(mesh.cfg, mesh.rank, f)
  {
    hide SlotOf, NumCubes, Neighbor, Boundary, NeighborSide, SideOrientation, NeighborRank, V.HoldsVertices;
    hide G.HoldsExchange, G.HoldsIncidence, G.HoldsCoords, G.Registered, Valid;
  }

  // The side of the box behind side f, if there is one, with its tag; no tag otherwise.
  lemma TagIs(cfg: Config, rank: nat, f: Entry)
    requires ValidConfig(cfg) && rank < cfg.px && InBox(cfg.d, f.cube)
    ensures AllX(f, 0) ==> Boundary(cfg, rank, f) == if rank == 0 then cfg.tags.minX else 0
    ensures AllX(f, cfg.d.nx) ==> Boundary(cfg, rank, f) == if rank == cfg.px - 1 then cfg.tags.maxX else 0
    ensures AllY(f, 0) ==> Boundary(cfg, rank, f) == cfg.tags.minY
    ensures AllY(f, cfg.d.ny) ==> Boundary(cfg, rank, f) == cfg.tags.maxY
    ensures AllZ(f, 0) ==> Boundary(cfg, rank, f) == cfg.tags.minZ
    ensures AllZ(f, cfg.d.nz) ==> Boundary(cfg, rank, f) == cfg.tags.maxZ
    ensures Inside(cfg.d, f) ==> Boundary(cfg, rank, f) == 0
  {
    hide AllX, AllY, AllZ, StepAt, Valid;
    PlanesAre(cfg.d, f);
    NoInnerBorder(cfg.d);
  }

  /** elemBoundaries: a side in a border plane of the whole box has the tag of that plane, periodic or
      not, and every other side has none. */
  lemma BorderTags(mesh: G.CubeGenerator, f: Entry)
    requires mesh.Generated() && InBox(mesh.cfg.d, f.cube)
    ensures var tag, d, tags := mesh.elemBoundaries[SlotOf(mesh.cfg.d, f)], mesh.cfg.d, mesh.cfg.tags;
            && (AllX(f, 0) ==> tag == if mesh.rank == 0 then tags.minX else 0)
            && (AllX(f, d.nx) ==> tag == if mesh.rank == mesh.cfg.px - 1 then tags.maxX else 0)
            && (AllY(f, 0) ==> tag == tags.minY) && (AllY(f, d.ny) ==> tag == tags.maxY)
            && (AllZ(f, 0) ==> tag == tags.minZ) && (AllZ(f, d.nz) ==> tag == tags.maxZ)
            && (Inside(d, f) ==> tag == 0)
  {
    hide *;
    ArraysHold(mesh, f);
    TagIs(mesh.cfg, mesh.rank, f);
  }

  lemma RankIs(cfg: Config, rank: nat, f: Entry)
    requires ValidConfig(cfg) && rank < cfg.px && InBox(cfg.d, f.cube)
    ensures AllX(f, 0) ==>
              NeighborRank(cfg, rank, f) == if rank > 0 then rank - 1 else if cfg.tags.minX == 6 then cfg.px - 1 else 0
    ensures AllX(f, cfg.d.nx) ==>
              NeighborRank(cfg, rank, f) == if rank < cfg.px - 1 then rank + 1 else if cfg.tags.maxX == 6 then 0 else rank
    ensures !AllX(f, 0) && !AllX(f, cfg.d.nx) ==> NeighborRank(cfg, rank, f) == rank
  {
    hide AllX, AllY, AllZ, StepAt, Valid, RankBehind;
    PlanesAre(cfg.d, f);
    RanksBehind(cfg, rank);
  }

  /** elemNeighborRanks: the next rank behind the x planes, around the box if they are periodic, and the
      own rank everywhere else. */
  lemma BorderRanks(mesh: G.CubeGenerator, f: Entry)
    requires mesh.Generated() && InBox(mesh.cfg.d, f.cube)
    ensures var other, rank, px := mesh.elemNeighborRanks[SlotOf(mesh.cfg.d, f)], mesh.rank, mesh.cfg.px;
            && (AllX(f, 0) ==> other == if rank > 0 then rank - 1 else if mesh.cfg.tags.minX == 6 then px - 1 else 0)
            && (AllX(f, mesh.cfg.d.nx) ==>
                  other == if rank < px - 1 then rank + 1 else if mesh.cfg.tags.maxX == 6 then 0 else rank)
            && (!AllX(f, 0) && !AllX(f, mesh.cfg.d.nx) ==> other == rank)
  {
    hide *;
    ArraysHold(mesh, f);
    RankIs(mesh.cfg, mesh.rank, f);
  }

  // Side f lies in a plane that is not glued to the opposite one within the rank.
  ghost predicate Unglued(cfg: Config, f: Entry) {
    || (AllX(f, 0) && !(cfg.tags.minX == 6 && cfg.px == 1)) || (AllX(f, cfg.d.nx) && !(cfg.tags.maxX == 6 && cfg.px == 1))
    || (AllY(f, 0) && cfg.tags.minY != 6) || (AllY(f, cfg.d.ny) && cfg.tags.maxY != 6)
    || (AllZ(f, 0) && cfg.tags.minZ != 6) || (AllZ(f, cfg.d.nz) && cfg.tags.maxZ != 6)
  }

  // Side f lies in a plane of the whole box that is not periodic.
  ghost predicate Outside(cfg: Config, rank: nat, f: Entry) {
    || (AllX(f, 0) && rank == 0 && cfg.tags.minX != 6) || (AllX(f, cfg.d.nx) && rank == cfg.px - 1 && cfg.tags.maxX != 6)
    || (AllY(f, 0) && cfg.tags.minY != 6) || (AllY(f, cfg.d.ny) && cfg.tags.maxY != 6)
    || (AllZ(f, 0) && cfg.tags.minZ != 6) || (AllZ(f, cfg.d.nz) && cfg.tags.maxZ != 6)
  }

  lemma SentinelIs(cfg: Config, f: Entry)
    requires ValidConfig(cfg) && InBox(cfg.d, f.cube)
    ensures Neighbor(cfg, f) == NumElems(cfg.d) <==> Unglued(cfg, f)
  {
    hide AllX, AllY, AllZ, StepAt, Valid, CubeBehind, NumCubes;
    PlanesAre(cfg.d, f);
    NoInnerBorder(cfg.d);
  }

  lemma OutsideIs(cfg: Config, rank: nat, f: Entry)
    requires ValidConfig(cfg) && InBox(cfg.d, f.cube)
    ensures IsFree(cfg, rank, f) <==> Outside(cfg, rank, f)
  {
    hide AllX, AllY, AllZ, StepAt, Valid;
    PlanesAre(cfg.d, f);
    NoInnerBorder(cfg.d);
  }

  lemma ElementsAre(d: Dims)
    ensures NumElems(d) == 5 * (d.nx * d.ny * d.nz)
  {
    CubeCountIsSourceCount(d);
    ProductsReorder(d.nx, d.ny, d.nz);
  }

  /** elemNeighbors: the number of elements stands exactly at the sides in planes that are not glued. */
  lemma BorderSentinel(mesh: G.CubeGenerator, f: Entry)
    requires mesh.Generated() && InBox(mesh.cfg.d, f.cube)
    ensures var d := mesh.cfg.d;
            (mesh.elemNeighbors[SlotOf(d, f)] == 5 * (d.nx * d.ny * d.nz) <==> Unglued(mesh.cfg, f))
  {
    hide *;
    ArraysHold(mesh, f);
    SentinelIs(mesh.cfg, f);
    ElementsAre(mesh.cfg.d);
  }

  /** elemNeighborSides and elemSideOrientations: zero at the sides in planes of the box that are not
      periodic, the rows of the tables everywhere else. */
  lemma BorderSides(mesh: G.CubeGenerator, f: Entry)
    requires mesh.Generated() && InBox(mesh.cfg.d, f.cube)
    ensures var i := SlotOf(mesh.cfg.d, f);
            var side, turn := mesh.elemNeighborSides[i], mesh.elemSideOrientations[i];
            if Outside(mesh.cfg, mesh.rank, f) then side == 0 && turn == 0
            else side == TetSideNeighbor(OddOf(f.cube), f.tet, f.j) && turn == TetSideOrientation(OddOf(f.cube), f.tet, f.j)
  {
    hide TetSideNeighbor, TetSideOrientation, OddOf, Outside, SlotOf, IsFree;
    ArraysHold(mesh, f);
    OutsideIs(mesh.cfg, mesh.rank, f);
  }

  // Row by row, two sides a cube, the one of tetrahedron first before the other.
  lemma PlaceIs(d: Dims, f: Entry)
    requires Valid(d) && InBox(d, f.cube)
    ensures AllX(f, 0) ==> X.IndexOf(d, f) == 2 * (f.cube.z * d.ny + f.cube.y) + if f.tet == 0 then 0 else 1
    ensures AllX(f, d.nx) ==> X.IndexOf(d, f) == 2 * (f.cube.z * d.ny + f.cube.y) + if f.tet == 1 then 0 else 1
  {
    hide AllX, AllY, AllZ, StepOf, OddOf, Valid;
    PlanesAre(d, f);
    TimesIsProduct(f.cube.z, d.ny);
  }

  /** elemMPIIndices: towards another rank, the sides of a plane are numbered row by row, two for each
      cube, the one of tetrahedron 0 first in the first x plane and that of tetrahedron 1 in the last. */
  lemma BorderPlaces(mesh: G.CubeGenerator, f: Entry)
    requires mesh.Generated() && InBox(mesh.cfg.d, f.cube)
    ensures var place, row := mesh.elemMPIIndices[SlotOf(mesh.cfg.d, f)], f.cube.z * mesh.cfg.d.ny + f.cube.y;
            && (AllX(f, 0) && mesh.rank > 0 ==> place == 2 * row + if f.tet == 0 then 0 else 1)
            && (AllX(f, mesh.cfg.d.nx) && mesh.rank + 1 < mesh.cfg.px ==> place == 2 * row + if f.tet == 1 then 0 else 1)
  {
    hide *;
    ArraysHold(mesh, f);
    PlaceIs(mesh.cfg.d, f);
    PlanesAre(mesh.cfg.d, f);
    if AllX(f, 0) && mesh.rank > 0 {
      T.PlaceStored(mesh, XMin, f);
    }
    if AllX(f, mesh.cfg.d.nx) && mesh.rank + 1 < mesh.cfg.px {
      T.PlaceStored(mesh, XMax, f);
    }
  }
}
