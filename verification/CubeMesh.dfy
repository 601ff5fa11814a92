/** The mesh of one rank: for every side the neighbour, its side, the orientation, the tag, the rank. */
module CubeMesh {
  import opened CubeTables
  import opened CubeLayout

  datatype Tags = Tags(minX: int, maxX: int, minY: int, maxY: int, minZ: int, maxZ: int)

  // The partition box of one rank, the number of ranks along x, and the boundary tags.
  // There is one partition along y and one along z.
  datatype Config = Config(d: Dims, px: nat, tags: Tags)

  const PERIODIC := 6

  predicate ValidConfig(cfg: Config) {
    Valid(cfg.d) && cfg.px >= 1
  }

  function TagOf(cfg: Config, dir: Dir): (r: int) {
    match dir
    case XMin => cfg.tags.minX
    case XMax => cfg.tags.maxX
    case YMin => cfg.tags.minY
    case YMax => cfg.tags.maxY
    case ZMin => cfg.tags.minZ
    case ZMax => cfg.tags.maxZ
    case Inner => 0
  }

  ghost predicate AtBorder(d: Dims, q: Cube, dir: Dir) {
    match dir
    case XMin => q.x == 0
    case XMax => q.x == d.nx - 1
    case YMin => q.y == 0
    case YMax => q.y == d.ny - 1
    case ZMin => q.z == 0
    case ZMax => q.z == d.nz - 1
    case Inner => false
  }

  lemma NoInnerBorder(d: Dims)
    ensures forall q :: !AtBorder(d, q, Inner)
  {}

  ghost function StepAt(f: Entry): (r: Step) {
    StepOf(OddOf(f.cube), f.tet, f.j)
  }

  // Side f lies in the border plane dir of the partition box.
  ghost predicate OnBorder(d: Dims, f: Entry, dir: Dir) {
    StepAt(f).dir == dir && AtBorder(d, f.cube, dir)
  }

  // The border plane dir is glued to the opposite one within the same rank.
  predicate Wraps(cfg: Config, dir: Dir) {
    TagOf(cfg, dir) == PERIODIC && (dir == XMin || dir == XMax ==> cfg.px == 1)
  }

  // The border plane dir of this rank is also a border plane of the whole box.
  predicate Outermost(cfg: Config, rank: nat, dir: Dir) {
    match dir
    case XMin => rank == 0
    case XMax => rank == cfg.px - 1
    case _ => true
  }

  // Another rank lies behind the border plane dir.
  predicate LinksRanks(cfg: Config, rank: nat, dir: Dir) {
    match dir
    case XMin => (cfg.tags.minX == PERIODIC && cfg.px > 1) || rank != 0
    case XMax => (cfg.tags.maxX == PERIODIC && cfg.px > 1) || rank != cfg.px - 1
    case _ => false
  }

  function RankBehind(cfg: Config, rank: nat, dir: Dir): (r: int)
    requires cfg.px >= 1
  {
    match dir
    case XMin => (rank - 1 + cfg.px) % cfg.px
    case XMax => (rank + 1) % cfg.px
    case _ => rank
  }

  /** The cube behind plane dir, counted around the box at its border. */
  ghost function CubeBehind(d: Dims, q: Cube, dir: Dir): (r: Cube) {
    match dir
    case XMin => q.(x := if q.x == 0 then d.nx - 1 else q.x - 1)
    case XMax => q.(x := if q.x == d.nx - 1 then 0 else q.x + 1)
    case YMin => q.(y := if q.y == 0 then d.ny - 1 else q.y - 1)
    case YMax => q.(y := if q.y == d.ny - 1 then 0 else q.y + 1)
    case ZMin => q.(z := if q.z == 0 then d.nz - 1 else q.z - 1)
    case ZMax => q.(z := if q.z == d.nz - 1 then 0 else q.z + 1)
    case Inner => q
  }

  /** Element behind a side, or the number of elements where the rank has none. */
  ghost function Neighbor(cfg: Config, f: Entry): (r: nat)
    requires ValidConfig(cfg) && InBox(cfg.d, f.cube)
  {
    var st := StepAt(f);
    if AtBorder(cfg.d, f.cube, st.dir) && !Wraps(cfg, st.dir) then NumElems(cfg.d)
    else ElemOf(cfg.d, CubeBehind(cfg.d, f.cube, st.dir), st.tet)
  }

  ghost function Boundary(cfg: Config, rank: nat, f: Entry): (r: int) {
    var dir := StepAt(f).dir;
    if AtBorder(cfg.d, f.cube, dir) && Outermost(cfg, rank, dir) then TagOf(cfg, dir) else 0
  }

  // A side on the border of the whole box that is not glued to another side.
  ghost predicate IsFree(cfg: Config, rank: nat, f: Entry) {
    var dir := StepAt(f).dir;
    AtBorder(cfg.d, f.cube, dir) && Outermost(cfg, rank, dir) && TagOf(cfg, dir) != PERIODIC
  }

  ghost function NeighborSide(cfg: Config, rank: nat, f: Entry): (r: Four) {
    if IsFree(cfg, rank, f) then 0 else TetSideNeighbor(OddOf(f.cube), f.tet, f.j)
  }

  ghost function SideOrientation(cfg: Config, rank: nat, f: Entry): (r: Three) {
    if IsFree(cfg, rank, f) then 0 else TetSideOrientation(OddOf(f.cube), f.tet, f.j)
  }

  ghost function NeighborRank(cfg: Config, rank: nat, f: Entry): (r: int)
    requires cfg.px >= 1
  {
    var dir := StepAt(f).dir;
    if AtBorder(cfg.d, f.cube, dir) && LinksRanks(cfg, rank, dir) then RankBehind(cfg, rank, dir) else rank
  }

  /** Lattice point of a corner, in cubes from the origin of the partition box. */
  ghost function CornerPoint(q: Cube, t: Tet, j: Four): (r: Point) {
    var v := TetVertex(OddOf(q), t, j);
    Point(v.x + q.x, v.y + q.y, v.z + q.z)
  }

  ghost function FacePoint(f: Entry, k: Three): (r: Point) {
    CornerPoint(f.cube, f.tet, FaceCorner(f.j, k))
  }
}
