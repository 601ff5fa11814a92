/** Where a side lies: inside the rank, at the border to another rank, or at that of the whole box. */
module CubeBorder {
  import opened CubeTables
  import opened CubeLayout
  import opened CubeMesh
  import opened CubeTriangles

  // Point p lies in the border plane dir of the partition box.
  ghost predicate InPlane(d: Dims, p: Point, dir: Dir) {
    match dir
    case XMin => p.x == 0
    case XMax => p.x == d.nx
    case YMin => p.y == 0
    case YMax => p.y == d.ny
    case ZMin => p.z == 0
    case ZMax => p.z == d.nz
    case Inner => false
  }

  ghost predicate LiesIn(d: Dims, f: Entry, dir: Dir) {
    InPlane(d, FacePoint(f, 0), dir) && InPlane(d, FacePoint(f, 1), dir) && InPlane(d, FacePoint(f, 2), dir)
  }

  /** The step table tells the truth: a side is on a border plane exactly when its three corners
      lie in that plane. */
  lemma OnBorderIffLiesIn(d: Dims, f: Entry, dir: Dir)
    requires Valid(d) && InBox(d, f.cube)
    ensures OnBorder(d, f, dir) <==> LiesIn(d, f, dir)
  {
    hide TetVertex, FaceCorner, StepOf, OddOf;
    var odd := OddOf(f.cube);
    VertexInCube(odd, f.tet, FaceCorner(f.j, 0));
    VertexInCube(odd, f.tet, FaceCorner(f.j, 1));
    VertexInCube(odd, f.tet, FaceCorner(f.j, 2));
    SumFitsX(odd, f.tet, f.j);
    SumFitsY(odd, f.tet, f.j);
    SumFitsZ(odd, f.tet, f.j);
  }

  // No border is periodic, and every border carries a tag.
  ghost predicate PlainTags(cfg: Config) {
    forall dir | dir != Inner :: TagOf(cfg, dir) != PERIODIC && TagOf(cfg, dir) != 0
  }

  ghost predicate LocalInterior(cfg: Config, rank: nat, f: Entry)
    requires ValidConfig(cfg) && InBox(cfg.d, f.cube)
  {
    Neighbor(cfg, f) < NumElems(cfg.d) && NeighborRank(cfg, rank, f) == rank && Boundary(cfg, rank, f) == 0
  }

  ghost predicate RankBorder(cfg: Config, rank: nat, f: Entry, other: int)
    requires ValidConfig(cfg) && InBox(cfg.d, f.cube)
  {
    && Neighbor(cfg, f) == NumElems(cfg.d)
    && NeighborRank(cfg, rank, f) == other && 0 <= other < cfg.px && other != rank
    && Boundary(cfg, rank, f) == 0
  }

  ghost predicate DomainBorder(cfg: Config, rank: nat, f: Entry, dir: Dir)
    requires ValidConfig(cfg) && InBox(cfg.d, f.cube)
  {
    && Neighbor(cfg, f) == NumElems(cfg.d)
    && NeighborRank(cfg, rank, f) == rank
    && Boundary(cfg, rank, f) == TagOf(cfg, dir) != 0
    && NeighborSide(cfg, rank, f) == 0 && SideOrientation(cfg, rank, f) == 0
  }

  ghost function OtherRank(rank: nat, dir: Dir): (r: int) {
    if dir == XMin then rank - 1 else rank + 1
  }

  /** Every side is of exactly one kind, and its corners decide which: no border plane, a plane
      shared with the next rank, or a plane of the whole box with its own tag. */
  lemma SideKinds(cfg: Config, rank: nat, f: Entry)
    requires ValidConfig(cfg) && rank < cfg.px && InBox(cfg.d, f.cube) && PlainTags(cfg)
    ensures (forall dir :: !LiesIn(cfg.d, f, dir)) ==> LocalInterior(cfg, rank, f)
    ensures forall dir | LiesIn(cfg.d, f, dir) ::
              if Outermost(cfg, rank, dir) then DomainBorder(cfg, rank, f, dir)
              else (dir == XMin || dir == XMax) && RankBorder(cfg, rank, f, OtherRank(rank, dir))
  {
    var st := StepAt(f);
    forall dir ensures OnBorder(cfg.d, f, dir) <==> LiesIn(cfg.d, f, dir) {
      OnBorderIffLiesIn(cfg.d, f, dir);
    }
    hide LiesIn, StepOf, OddOf, CubeBehind, RankBehind;
    RanksBehind(cfg, rank);
    assert AtBorder(cfg.d, f.cube, st.dir) <==> LiesIn(cfg.d, f, st.dir);
    forall dir | LiesIn(cfg.d, f, dir)
      ensures if Outermost(cfg, rank, dir) then DomainBorder(cfg, rank, f, dir)
              else (dir == XMin || dir == XMax) && RankBorder(cfg, rank, f, OtherRank(rank, dir))
    {
      assert OnBorder(cfg.d, f, dir);
      assert TagOf(cfg, dir) != PERIODIC;
    }
  }

  lemma RanksBehind(cfg: Config, rank: nat)
    requires rank < cfg.px
    ensures rank > 0 ==> RankBehind(cfg, rank, XMin) == rank - 1
    ensures rank < cfg.px - 1 ==> RankBehind(cfg, rank, XMax) == rank + 1
    ensures rank == 0 ==> RankBehind(cfg, rank, XMin) == cfg.px - 1
    ensures rank == cfg.px - 1 ==> RankBehind(cfg, rank, XMax) == 0
  {
    ModOnce(rank - 1 + cfg.px, cfg.px);
    ModOnce(rank + 1, cfg.px);
  }

  lemma ModOnce(a: int, n: int)
    requires 0 <= a < 2 * n
    ensures a % n == if a < n then a else a - n
  {
    if a >= n {
      assert a == (a - n) + n;
      assert (a / n - 1) * n == a / n * n - n;
    }
  }
}
