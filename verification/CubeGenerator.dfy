/** The mesh object of one rank, built in one go. */
module CubeGenerator {
  import opened CubeTables
  import opened CubeLayout
  import opened CubeMesh
  import opened CubeConformity
  import F = CubeFill
  import V = CubeVertices
  import I = CubeIncidence
  import X = CubeExchange

  datatype MPINeighbor = MPINeighbor(localId: int, elements: seq<int>)

  // The elements on the border to another rank, in the order they are exchanged.
  datatype ExchangeList = ExchangeList(rank: int, elements: seq<int>)

  // Size and centre of the whole box.
  datatype Placement = Placement(scaleX: real, scaleY: real, scaleZ: real, tx: real, ty: real, tz: real)

  datatype Coords = Coords(x: real, y: real, z: real)

  /** The list of border plane dir: every side knows its place, its place holds its element. */
  ghost predicate ListFits(cfg: Config, rank: nat, dir: Dir, mpi: array<int>, l: ExchangeList)
    requires ValidConfig(cfg) && F.Fits(cfg.d, mpi)
    reads mpi
  {
    && l.rank == RankBehind(cfg, rank, dir)
    && |l.elements| == X.ListSize(cfg.d)
    && forall f: Entry | InBox(cfg.d, f.cube) && OnBorder(cfg.d, f, dir) ::
         && mpi[SlotOf(cfg.d, f)] == X.IndexOf(cfg.d, f) < |l.elements|
         && l.elements[X.IndexOf(cfg.d, f)] == ElemOf(cfg.d, f.cube, f.tet)
  }

  /** elemMPIIndices and the exchange lists of one rank: first the border to the rank before, then
      the border to the rank after. */
  ghost predicate HoldsExchange(cfg: Config, rank: nat, mpi: array<int>, lists: seq<ExchangeList>)
    requires ValidConfig(cfg) && F.Fits(cfg.d, mpi)
    reads mpi
  {
    var min, max := LinksRanks(cfg, rank, XMin), LinksRanks(cfg, rank, XMax);
    && |lists| == (if min then 1 else 0) + (if max then 1 else 0)
    && (min ==> ListFits(cfg, rank, XMin, mpi, lists[0]))
    && (max ==> ListFits(cfg, rank, XMax, mpi, lists[|lists| - 1]))
    && (forall f: Entry | InBox(cfg.d, f.cube) && !(min && OnBorder(cfg.d, f, XMin)) && !(max && OnBorder(cfg.d, f, XMax)) ::
          mpi[SlotOf(cfg.d, f)] == 0)
  }

  /** bndLocalIds: room for the largest border. */
  method NewBorderIds(d: Dims) returns (bnd: array<int>)
    ensures fresh(bnd) && bnd.Length >= X.ListSize(d)
  {
    TimesIsProduct(d.nz, d.ny);
    var sizeX, sizeY, sizeZ := 2 * (d.nz * d.ny), 2 * (d.nx * d.nz), 2 * (d.nx * d.ny);
    var largest := if sizeX >= sizeY then sizeX else sizeY;
    bnd := new int[if largest >= sizeZ then largest else sizeZ];
  }

  method ComputeMinXList(cfg: Config, rank: nat, mpi: array<int>, bnd: array<int>) returns (l: ExchangeList)
    requires ValidConfig(cfg) && F.Fits(cfg.d, mpi) && bnd.Length >= X.ListSize(cfg.d) && mpi != bnd
    modifies mpi, bnd
    ensures ListFits(cfg, rank, XMin, mpi, l) && X.OthersUnchanged(cfg.d, XMin, mpi)
  {
    hide SlotOf, X.IndexOf, OnBorder, ElemOf, NumCubes, RankBehind, X.ListSize;
    var next := X.BuildMinXList(cfg.d, mpi, bnd);
    PlacesFit(cfg.d, XMin);
    l := ExchangeList(RankBehind(cfg, rank, XMin), bnd[..next]);
  }

  method ComputeMaxXList(cfg: Config, rank: nat, mpi: array<int>, bnd: array<int>) returns (l: ExchangeList)
    requires ValidConfig(cfg) && F.Fits(cfg.d, mpi) && bnd.Length >= X.ListSize(cfg.d) && mpi != bnd
    modifies mpi, bnd
    ensures ListFits(cfg, rank, XMax, mpi, l) && X.OthersUnchanged(cfg.d, XMax, mpi)
  {
    hide SlotOf, X.IndexOf, OnBorder, ElemOf, NumCubes, RankBehind, X.ListSize;
    var next := X.BuildMaxXList(cfg.d, mpi, bnd);
    PlacesFit(cfg.d, XMax);
    l := ExchangeList(RankBehind(cfg, rank, XMax), bnd[..next]);
  }

  lemma PlacesFit(d: Dims, dir: Dir)
    requires dir == XMin || dir == XMax
    ensures forall f: Entry | InBox(d, f.cube) && OnBorder(d, f, dir) :: X.IndexOf(d, f) < X.ListSize(d)
  {
    forall f: Entry | InBox(d, f.cube) && OnBorder(d, f, dir)
      ensures X.IndexOf(d, f) < X.ListSize(d)
    {
      X.RowsBelow(d, f.cube.y, f.cube.z);
    }
  }

  method ComputeExchange(cfg: Config, rank: nat, mpi: array<int>) returns (lists: seq<ExchangeList>)
    requires ValidConfig(cfg) && rank < cfg.px && F.Fits(cfg.d, mpi)
    modifies mpi
    ensures HoldsExchange(cfg, rank, mpi, lists)
  {
    hide SlotOf, X.IndexOf, StepOf, OddOf, ElemOf, NumCubes, RankBehind, X.ListSize, LinksRanks;
    var bnd := NewBorderIds(cfg.d);
    forall i | 0 <= i < mpi.Length {
      mpi[i] := 0;
    }
    lists := [];
    if LinksRanks(cfg, rank, XMin) {
      var l := ComputeMinXList(cfg, rank, mpi, bnd);
      lists := lists + [l];
    }
    if LinksRanks(cfg, rank, XMax) {
      var l := ComputeMaxXList(cfg, rank, mpi, bnd);
      lists := lists + [l];
    }
  }

  /** Position of a lattice point of one rank, in exact arithmetic. */
  function PositionOf(cfg: Config, rank: nat, at: Placement, p: Point): (r: Coords)
    requires ValidConfig(cfg)
  {
    assert cfg.d.nx * cfg.px > 0;
    Coords(X.Coordinate(p.x, rank, cfg.d.nx, cfg.d.nx * cfg.px, at.scaleX, at.tx),
           X.Coordinate(p.y, 0, cfg.d.ny, cfg.d.ny, at.scaleY, at.ty),
           X.Coordinate(p.z, 0, cfg.d.nz, cfg.d.nz, at.scaleZ, at.tz))
  }

  // The vertex with the number of a lattice point is placed there.
  ghost predicate HoldsCoords(cfg: Config, rank: nat, at: Placement, m: map<Point, int>, coords: array<Coords>)
    requires ValidConfig(cfg)
    reads coords
  {
    coords.Length == |m| && forall p | p in m :: 0 <= m[p] < |m| && coords[m[p]] == PositionOf(cfg, rank, at, p)
  }

  method ComputeCoords(cfg: Config, rank: nat, at: Placement, m: map<Point, int>) returns (coords: array<Coords>)
    requires ValidConfig(cfg) && V.Numbers(m, V.Lattice(cfg.d))
    ensures fresh(coords) && HoldsCoords(cfg, rank, at, m, coords)
  {
    hide PositionOf, V.Lattice;
    var unique := V.FlipMap(m, V.Lattice(cfg.d));
    coords := new Coords[|m|](_ => Coords(0.0, 0.0, 0.0));
    for i := 0 to |m|
      invariant forall k | 0 <= k < i :: coords[k] == PositionOf(cfg, rank, at, unique[k])
    {
      coords[i] := PositionOf(cfg, rank, at, unique[i]);
    }
  }

  /** The mesh neighbours after registering a list: the newest entry of a rank wins. */
  ghost function Registered(lists: seq<ExchangeList>, n: nat): (r: map<int, MPINeighbor>)
    requires n <= |lists|
  {
    if n == 0 then map[]
    else Registered(lists, n - 1)[lists[n - 1].rank := MPINeighbor(n - 1, lists[n - 1].elements)]
  }

  // One slot for each side or corner of each element.
  method NewSlots(d: Dims) returns (a: array<int>)
    ensures fresh(a) && F.Fits(d, a)
  {
    CubeCountIsSourceCount(d);
    a := new int[20 * (d.nz * (d.ny * d.nx))];
  }

  method NewNeighbors(cfg: Config) returns (a: array<int>)
    requires ValidConfig(cfg)
    ensures fresh(a) && F.Fits(cfg.d, a) && F.HoldsNeighbors(cfg, a)
  {
    a := NewSlots(cfg.d);
    F.ComputeNeighbors(cfg, a);
  }

  method NewBoundaries(cfg: Config, rank: nat) returns (a: array<int>)
    requires ValidConfig(cfg) && rank < cfg.px
    ensures fresh(a) && F.Fits(cfg.d, a) && F.HoldsBoundaries(cfg, rank, a)
  {
    a := NewSlots(cfg.d);
    F.ComputeBoundaries(cfg, rank, a);
  }

  method NewNeighborSides(cfg: Config, rank: nat) returns (a: array<int>)
    requires ValidConfig(cfg) && rank < cfg.px
    ensures fresh(a) && F.Fits(cfg.d, a) && F.HoldsNeighborSides(cfg, rank, a)
  {
    a := NewSlots(cfg.d);
    F.ComputeNeighborSides(cfg, rank, a);
  }

  method NewSideOrientations(cfg: Config, rank: nat) returns (a: array<int>)
    requires ValidConfig(cfg) && rank < cfg.px
    ensures fresh(a) && F.Fits(cfg.d, a) && F.HoldsSideOrientations(cfg, rank, a)
  {
    a := NewSlots(cfg.d);
    F.ComputeSideOrientations(cfg, rank, a);
  }

  method NewNeighborRanks(cfg: Config, rank: nat) returns (a: array<int>)
    requires ValidConfig(cfg) && rank < cfg.px
    ensures fresh(a) && F.Fits(cfg.d, a) && F.HoldsNeighborRanks(cfg, rank, a)
  {
    a := NewSlots(cfg.d);
    F.ComputeNeighborRanks(cfg, rank, a);
  }

  // The five arrays about what lies behind the sides.
  method NewSides(cfg: Config, rank: nat)
    returns (neighbors: array<int>, boundaries: array<int>, sides: array<int>, orientations: array<int>, ranks: array<int>)
    requires ValidConfig(cfg) && rank < cfg.px
    ensures fresh(neighbors) && F.Fits(cfg.d, neighbors) && F.HoldsNeighbors(cfg, neighbors)
    ensures fresh(boundaries) && F.Fits(cfg.d, boundaries) && F.HoldsBoundaries(cfg, rank, boundaries)
    ensures fresh(sides) && F.Fits(cfg.d, sides) && F.HoldsNeighborSides(cfg, rank, sides)
    ensures fresh(orientations) && F.Fits(cfg.d, orientations) && F.HoldsSideOrientations(cfg, rank, orientations)
    ensures fresh(ranks) && F.Fits(cfg.d, ranks) && F.HoldsNeighborRanks(cfg, rank, ranks)
  {
    hide F.HoldsNeighbors, F.HoldsBoundaries, F.HoldsNeighborSides, F.HoldsSideOrientations, F.HoldsNeighborRanks, F.Fits;
    neighbors := NewNeighbors(cfg);
    boundaries := NewBoundaries(cfg, rank);
    sides := NewNeighborSides(cfg, rank);
    orientations := NewSideOrientations(cfg, rank);
    ranks := NewNeighborRanks(cfg, rank);
  }

  method NewVertices(d: Dims) returns (ids: array<int>, m: map<Point, int>)
    requires Valid(d)
    ensures fresh(ids) && F.Fits(d, ids) && V.HoldsVertices(d, ids, m)
  {
    ids := NewSlots(d);
    m := V.ComputeVertices(d, ids);
  }

  method NewExchange(cfg: Config, rank: nat) returns (mpi: array<int>, lists: seq<ExchangeList>)
    requires ValidConfig(cfg) && rank < cfg.px
    ensures fresh(mpi) && F.Fits(cfg.d, mpi) && HoldsExchange(cfg, rank, mpi, lists)
  {
    mpi := NewSlots(cfg.d);
    lists := ComputeExchange(cfg, rank, mpi);
  }

  // The elements at every vertex.
  ghost predicate HoldsIncidence(ids: array<int>, lists: array<seq<int>>)
    reads ids, lists
  {
    forall v | 0 <= v < lists.Length :: lists[v] == I.Incident(ids[..], v, ids.Length)
  }

  lemma WholeElements(d: Dims, ids: array<int>)
    requires F.Fits(d, ids)
    ensures ids.Length % 4 == 0
  {
    hide NumCubes;
  }

  method NewIncidence(d: Dims, ids: array<int>, m: map<Point, int>) returns (lists: array<seq<int>>)
    requires F.Fits(d, ids) && V.HoldsVertices(d, ids, m)
    ensures fresh(lists) && lists.Length == |m| && HoldsIncidence(ids, lists)
  {
    hide V.HoldsVertices, I.CornersDistinct, I.Numbered, I.Incident, F.Fits, NumCubes;
    WholeElements(d, ids);
    I.MeshCornersDistinct(d, ids, m);
    lists := new seq<int>[|m|](_ => []);
    I.FindElementsPerVertex(ids, lists);
  }

  class CubeGenerator {
    const cfg: Config
    const rank: nat
    const at: Placement
    const elemVertices: array<int>
    const elemNeighbors: array<int>
    const elemBoundaries: array<int>
    const elemNeighborSides: array<int>
    const elemSideOrientations: array<int>
    const elemNeighborRanks: array<int>
    const elemMPIIndices: array<int>
    const vertexCoords: array<Coords>
    const vertexElements: array<seq<int>>
    ghost const vertexMap: map<Point, int>
    ghost const exchange: seq<ExchangeList>
    var mpiNeighbors: map<int, MPINeighbor>

    ghost predicate Sized()
    {
      && ValidConfig(cfg) && rank < cfg.px
      && F.Fits(cfg.d, elemVertices) && F.Fits(cfg.d, elemNeighbors) && F.Fits(cfg.d, elemBoundaries)
      && F.Fits(cfg.d, elemNeighborSides) && F.Fits(cfg.d, elemSideOrientations)
      && F.Fits(cfg.d, elemNeighborRanks) && F.Fits(cfg.d, elemMPIIndices)
    }

    /** All arrays hold what the mesh has in their slots. */
    ghost predicate Generated()
      reads this, elemVertices, elemNeighbors, elemBoundaries, elemNeighborSides, elemSideOrientations,
            elemNeighborRanks, elemMPIIndices, vertexCoords, vertexElements
    {
      && Sized()
      && V.HoldsVertices(cfg.d, elemVertices, vertexMap)
      && F.HoldsNeighbors(cfg, elemNeighbors)
      && F.HoldsBoundaries(cfg, rank, elemBoundaries)
      && F.HoldsNeighborSides(cfg, rank, elemNeighborSides)
      && F.HoldsSideOrientations(cfg, rank, elemSideOrientations)
      && F.HoldsNeighborRanks(cfg, rank, elemNeighborRanks)
      && HoldsExchange(cfg, rank, elemMPIIndices, exchange)
      && HoldsCoords(cfg, rank, at, vertexMap, vertexCoords)
      && vertexElements.Length == |vertexMap|
      && HoldsIncidence(elemVertices, vertexElements)
      && mpiNeighbors == Registered(exchange, |exchange|)
    }

    constructor (cfg: Config, rank: nat, at: Placement)
      requires ValidConfig(cfg) && rank < cfg.px
      ensures Generated() && this.cfg == cfg && this.rank == rank && this.at == at
    {
      hide F.HoldsNeighbors, F.HoldsBoundaries, F.HoldsNeighborSides, F.HoldsSideOrientations, F.HoldsNeighborRanks;
      hide V.HoldsVertices, V.Numbers, HoldsExchange, HoldsCoords, HoldsIncidence, Registered, NumCubes, Valid;
      hide F.Fits, V.Lattice;
      this.cfg, this.rank, this.at := cfg, rank, at;
      var ids, m := NewVertices(cfg.d);
      var neighbors, boundaries, sides, orientations, ranks := NewSides(cfg, rank);
      var mpi, lists := NewExchange(cfg, rank);
      V.HeldNumbers(cfg.d, ids, m);
      var coords := ComputeCoords(cfg, rank, at, m);
      var elements := NewIncidence(cfg.d, ids, m);
      elemVertices, vertexMap, elemNeighbors, elemBoundaries := ids, m, neighbors, boundaries;
      elemNeighborSides, elemSideOrientations, elemNeighborRanks := sides, orientations, ranks;
      elemMPIIndices, exchange, vertexCoords, vertexElements := mpi, lists, coords, elements;
      new;
      RegisterNeighbors(lists);
    }

    method RegisterNeighbors(lists: seq<ExchangeList>)
      modifies this`mpiNeighbors
      ensures mpiNeighbors == Registered(lists, |lists|)
    {
      mpiNeighbors := map[];
      for i := 0 to |lists|
        invariant mpiNeighbors == Registered(lists, i)
      {
        AddMPINeighbor(i, lists[i].rank, lists[i].elements);
      }
    }

    /** addMPINeighbor. */
    method AddMPINeighbor(localId: int, bndRank: int, elements: seq<int>)
      modifies this`mpiNeighbors
      ensures mpiNeighbors == old(mpiNeighbors)[bndRank := MPINeighbor(localId, elements)]
    {
      mpiNeighbors := mpiNeighbors[bndRank := MPINeighbor(localId, elements)];
    }
  }
}
