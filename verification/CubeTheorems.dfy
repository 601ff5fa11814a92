/** What holds of the generated mesh objects themselves. */
module CubeTheorems {
  import opened CubeTables
  import opened CubeLayout
  import opened CubeMesh
  import opened CubeConformity
  import F = CubeFill
  import V = CubeVertices
  import I = CubeIncidence
  import X = CubeExchange
  import B = CubeBorder
  import G = CubeGenerator

  // The entry of corner k of side f.
  ghost function CornerEntry(f: Entry, k: Three): (r: Entry) {
    Entry(f.cube, f.tet, FaceCorner(f.j, k))
  }

  ghost function VertexId(mesh: G.CubeGenerator, f: Entry, k: Three): (r: int)
    requires mesh.Sized() && InBox(mesh.cfg.d, f.cube)
    reads mesh.elemVertices
  {
    mesh.elemVertices[SlotOf(mesh.cfg.d, CornerEntry(f, k))]
  }

  /** A side and the side its arrays name as its neighbour have the same three vertex numbers, in
      the order the stored orientation says. */
  lemma NeighborsShareVertices(mesh: G.CubeGenerator, f: Entry, g: Entry, k: Three)
    requires mesh.Generated() && InBox(mesh.cfg.d, f.cube) && InBox(mesh.cfg.d, g.cube)
    requires mesh.elemNeighbors[SlotOf(mesh.cfg.d, f)] == ElemOf(mesh.cfg.d, g.cube, g.tet)
    requires mesh.elemNeighborSides[SlotOf(mesh.cfg.d, f)] == g.j
    requires !AtBorder(mesh.cfg.d, f.cube, StepAt(f).dir)
    ensures 0 <= mesh.elemSideOrientations[SlotOf(mesh.cfg.d, f)] < 3
    ensures VertexId(mesh, f, k) == VertexId(mesh, g, Turned(mesh.elemSideOrientations[SlotOf(mesh.cfg.d, f)], k))
  {
    hide SlotOf, ElemOf, AtBorder, StepAt, FaceCorner, CornerPoint, NumCubes, Neighbor, NeighborSide, SideOrientation;
    var h := SideOrientation(mesh.cfg, mesh.rank, f);
    SidesConform(mesh.cfg, mesh.rank, f, g, k);
    V.SameIdIffSamePoint(mesh.cfg.d, mesh.elemVertices, mesh.vertexMap, CornerEntry(f, k), CornerEntry(g, Turned(h, k)));
  }

  ghost function PositionAt(mesh: G.CubeGenerator, f: Entry, k: Three): (r: G.Coords)
    requires mesh.Generated() && InBox(mesh.cfg.d, f.cube)
    requires 0 <= VertexId(mesh, f, k) < mesh.vertexCoords.Length
    reads mesh, mesh.elemVertices, mesh.elemNeighbors, mesh.elemBoundaries, mesh.elemNeighborSides,
          mesh.elemSideOrientations, mesh.elemNeighborRanks, mesh.elemMPIIndices, mesh.vertexCoords, mesh.vertexElements
  {
    mesh.vertexCoords[VertexId(mesh, f, k)]
  }

  /** Every corner has a position, that of its lattice point. */
  lemma CornerPosition(mesh: G.CubeGenerator, f: Entry, k: Three)
    requires mesh.Generated() && InBox(mesh.cfg.d, f.cube)
    ensures 0 <= VertexId(mesh, f, k) < mesh.vertexCoords.Length
    ensures PositionAt(mesh, f, k) == G.PositionOf(mesh.cfg, mesh.rank, mesh.at, FacePoint(f, k))
  {
    hide SlotOf, CornerPoint, NumCubes, FaceCorner, G.PositionOf;
    var e := CornerEntry(f, k);
    assert mesh.elemVertices[SlotOf(mesh.cfg.d, e)] == mesh.vertexMap[CornerPoint(e.cube, e.tet, e.j)];
  }

  lemma SidesStored(mesh: G.CubeGenerator, f: Entry)
    requires mesh.Generated() && InBox(mesh.cfg.d, f.cube)
    ensures mesh.elemNeighborRanks[SlotOf(mesh.cfg.d, f)] == NeighborRank(mesh.cfg, mesh.rank, f)
    ensures mesh.elemNeighborSides[SlotOf(mesh.cfg.d, f)] == NeighborSide(mesh.cfg, mesh.rank, f)
    ensures mesh.elemSideOrientations[SlotOf(mesh.cfg.d, f)] == SideOrientation(mesh.cfg, mesh.rank, f)
  {
    hide SlotOf, NumCubes, NeighborRank, NeighborSide, SideOrientation, F.HoldsNeighbors, F.HoldsBoundaries;
    hide V.HoldsVertices, G.HoldsIncidence, G.HoldsCoords, G.Registered, G.HoldsExchange;
  }

  lemma PlaceStored(mesh: G.CubeGenerator, dir: Dir, f: Entry)
    requires mesh.Generated() && InBox(mesh.cfg.d, f.cube) && OnBorder(mesh.cfg.d, f, dir)
    requires (dir == XMin && mesh.rank > 0) || (dir == XMax && mesh.rank + 1 < mesh.cfg.px)
    ensures mesh.elemMPIIndices[SlotOf(mesh.cfg.d, f)] == X.IndexOf(mesh.cfg.d, f)
  {
    hide SlotOf, NumCubes, OnBorder, ElemOf, RankBehind, X.IndexOf, X.ListSize, F.HoldsNeighbors, F.HoldsBoundaries;
    hide F.HoldsNeighborSides, F.HoldsSideOrientations, F.HoldsNeighborRanks, V.HoldsVertices, G.HoldsIncidence;
    hide G.HoldsCoords, G.Registered;
  }

  lemma PlacedAlike(cfg: Config, rank: nat, at: G.Placement, p: Point, q: Point)
    requires ValidConfig(cfg) && p.x == q.x + cfg.d.nx && p.y == q.y && p.z == q.z
    ensures G.PositionOf(cfg, rank, at, p) == G.PositionOf(cfg, rank + 1, at, q)
  {
    hide X.Coordinate;
    assert cfg.d.nx * cfg.px > 0;
    X.SharedCoordinate(q.x, rank, cfg.d.nx, cfg.d.nx * cfg.px, at.scaleX, at.tx);
  }

  lemma RanksKnown(a: G.CubeGenerator, b: G.CubeGenerator)
    requires a.Generated() && b.Generated() && a.cfg == b.cfg && b.rank == a.rank + 1
    ensures a.Sized() && b.Sized() && ValidConfig(a.cfg) && a.rank + 1 < a.cfg.px
  {}

  /** The meshes of two neighbouring ranks fit together: the entries with the same number in their
      two exchange lists are the two sides of one triangle, each names the rank and the side of the
      other, and the three corners are at the same points of space. */
  lemma ExchangeFits(a: G.CubeGenerator, b: G.CubeGenerator, f: Entry, g: Entry, k: Three)
    requires a.Generated() && b.Generated() && a.cfg == b.cfg && a.at == b.at && b.rank == a.rank + 1
    requires InBox(a.cfg.d, f.cube) && InBox(a.cfg.d, g.cube)
    requires OnBorder(a.cfg.d, f, XMax) && OnBorder(a.cfg.d, g, XMin)
    requires a.elemMPIIndices[SlotOf(a.cfg.d, f)] == b.elemMPIIndices[SlotOf(a.cfg.d, g)]
    ensures a.elemNeighborRanks[SlotOf(a.cfg.d, f)] == b.rank && b.elemNeighborRanks[SlotOf(a.cfg.d, g)] == a.rank
    ensures a.elemNeighborSides[SlotOf(a.cfg.d, f)] == g.j && b.elemNeighborSides[SlotOf(a.cfg.d, g)] == f.j
    ensures a.elemSideOrientations[SlotOf(a.cfg.d, f)] == b.elemSideOrientations[SlotOf(a.cfg.d, g)]
    ensures 0 <= a.elemSideOrientations[SlotOf(a.cfg.d, f)] < 3
    ensures var k1 := Turned(a.elemSideOrientations[SlotOf(a.cfg.d, f)], k);
            && 0 <= VertexId(a, f, k) < a.vertexCoords.Length
            && 0 <= VertexId(b, g, k1) < b.vertexCoords.Length
            && PositionAt(a, f, k) == PositionAt(b, g, k1)
  {
    hide *;
    RanksKnown(a, b);
    PlaceStored(a, XMax, f);
    PlaceStored(b, XMin, g);
    X.RanksAgree(a.cfg, a.rank, f, g, k);
    SidesStored(a, f);
    SidesStored(b, g);
    var k1 := Turned(SideOrientation(a.cfg, a.rank, f), k);
    CornerPosition(a, f, k);
    CornerPosition(b, g, k1);
    PlacedAlike(a.cfg, a.rank, a.at, FacePoint(f, k), FacePoint(g, k1));
  }

  lemma SizesKnown(mesh: G.CubeGenerator)
    requires mesh.Generated()
    ensures mesh.Sized()
  {}

  // Side f has place i in the list of border dir, in the element array and in the list.
  ghost predicate AtPlace(mesh: G.CubeGenerator, dir: Dir, l: G.ExchangeList, f: Entry, i: nat)
    requires mesh.Sized()
    reads mesh.elemMPIIndices
  {
    && InBox(mesh.cfg.d, f.cube) && OnBorder(mesh.cfg.d, f, dir)
    && mesh.elemMPIIndices[SlotOf(mesh.cfg.d, f)] == i < |l.elements|
    && l.elements[i] == ElemOf(mesh.cfg.d, f.cube, f.tet)
  }

  // The last list of a rank and the first list of the next rank are for the border between them.
  lemma FacingLists(a: G.CubeGenerator, b: G.CubeGenerator)
    requires a.Generated() && b.Generated() && a.cfg == b.cfg && b.rank == a.rank + 1
    ensures |a.exchange| > 0 && G.ListFits(a.cfg, a.rank, XMax, a.elemMPIIndices, a.exchange[|a.exchange| - 1])
    ensures |b.exchange| > 0 && G.ListFits(b.cfg, b.rank, XMin, b.elemMPIIndices, b.exchange[0])
  {
    hide G.ListFits, NumCubes, F.HoldsNeighbors, F.HoldsBoundaries, F.HoldsNeighborSides, F.HoldsSideOrientations;
    hide F.HoldsNeighborRanks, V.HoldsVertices, G.HoldsIncidence, G.HoldsCoords, G.Registered;
  }

  lemma FacingRanks(a: G.CubeGenerator, b: G.CubeGenerator, la: G.ExchangeList, lb: G.ExchangeList)
    requires a.Sized() && b.Sized() && a.cfg == b.cfg && b.rank == a.rank + 1
    requires G.ListFits(a.cfg, a.rank, XMax, a.elemMPIIndices, la)
    requires G.ListFits(b.cfg, b.rank, XMin, b.elemMPIIndices, lb)
    ensures la.rank == b.rank && lb.rank == a.rank
    ensures |la.elements| == |lb.elements| == 2 * a.cfg.d.ny * a.cfg.d.nz == X.ListSize(a.cfg.d)
  {
    hide SlotOf, X.IndexOf, X.ListSize, RankBehind, OnBorder, ElemOf, NumCubes;
    B.RanksBehind(a.cfg, a.rank);
    B.RanksBehind(b.cfg, b.rank);
    X.ListSizeIsProduct(a.cfg.d);
  }

  lemma EntryListed(mesh: G.CubeGenerator, dir: Dir, l: G.ExchangeList, f: Entry, i: nat)
    requires mesh.Sized() && G.ListFits(mesh.cfg, mesh.rank, dir, mesh.elemMPIIndices, l)
    requires InBox(mesh.cfg.d, f.cube) && OnBorder(mesh.cfg.d, f, dir) && X.IndexOf(mesh.cfg.d, f) == i
    ensures AtPlace(mesh, dir, l, f, i)
  {
    hide SlotOf, X.IndexOf, X.ListSize, OnBorder, ElemOf, NumCubes;
  }

  lemma PlacesMatch(a: G.CubeGenerator, b: G.CubeGenerator, la: G.ExchangeList, lb: G.ExchangeList, i: nat)
    requires a.Sized() && b.Sized() && a.cfg == b.cfg && i < X.ListSize(a.cfg.d)
    requires G.ListFits(a.cfg, a.rank, XMax, a.elemMPIIndices, la)
    requires G.ListFits(b.cfg, b.rank, XMin, b.elemMPIIndices, lb)
    ensures exists f: Entry :: AtPlace(a, XMax, la, f, i) && AtPlace(b, XMin, lb, MateOf(a.cfg, f), i)
  {
    hide AtPlace, OnBorder, X.IndexOf, MateOf, X.ListSize, G.ListFits, NumCubes;
    var f := X.PlacesTaken(a.cfg.d, XMax, i);
    var g := X.PlacesTaken(b.cfg.d, XMin, i);
    X.SamePlaceIffMate(a.cfg, f, g);
    EntryListed(a, XMax, la, f, i);
    EntryListed(b, XMin, lb, g, i);
  }

  /** The lists of two neighbouring ranks have the same length, and their entries with the same
      number are mates. */
  lemma ListsPairUp(a: G.CubeGenerator, b: G.CubeGenerator, i: nat)
    requires a.Generated() && b.Generated() && a.cfg == b.cfg && b.rank == a.rank + 1
    ensures |a.exchange| > 0 && |b.exchange| > 0
    ensures var la, lb := a.exchange[|a.exchange| - 1], b.exchange[0];
            && la.rank == b.rank && lb.rank == a.rank
            && |la.elements| == |lb.elements| == 2 * a.cfg.d.ny * a.cfg.d.nz
            && (i < |la.elements| ==>
                  exists f: Entry :: AtPlace(a, XMax, la, f, i) && AtPlace(b, XMin, lb, MateOf(a.cfg, f), i))
  {
    hide *;
    SizesKnown(a);
    SizesKnown(b);
    FacingLists(a, b);
    var la, lb := a.exchange[|a.exchange| - 1], b.exchange[0];
    FacingRanks(a, b, la, lb);
    if i < |la.elements| {
      PlacesMatch(a, b, la, lb, i);
    }
  }

  // List i is registered under its rank.
  ghost predicate Kept(lists: seq<G.ExchangeList>, i: nat)
    requires i < |lists|
  {
    var m := G.Registered(lists, |lists|);
    lists[i].rank in m && m[lists[i].rank] == G.MPINeighbor(i, lists[i].elements)
  }

  /** All exchange lists of a rank survive registration exactly when the rank does not have the same
      neighbour on both sides; with two ranks in a periodic box the second list replaces the first. */
  lemma ListsKeptIff(mesh: G.CubeGenerator)
    requires mesh.Generated()
    ensures (forall i | 0 <= i < |mesh.exchange| :: Kept(mesh.exchange, i))
            <==> !(mesh.cfg.px == 2 && LinksRanks(mesh.cfg, mesh.rank, XMin) && LinksRanks(mesh.cfg, mesh.rank, XMax))
    ensures mesh.exchange != [] ==> Kept(mesh.exchange, |mesh.exchange| - 1)
  {
    hide SlotOf, NumCubes, StepOf, OddOf, X.IndexOf, X.ListSize, ElemOf, RankBehind;
    hide F.HoldsNeighbors, F.HoldsBoundaries, F.HoldsNeighborSides, F.HoldsSideOrientations, F.HoldsNeighborRanks;
    hide V.HoldsVertices, G.HoldsIncidence, G.HoldsCoords;
    B.RanksBehind(mesh.cfg, mesh.rank);
    var lists := mesh.exchange;
    if |lists| == 2 {
      assert G.Registered(lists, 1) == map[lists[0].rank := G.MPINeighbor(0, lists[0].elements)];
      assert Kept(lists, 0) <==> lists[0].rank != lists[1].rank;
      assert Kept(lists, 1);
    } else if |lists| == 1 {
      assert Kept(lists, 0);
    }
  }

  /** The generator numbers every lattice point of the partition box, and nothing else. */
  lemma VertexCount(mesh: G.CubeGenerator)
    requires mesh.Generated()
    ensures mesh.vertexCoords.Length == (mesh.cfg.d.nx + 1) * (mesh.cfg.d.ny + 1) * (mesh.cfg.d.nz + 1)
  {
    hide V.Lattice, F.HoldsNeighbors, F.HoldsBoundaries, F.HoldsNeighborSides, F.HoldsSideOrientations, F.HoldsNeighborRanks;
    hide G.HoldsIncidence, G.HoldsExchange, NumCubes;
    V.HeldNumbers(mesh.cfg.d, mesh.elemVertices, mesh.vertexMap);
    V.NumbersCount(mesh.vertexMap, V.Lattice(mesh.cfg.d));
    V.LatticeSize(mesh.cfg.d);
  }

  /** The list of a vertex names exactly the elements with a corner there, each once, in order; all
      lists together have four entries for each element. */
  lemma VertexElements(mesh: G.CubeGenerator, v: int)
    requires mesh.Generated() && 0 <= v < mesh.vertexElements.Length
    ensures I.Increasing(mesh.vertexElements[v])
    ensures forall q: Cube, t: Tet | InBox(mesh.cfg.d, q) ::
              ElemOf(mesh.cfg.d, q, t) in mesh.vertexElements[v]
              <==> exists j: Four :: mesh.elemVertices[SlotOf(mesh.cfg.d, Entry(q, t, j))] == v
    ensures I.TotalLength(mesh.elemVertices[..], mesh.vertexElements.Length, mesh.elemVertices.Length)
          == 4 * NumElems(mesh.cfg.d)
  {
    hide F.HoldsNeighbors, F.HoldsBoundaries, F.HoldsNeighborSides, F.HoldsSideOrientations, F.HoldsNeighborRanks;
    hide G.HoldsExchange, G.HoldsCoords, V.HoldsVertices, NumCubes, I.Incident, I.CornersDistinct, I.TotalLength, I.Increasing;
    var ids, d := mesh.elemVertices[..], mesh.cfg.d;
    I.MeshCornersDistinct(d, mesh.elemVertices, mesh.vertexMap);
    I.IncidentIncreases(ids, v, |ids|);
    I.LengthsAddUp(ids, mesh.vertexElements.Length, |ids|);
    forall q: Cube, t: Tet | InBox(d, q)
      ensures ElemOf(d, q, t) in mesh.vertexElements[v] <==> exists j: Four :: ids[SlotOf(d, Entry(q, t, j))] == v
    {
      I.IncidentIffCorner(ids, v, ElemOf(d, q, t), |ids|);
      CornerOfElement(d, ids, v, q, t);
    }
  }

  lemma CornerOfElement(d: Dims, ids: seq<int>, v: int, q: Cube, t: Tet)
    requires |ids| == 20 * NumCubes(d) && InBox(d, q)
    ensures I.HasCorner(ids, v, ElemOf(d, q, t), |ids|) <==> exists j: Four :: ids[SlotOf(d, Entry(q, t, j))] == v
  {
    hide NumCubes, Cell;
    if I.HasCorner(ids, v, ElemOf(d, q, t), |ids|) {
      var i :| 0 <= i < |ids| && i / 4 == ElemOf(d, q, t) && ids[i] == v;
      assert SlotOf(d, Entry(q, t, i % 4)) == i;
    }
    if j: Four :| ids[SlotOf(d, Entry(q, t, j))] == v {
      assert SlotOf(d, Entry(q, t, j)) / 4 == ElemOf(d, q, t);
    }
  }
}
