/** The vertices of a partition: corners are numbered by the first occurrence of their lattice point. */
module CubeVertices {
  import opened CubeTables
  import opened CubeLayout
  import opened CubeMesh
  import F = CubeFill

  ghost predicate HoldsCorners(d: Dims, vs: array<Point>)
    requires vs.Length == 20 * NumCubes(d)
    reads vs
  {
    forall f: Entry | InBox(d, f.cube) :: vs[SlotOf(d, f)] == CornerPoint(f.cube, f.tet, f.j)
  }

  /** The twenty corners of one cube. */
  method SetCorners(d: Dims, vs: array<Point>, q: Cube, c: int)
    requires vs.Length == 20 * NumCubes(d) && InBox(d, q) && c == 20 * Cell(d, q)
    modifies vs
    ensures forall f: Entry | InBox(d, f.cube) ::
              vs[SlotOf(d, f)] == if f.cube == q then CornerPoint(q, f.tet, f.j) else old(vs[SlotOf(d, f)])
  {
    hide TetVertex;
    var odd := (q.z + q.y + q.x) % 2;
    for i := 0 to 20
      invariant forall f: Entry | InBox(d, f.cube) ::
                  vs[SlotOf(d, f)] == if f.cube == q && 4 * f.tet + f.j < i then CornerPoint(q, f.tet, f.j)
                                      else old(vs[SlotOf(d, f)])
    {
      assert c + i == SlotOf(d, Entry(q, i / 4, i % 4));
      var v := TetVertex(odd, i / 4, i % 4);
      vs[c + i] := Point(v.x + q.x, v.y + q.y, v.z + q.z);
    }
  }

  method ComputeCorners(d: Dims, vs: array<Point>)
    requires Valid(d) && vs.Length == 20 * NumCubes(d)
    modifies vs
    ensures HoldsCorners(d, vs)
  {
    hide SlotOf, NumCubes, CornerPoint;
    for zz := 0 to d.nz
      invariant forall f: Entry | InBox(d, f.cube) && F.BeforeCube(f.cube, 0, 0, zz) ::
                  vs[SlotOf(d, f)] == CornerPoint(f.cube, f.tet, f.j)
    {
      for yy := 0 to d.ny
        invariant forall f: Entry | InBox(d, f.cube) && F.BeforeCube(f.cube, 0, yy, zz) ::
                    vs[SlotOf(d, f)] == CornerPoint(f.cube, f.tet, f.j)
      {
        for xx := 0 to d.nx
          invariant forall f: Entry | InBox(d, f.cube) && F.BeforeCube(f.cube, xx, yy, zz) ::
                      vs[SlotOf(d, f)] == CornerPoint(f.cube, f.tet, f.j)
        {
          var c := F.CubeStart(d, xx, yy, zz);
          SetCorners(d, vs, Cube(xx, yy, zz), c);
        }
      }
    }
  }

  // The points among the first n corners.
  ghost function Seen(vs: seq<Point>, n: nat): (r: set<Point>)
    requires n <= |vs|
  {
    set p | p in vs[..n]
  }

  ghost predicate HasNumber(m: map<Point, int>, n: int) {
    exists p :: p in m && m[p] == n
  }

  /** m numbers the points of a set from 0 on, without gap or repeat. */
  ghost predicate Numbers(m: map<Point, int>, points: set<Point>) {
    && m.Keys == points
    && (forall p | p in m :: 0 <= m[p] < |m|)
    && (forall p, q | p in m && q in m && m[p] == m[q] :: p == q)
    && (forall n | 0 <= n < |m| :: HasNumber(m, n))
  }

  // The first n corners carry the number of their point, and a new point the number of points before it.
  ghost predicate NumberedTo(vs: seq<Point>, ids: seq<int>, m: map<Point, int>, n: nat)
    requires n <= |vs| == |ids|
  {
    && (forall i | 0 <= i < n :: vs[i] in m && ids[i] == m[vs[i]])
    && (forall i | 0 <= i < n && vs[i] !in Seen(vs, i) :: ids[i] == |Seen(vs, i)|)
  }

  /** elemVertices and vertexMap: a point that was seen before keeps its number, a new point gets the
      number of points seen before it. */
  method NumberVertices(vs: array<Point>, ids: array<int>) returns (vertexMap: map<Point, int>)
    requires ids.Length == vs.Length
    modifies ids
    ensures Numbers(vertexMap, Seen(vs[..], vs.Length))
    ensures NumberedTo(vs[..], ids[..], vertexMap, vs.Length)
  {
    vertexMap := map[];
    ghost var points := vs[..];
    for i := 0 to vs.Length
      invariant vs[..] == points
      invariant Numbers(vertexMap, Seen(points, i))
      invariant NumberedTo(points, ids[..], vertexMap, i)
    {
      SeenOneMore(points, i);
      ghost var before := ids[..];
      if vs[i] in vertexMap {
        OldNumber(points, before, vertexMap, i);
        hide *;
        ids[i] := vertexMap[vs[i]];
        assert ids[..] == before[i := vertexMap[vs[i]]];
      } else {
        var n := |vertexMap|;
        NumbersOneMore(vertexMap, Seen(points, i), vs[i]);
        NewNumber(points, before, vertexMap, i);
        hide *;
        vertexMap := vertexMap[vs[i] := n];
        ids[i] := n;
        assert ids[..] == before[i := n];
      }
    }
  }

  lemma OldNumber(vs: seq<Point>, ids: seq<int>, m: map<Point, int>, i: nat)
    requires i < |vs| == |ids| && vs[i] in m
    requires Numbers(m, Seen(vs, i)) && NumberedTo(vs, ids, m, i)
    ensures Numbers(m, Seen(vs, i + 1)) && NumberedTo(vs, ids[i := m[vs[i]]], m, i + 1)
  {
    SeenOneMore(vs, i);
    assert vs[i] in Seen(vs, i);
  }

  lemma NewNumber(vs: seq<Point>, ids: seq<int>, m: map<Point, int>, i: nat)
    requires i < |vs| == |ids| && vs[i] !in m
    requires Numbers(m, Seen(vs, i)) && NumberedTo(vs, ids, m, i)
    ensures NumberedTo(vs, ids[i := |m|], m[vs[i] := |m|], i + 1)
  {
    hide Seen, Numbers;
    NumbersOneMore(m, Seen(vs, i), vs[i]);
    var m1, ids1 := m[vs[i] := |m|], ids[i := |m|];
    forall k | 0 <= k < i + 1
      ensures vs[k] in m1 && ids1[k] == m1[vs[k]]
      ensures vs[k] !in Seen(vs, k) ==> ids1[k] == |Seen(vs, k)|
    {
      if k < i {
        assert vs[k] in m && ids[k] == m[vs[k]];
      }
    }
  }

  lemma SeenOneMore(vs: seq<Point>, i: nat)
    requires i < |vs|
    ensures Seen(vs, i + 1) == Seen(vs, i) + {vs[i]}
  {
    assert vs[..i + 1] == vs[..i] + [vs[i]];
  }

  lemma NumbersOneMore(m: map<Point, int>, points: set<Point>, p: Point)
    requires Numbers(m, points) && p !in m
    ensures |m| == |points|
    ensures Numbers(m[p := |m|], points + {p})
  {
    var m1 := m[p := |m|];
    assert m1.Keys == m.Keys + {p};
    assert |m1.Keys| == |m.Keys| + 1;
    forall n | 0 <= n < |m1|
      ensures HasNumber(m1, n)
    {
      if n < |m| {
        assert HasNumber(m, n);
        var q :| q in m && m[q] == n;
        assert q in m1 && m1[q] == n;
      } else {
        assert p in m1 && m1[p] == n;
      }
    }
  }

  /** uniqueVertices: the numbering turned around, defined for every number. */
  method FlipMap(m: map<Point, int>, ghost points: set<Point>) returns (flipped: map<int, Point>)
    requires Numbers(m, points)
    ensures forall n :: n in flipped <==> 0 <= n < |m|
    ensures forall n | n in flipped :: flipped[n] in m && m[flipped[n]] == n
    ensures forall p | p in m :: flipped[m[p]] == p
  {
    flipped := map p | p in m :: m[p] := p;
    forall n | 0 <= n < |m|
      ensures n in flipped
    {
      assert HasNumber(m, n);
    }
  }

  /** The lattice points of the partition box. */
  ghost function Box(nx: nat, ny: nat, nz: nat): (r: set<Point>) {
    set x, y, z | 0 <= x < nx && 0 <= y < ny && 0 <= z < nz :: Point(x, y, z)
  }

  ghost function Lattice(d: Dims): (r: set<Point>) {
    Box(d.nx + 1, d.ny + 1, d.nz + 1)
  }

  ghost function RowPoints(nx: nat, y: int, z: int): (r: set<Point>) {
    set x | 0 <= x < nx :: Point(x, y, z)
  }

  ghost function LayerPoints(nx: nat, ny: nat, z: int): (r: set<Point>) {
    set x, y | 0 <= x < nx && 0 <= y < ny :: Point(x, y, z)
  }

  lemma {:induction false} RowSize(nx: nat, y: int, z: int)
    ensures |RowPoints(nx, y, z)| == nx
  {
    if nx > 0 {
      RowSize(nx - 1, y, z);
      assert RowPoints(nx, y, z) == RowPoints(nx - 1, y, z) + {Point(nx - 1, y, z)};
    }
  }

  lemma {:induction false} LayerSize(nx: nat, ny: nat, z: int)
    ensures |LayerPoints(nx, ny, z)| == Times(ny, nx)
  {
    if ny > 0 {
      LayerSize(nx, ny - 1, z);
      RowSize(nx, ny - 1, z);
      assert LayerPoints(nx, ny, z) == LayerPoints(nx, ny - 1, z) + RowPoints(nx, ny - 1, z);
      assert LayerPoints(nx, ny - 1, z) !! RowPoints(nx, ny - 1, z);
    }
  }

  lemma {:induction false} BoxSize(nx: nat, ny: nat, nz: nat)
    ensures |Box(nx, ny, nz)| == Times(nz, Times(ny, nx))
  {
    if nz > 0 {
      BoxSize(nx, ny, nz - 1);
      LayerSize(nx, ny, nz - 1);
      assert Box(nx, ny, nz) == Box(nx, ny, nz - 1) + LayerPoints(nx, ny, nz - 1);
      assert Box(nx, ny, nz - 1) !! LayerPoints(nx, ny, nz - 1);
    }
  }

  // A corner of a tetrahedron of a cube at a given corner of the cube.
  ghost function CornerAt(odd: Parity, v: Point): (r: (Tet, Four)) {
    if odd == 0 then
      if v == Point(0, 0, 0) then (0, 0) else if v == Point(1, 0, 0) then (0, 1)
      else if v == Point(0, 1, 0) then (0, 2) else if v == Point(0, 0, 1) then (0, 3)
      else if v == Point(1, 1, 1) then (4, 3) else if v == Point(1, 1, 0) then (1, 3)
      else if v == Point(1, 0, 1) then (2, 3) else (3, 1)
    else
      if v == Point(0, 0, 0) then (0, 0) else if v == Point(0, 1, 0) then (0, 1)
      else if v == Point(0, 1, 1) then (0, 2) else if v == Point(1, 1, 0) then (0, 3)
      else if v == Point(1, 0, 1) then (1, 2) else if v == Point(1, 0, 0) then (1, 3)
      else if v == Point(0, 0, 1) then (2, 3) else (3, 2)
  }

  /** The tetrahedra use all eight corners of a cube. */
  lemma CornerFound(odd: Parity, v: Point)
    requires 0 <= v.x <= 1 && 0 <= v.y <= 1 && 0 <= v.z <= 1
    ensures var (t, j) := CornerAt(odd, v);
            TetVertex(odd, t, j) == v
  {}

  // The entry of a corner at a lattice point.
  lemma LatticePointUsed(d: Dims, p: Point) returns (f: Entry)
    requires Valid(d) && p in Lattice(d)
    ensures InBox(d, f.cube) && CornerPoint(f.cube, f.tet, f.j) == p
  {
    hide TetVertex, OddOf, CornerAt;
    var q := Cube(if p.x < d.nx then p.x else p.x - 1, if p.y < d.ny then p.y else p.y - 1,
                  if p.z < d.nz then p.z else p.z - 1);
    var v := Point(p.x - q.x, p.y - q.y, p.z - q.z);
    CornerFound(OddOf(q), v);
    f := Entry(q, CornerAt(OddOf(q), v).0, CornerAt(OddOf(q), v).1);
  }

  lemma CornerInLattice(d: Dims, f: Entry)
    requires InBox(d, f.cube)
    ensures CornerPoint(f.cube, f.tet, f.j) in Lattice(d)
  {
    VertexInCube(OddOf(f.cube), f.tet, f.j);
    hide TetVertex;
  }

  lemma CornersAreLattice(d: Dims, vs: array<Point>)
    requires Valid(d) && vs.Length == 20 * NumCubes(d) && HoldsCorners(d, vs)
    ensures Seen(vs[..], vs.Length) == Lattice(d)
  {
    hide Lattice, NumCubes, CornerPoint, SlotOf;
    forall p | p in Seen(vs[..], vs.Length)
      ensures p in Lattice(d)
    {
      var i :| 0 <= i < vs.Length && vs[i] == p;
      SlotOfEntryAt(d, i);
      CornerInLattice(d, EntryAt(d, i));
    }
    forall p | p in Lattice(d)
      ensures p in Seen(vs[..], vs.Length)
    {
      var f := LatticePointUsed(d, p);
      assert vs[..][SlotOf(d, f)] == p;
    }
  }

  /** The vertex numbers of all corners, and the numbering behind them. */
  ghost predicate HoldsVertices(d: Dims, ids: array<int>, m: map<Point, int>)
    requires F.Fits(d, ids)
    reads ids
  {
    && Numbers(m, Lattice(d))
    && (forall f: Entry | InBox(d, f.cube) ::
          CornerPoint(f.cube, f.tet, f.j) in m && ids[SlotOf(d, f)] == m[CornerPoint(f.cube, f.tet, f.j)])
  }

  method ComputeVertices(d: Dims, ids: array<int>) returns (vertexMap: map<Point, int>)
    requires Valid(d) && F.Fits(d, ids)
    modifies ids
    ensures HoldsVertices(d, ids, vertexMap)
    ensures |vertexMap| == (d.nx + 1) * (d.ny + 1) * (d.nz + 1)
  {
    hide Lattice, NumCubes, CornerPoint, SlotOf, Seen, Numbers;
    var vs := new Point[ids.Length](_ => Point(0, 0, 0));
    ComputeCorners(d, vs);
    CornersAreLattice(d, vs);
    ghost var points := vs[..];
    vertexMap := NumberVertices(vs, ids);
    NumbersCount(vertexMap, Lattice(d));
    LatticeSize(d);
    forall f: Entry | InBox(d, f.cube)
      ensures CornerPoint(f.cube, f.tet, f.j) in vertexMap
      ensures ids[SlotOf(d, f)] == vertexMap[CornerPoint(f.cube, f.tet, f.j)]
    {
      assert points[SlotOf(d, f)] == CornerPoint(f.cube, f.tet, f.j);
    }
  }

  lemma LatticeSize(d: Dims)
    ensures |Lattice(d)| == (d.nx + 1) * (d.ny + 1) * (d.nz + 1)
  {
    BoxSize(d.nx + 1, d.ny + 1, d.nz + 1);
    TimesIsProduct(d.ny + 1, d.nx + 1);
    TimesIsProduct(d.nz + 1, (d.ny + 1) * (d.nx + 1));
    hide Box, Times;
    ProductsReorder(d.nx + 1, d.ny + 1, d.nz + 1);
  }

  lemma NumbersCount(m: map<Point, int>, points: set<Point>)
    requires Numbers(m, points)
    ensures |m| == |points|
  {
    assert |m| == |m.Keys|;
  }

  /** Two corners have the same vertex number exactly when they are the same lattice point. */
  lemma SameIdIffSamePoint(d: Dims, ids: array<int>, m: map<Point, int>, f: Entry, g: Entry)
    requires F.Fits(d, ids) && HoldsVertices(d, ids, m) && InBox(d, f.cube) && InBox(d, g.cube)
    ensures ids[SlotOf(d, f)] == ids[SlotOf(d, g)]
            <==> CornerPoint(f.cube, f.tet, f.j) == CornerPoint(g.cube, g.tet, g.j)
  {
    hide CornerPoint, SlotOf, NumCubes, Lattice;
  }

  lemma HeldNumbers(d: Dims, ids: array<int>, m: map<Point, int>)
    requires F.Fits(d, ids) && HoldsVertices(d, ids, m)
    ensures Numbers(m, Lattice(d))
  {}
}
