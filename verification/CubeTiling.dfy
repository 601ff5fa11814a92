/** The tetrahedra fill the box, and no two of them overlap. */
module CubeTiling {
  import opened CubeTables
  import opened CubeLayout
  import opened CubeMesh

  // A point of space, in units of one cube from the origin of the partition box.
  datatype Spot = Spot(x: real, y: real, z: real)

  datatype Weights = Weights(a: real, b: real, c: real, d: real)

  ghost predicate Positive(l: Weights) { l.a > 0.0 && l.b > 0.0 && l.c > 0.0 && l.d > 0.0 }

  ghost predicate NonNegative(l: Weights) { l.a >= 0.0 && l.b >= 0.0 && l.c >= 0.0 && l.d >= 0.0 }

  // One coordinate of the weighted mean of four corners.
  ghost function Mean(l: Weights, a: int, b: int, c: int, d: int): (r: real) {
    l.a * (a as real) + l.b * (b as real) + l.c * (c as real) + l.d * (d as real)
  }

  // p is the mean of the corners of tetrahedron t of cube q with weights l.
  ghost predicate Mixes(l: Weights, q: Cube, t: Tet, p: Spot) {
    var a, b, c, d := CornerPoint(q, t, 0), CornerPoint(q, t, 1), CornerPoint(q, t, 2), CornerPoint(q, t, 3);
    && l.a + l.b + l.c + l.d == 1.0
    && Mean(l, a.x, b.x, c.x, d.x) == p.x
    && Mean(l, a.y, b.y, c.y, d.y) == p.y
    && Mean(l, a.z, b.z, c.z, d.z) == p.z
  }

  /** p lies in the closed tetrahedron: it is a convex combination of the four corners. */
  ghost predicate Covers(q: Cube, t: Tet, p: Spot) {
    exists l :: NonNegative(l) && Mixes(l, q, t, p)
  }

  /** p lies in the interior of the tetrahedron. */
  ghost predicate HasInside(q: Cube, t: Tet, p: Spot) {
    exists l :: Positive(l) && Mixes(l, q, t, p)
  }

  // Within one cube the corner coordinates are 0 and 1, so means need no products.

  ghost function Share(l: real, v: int): (r: real) { if v == 0 then 0.0 else l }

  ghost function LocalMean(l: Weights, a: int, b: int, c: int, d: int): (r: real) {
    Share(l.a, a) + Share(l.b, b) + Share(l.c, c) + Share(l.d, d)
  }

  ghost predicate LocalMixes(l: Weights, odd: Parity, t: Tet, x: real, y: real, z: real) {
    var a, b, c, d := TetVertex(odd, t, 0), TetVertex(odd, t, 1), TetVertex(odd, t, 2), TetVertex(odd, t, 3);
    && l.a + l.b + l.c + l.d == 1.0
    && LocalMean(l, a.x, b.x, c.x, d.x) == x
    && LocalMean(l, a.y, b.y, c.y, d.y) == y
    && LocalMean(l, a.z, b.z, c.z, d.z) == z
  }

  lemma ShiftedMean(l: Weights, a: int, b: int, c: int, d: int, o: int)
    requires l.a + l.b + l.c + l.d == 1.0
    requires 0 <= a <= 1 && 0 <= b <= 1 && 0 <= c <= 1 && 0 <= d <= 1
    ensures Mean(l, a + o, b + o, c + o, d + o) == LocalMean(l, a, b, c, d) + o as real
  {
    var r := o as real;
    ShiftedProduct(l.a, a, o);
    ShiftedProduct(l.b, b, o);
    ShiftedProduct(l.c, c, o);
    ShiftedProduct(l.d, d, o);
    assert l.a * r + l.b * r + l.c * r + l.d * r == (l.a + l.b + l.c + l.d) * r;
  }

  lemma ShiftedProduct(l: real, v: int, o: int)
    requires 0 <= v <= 1
    ensures l * ((v + o) as real) == Share(l, v) + l * (o as real)
  {
    if v == 1 {
      assert (v + o) as real == 1.0 + o as real;
    }
  }

  lemma MixesLocally(l: Weights, q: Cube, t: Tet, p: Spot)
    ensures Mixes(l, q, t, p)
            <==> LocalMixes(l, OddOf(q), t, p.x - q.x as real, p.y - q.y as real, p.z - q.z as real)
  {
    hide TetVertex, Mean, LocalMean, OddOf;
    var odd := OddOf(q);
    var a, b, c, d := TetVertex(odd, t, 0), TetVertex(odd, t, 1), TetVertex(odd, t, 2), TetVertex(odd, t, 3);
    VertexInCube(odd, t, 0);
    VertexInCube(odd, t, 1);
    VertexInCube(odd, t, 2);
    VertexInCube(odd, t, 3);
    if l.a + l.b + l.c + l.d == 1.0 {
      ShiftedMean(l, a.x, b.x, c.x, d.x, q.x);
      ShiftedMean(l, a.y, b.y, c.y, d.y, q.y);
      ShiftedMean(l, a.z, b.z, c.z, d.z, q.z);
    }
  }

  /** An interior point of a tetrahedron is an interior point of its cube. */
  lemma InsideCube(l: Weights, odd: Parity, t: Tet, x: real, y: real, z: real)
    requires Positive(l) && LocalMixes(l, odd, t, x, y, z)
    ensures 0.0 < x < 1.0 && 0.0 < y < 1.0 && 0.0 < z < 1.0
  {}

  // Where the interior of tetrahedron t is, seen from the four inner planes of an even cube.
  ghost predicate InEvenCorner(t: Tet, x: real, y: real, z: real) {
    match t
    case 0 => x + y + z < 1.0
    case 1 => x + y - z > 1.0
    case 2 => x - y + z > 1.0
    case 3 => y + z - x > 1.0
    case 4 => x + y + z > 1.0 && x + y - z < 1.0 && x - y + z < 1.0 && y + z - x < 1.0
  }

  // The same for an odd cube.
  ghost predicate InOddCorner(t: Tet, x: real, y: real, z: real) {
    match t
    case 0 => y > x + z
    case 1 => x > y + z
    case 2 => z > x + y
    case 3 => x + y + z > 2.0
    case 4 => y < x + z && x < y + z && z < x + y && x + y + z < 2.0
  }

  lemma InsideEvenCorner(l: Weights, t: Tet, x: real, y: real, z: real)
    requires Positive(l) && LocalMixes(l, 0, t, x, y, z)
    ensures InEvenCorner(t, x, y, z)
  {}

  lemma InsideOddCorner(l: Weights, t: Tet, x: real, y: real, z: real)
    requires Positive(l) && LocalMixes(l, 1, t, x, y, z)
    ensures InOddCorner(t, x, y, z)
  {}

  lemma CornersApart(t: Tet, u: Tet, x: real, y: real, z: real)
    requires 0.0 < x < 1.0 && 0.0 < y < 1.0 && 0.0 < z < 1.0
    ensures InEvenCorner(t, x, y, z) && InEvenCorner(u, x, y, z) ==> t == u
    ensures InOddCorner(t, x, y, z) && InOddCorner(u, x, y, z) ==> t == u
  {}

  lemma NoOverlapInCube(l: Weights, odd: Parity, t: Tet, m: Weights, u: Tet, x: real, y: real, z: real)
    requires Positive(l) && LocalMixes(l, odd, t, x, y, z)
    requires Positive(m) && LocalMixes(m, odd, u, x, y, z)
    ensures t == u
  {
    hide Positive, LocalMixes, InEvenCorner, InOddCorner;
    InsideCube(l, odd, t, x, y, z);
    CornersApart(t, u, x, y, z);
    if odd == 0 {
      InsideEvenCorner(l, t, x, y, z);
      InsideEvenCorner(m, u, x, y, z);
    } else {
      InsideOddCorner(l, t, x, y, z);
      InsideOddCorner(m, u, x, y, z);
    }
  }

  /** No point lies inside two tetrahedra. */
  lemma NoOverlap(q: Cube, t: Tet, r: Cube, u: Tet, p: Spot)
    requires HasInside(q, t, p) && HasInside(r, u, p)
    ensures q == r && t == u
  {
    var l :| Positive(l) && Mixes(l, q, t, p);
    var m :| Positive(m) && Mixes(m, r, u, p);
    MixesLocally(l, q, t, p);
    MixesLocally(m, r, u, p);
    hide LocalMixes, Mixes;
    InsideCube(l, OddOf(q), t, p.x - q.x as real, p.y - q.y as real, p.z - q.z as real);
    InsideCube(m, OddOf(r), u, p.x - r.x as real, p.y - r.y as real, p.z - r.z as real);
    SameUnit(q.x, r.x, p.x);
    SameUnit(q.y, r.y, p.y);
    SameUnit(q.z, r.z, p.z);
    NoOverlapInCube(l, OddOf(q), t, m, u, p.x - q.x as real, p.y - q.y as real, p.z - q.z as real);
  }

  lemma SameUnit(a: int, b: int, x: real)
    requires 0.0 < x - a as real < 1.0 && 0.0 < x - b as real < 1.0
    ensures a == b
  {
    assert (a - b) as real == a as real - b as real;
  }

  // Weights of a point of an even cube in the tetrahedron that covers it.
  ghost function EvenWeights(x: real, y: real, z: real): (r: (Tet, Weights)) {
    if x + y + z <= 1.0 then (0, Weights(1.0 - x - y - z, x, y, z))
    else if x + y - z >= 1.0 then (1, Weights(1.0 - y, 1.0 - x, z, x + y - z - 1.0))
    else if x - y + z >= 1.0 then (2, Weights(1.0 - z, y, 1.0 - x, x - y + z - 1.0))
    else if y + z - x >= 1.0 then (3, Weights(1.0 - z, y + z - x - 1.0, 1.0 - y, x))
    else (4, Weights((x - y - z + 1.0) / 2.0, (y - x - z + 1.0) / 2.0, (z - x - y + 1.0) / 2.0, (x + y + z - 1.0) / 2.0))
  }

  ghost function OddWeights(x: real, y: real, z: real): (r: (Tet, Weights)) {
    if y >= x + z then (0, Weights(1.0 - y, y - x - z, z, x))
    else if x >= y + z then (1, Weights(1.0 - x, y, z, x - y - z))
    else if z >= x + y then (2, Weights(1.0 - z, x, y, z - x - y))
    else if x + y + z >= 2.0 then (3, Weights(1.0 - z, 1.0 - y, x + y + z - 2.0, 1.0 - x))
    else (4, Weights((2.0 - x - y - z) / 2.0, (x + y - z) / 2.0, (y + z - x) / 2.0, (x + z - y) / 2.0))
  }

  lemma EvenCubeCovered(x: real, y: real, z: real)
    requires 0.0 <= x <= 1.0 && 0.0 <= y <= 1.0 && 0.0 <= z <= 1.0
    ensures var (t, l) := EvenWeights(x, y, z);
            NonNegative(l) && LocalMixes(l, 0, t, x, y, z)
  {}

  lemma OddCubeCovered(x: real, y: real, z: real)
    requires 0.0 <= x <= 1.0 && 0.0 <= y <= 1.0 && 0.0 <= z <= 1.0
    ensures var (t, l) := OddWeights(x, y, z);
            NonNegative(l) && LocalMixes(l, 1, t, x, y, z)
  {}

  // The unit interval of 0..n that holds x.
  ghost function UnitOf(x: real, n: nat): (r: int) {
    if x.Floor < n then x.Floor else n - 1
  }

  /** Every point of the box lies in a tetrahedron. */
  lemma BoxCovered(d: Dims, p: Spot)
    requires Valid(d)
    requires 0.0 <= p.x <= d.nx as real && 0.0 <= p.y <= d.ny as real && 0.0 <= p.z <= d.nz as real
    ensures exists q, t :: InBox(d, q) && Covers(q, t, p)
  {
    var q := Cube(UnitOf(p.x, d.nx), UnitOf(p.y, d.ny), UnitOf(p.z, d.nz));
    var x, y, z := p.x - q.x as real, p.y - q.y as real, p.z - q.z as real;
    hide LocalMixes, Mixes, EvenWeights, OddWeights;
    EvenCubeCovered(x, y, z);
    OddCubeCovered(x, y, z);
    var (t, l) := if OddOf(q) == 0 then EvenWeights(x, y, z) else OddWeights(x, y, z);
    MixesLocally(l, q, t, p);
    assert Covers(q, t, p);
  }

  function Det(a1: int, a2: int, a3: int, b1: int, b2: int, b3: int, c1: int, c2: int, c3: int): (r: int) {
    a1 * (b2 * c3 - b3 * c2) - a2 * (b1 * c3 - b3 * c1) + a3 * (b1 * c2 - b2 * c1)
  }

  // Six times the signed volume of the tetrahedron with corners o, a, b, c.
  function SixVolumeOf(o: Point, a: Point, b: Point, c: Point): (r: int) {
    Det(a.x - o.x, a.y - o.y, a.z - o.z, b.x - o.x, b.y - o.y, b.z - o.z, c.x - o.x, c.y - o.y, c.z - o.z)
  }

  ghost function SixVolume(q: Cube, t: Tet): (r: int) {
    SixVolumeOf(CornerPoint(q, t, 0), CornerPoint(q, t, 1), CornerPoint(q, t, 2), CornerPoint(q, t, 3))
  }

  // a * b for b from -1 to 1, without a product.
  function Signed(a: int, b: int): (r: int) {
    if b == 0 then 0 else if b > 0 then a else -a
  }

  function SignedDet(a1: int, a2: int, a3: int, b1: int, b2: int, b3: int, c1: int, c2: int, c3: int): (r: int) {
    Signed(Signed(b2, c3) - Signed(b3, c2), a1) - Signed(Signed(b1, c3) - Signed(b3, c1), a2)
    + Signed(Signed(b1, c2) - Signed(b2, c1), a3)
  }

  lemma SignedIsProduct(a: int, b: int)
    requires -1 <= b <= 1
    ensures Signed(a, b) == a * b == b * a
  {}

  lemma SignedDetIsDet(a1: int, a2: int, a3: int, b1: int, b2: int, b3: int, c1: int, c2: int, c3: int)
    requires -1 <= a1 <= 1 && -1 <= a2 <= 1 && -1 <= a3 <= 1 && -1 <= c1 <= 1 && -1 <= c2 <= 1 && -1 <= c3 <= 1
    ensures SignedDet(a1, a2, a3, b1, b2, b3, c1, c2, c3) == Det(a1, a2, a3, b1, b2, b3, c1, c2, c3)
  {
    SignedIsProduct(b2, c3);
    SignedIsProduct(b3, c2);
    SignedIsProduct(b1, c3);
    SignedIsProduct(b3, c1);
    SignedIsProduct(b1, c2);
    SignedIsProduct(b2, c1);
    SignedIsProduct(b2 * c3 - b3 * c2, a1);
    SignedIsProduct(b1 * c3 - b3 * c1, a2);
    SignedIsProduct(b1 * c2 - b2 * c1, a3);
    hide Signed;
  }

  ghost function LocalSixVolume(odd: Parity, t: Tet): (r: int) {
    var o, a, b, c := TetVertex(odd, t, 0), TetVertex(odd, t, 1), TetVertex(odd, t, 2), TetVertex(odd, t, 3);
    SignedDet(a.x - o.x, a.y - o.y, a.z - o.z, b.x - o.x, b.y - o.y, b.z - o.z, c.x - o.x, c.y - o.y, c.z - o.z)
  }

  lemma LocalVolume(odd: Parity, t: Tet)
    ensures LocalSixVolume(odd, t) == if t < 4 then 1 else 2
  {}

  lemma SixVolumeIsLocal(q: Cube, t: Tet)
    ensures SixVolume(q, t) == LocalSixVolume(OddOf(q), t)
  {
    hide TetVertex, Det, SignedDet;
    var odd := OddOf(q);
    var o, a, b, c := TetVertex(odd, t, 0), TetVertex(odd, t, 1), TetVertex(odd, t, 2), TetVertex(odd, t, 3);
    VertexInCube(odd, t, 0);
    VertexInCube(odd, t, 1);
    VertexInCube(odd, t, 2);
    VertexInCube(odd, t, 3);
    SignedDetIsDet(a.x - o.x, a.y - o.y, a.z - o.z, b.x - o.x, b.y - o.y, b.z - o.z, c.x - o.x, c.y - o.y, c.z - o.z);
  }

  /** All tetrahedra are positively oriented: the four outer ones fill a sixth, the inner one a
      third of the cube. */
  lemma Volumes(q: Cube, t: Tet)
    ensures SixVolume(q, t) == if t < 4 then 1 else 2
  {
    hide *;
    SixVolumeIsLocal(q, t);
    LocalVolume(OddOf(q), t);
  }

  // Six times the volume of the first n elements.
  ghost function VolumeOf(d: Dims, n: nat): (r: int)
    requires n <= NumElems(d)
  {
    if n == 0 then 0 else VolumeOf(d, n - 1) + VolumeAt(d, n - 1)
  }

  ghost function VolumeAt(d: Dims, e: nat): (r: int)
    requires e < NumElems(d)
  {
    var f := EntryAt(d, 4 * e);
    SixVolume(f.cube, f.tet)
  }

  lemma ElementVolume(d: Dims, e: nat)
    requires e < NumElems(d)
    ensures VolumeAt(d, e) == if e % 5 < 4 then 1 else 2
  {
    hide SixVolume, NumCubes, Cell, EntryAt;
    var f := EntryAt(d, 4 * e);
    Volumes(f.cube, f.tet);
  }

  lemma VolumeOfNextCube(d: Dims, c: nat)
    requires c < NumCubes(d)
    ensures VolumeOf(d, 5 * c + 5) == VolumeOf(d, 5 * c) + 6
  {
    hide VolumeAt, NumCubes;
    var e := 5 * c;
    ElementVolume(d, e);
    ElementVolume(d, e + 1);
    ElementVolume(d, e + 2);
    ElementVolume(d, e + 3);
    ElementVolume(d, e + 4);
    assert VolumeOf(d, e + 1) == VolumeOf(d, e) + 1;
    assert VolumeOf(d, e + 2) == VolumeOf(d, e) + 2;
    assert VolumeOf(d, e + 3) == VolumeOf(d, e) + 3;
    assert VolumeOf(d, e + 4) == VolumeOf(d, e) + 4;
  }

  lemma {:induction false} VolumeOfCubes(d: Dims, c: nat)
    requires c <= NumCubes(d)
    ensures VolumeOf(d, 5 * c) == 6 * c
  {
    hide VolumeAt, NumCubes;
    if c > 0 {
      VolumeOfCubes(d, c - 1);
      VolumeOfNextCube(d, c - 1);
    }
  }

  /** The volumes add up to the volume of the box. */
  lemma TotalVolume(d: Dims)
    ensures VolumeOf(d, NumElems(d)) == 6 * (d.nx * d.ny * d.nz)
  {
    hide VolumeOf, NumCubes;
    VolumeOfCubes(d, NumCubes(d));
    CubeCountIsSourceCount(d);
    ProductsReorder(d.nx, d.ny, d.nz);
  }
}
