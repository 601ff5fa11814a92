/** The layout of the flat arrays: cube by cube, five tetrahedra a cube, four entries a tetrahedron. */
module CubeLayout {
  import opened CubeTables

  // Cubes in one partition, in each direction.
  datatype Dims = Dims(nx: nat, ny: nat, nz: nat)

  /** What the parameter checks guarantee of one partition. */
  predicate Valid(d: Dims) {
    d.nx >= 2 && d.ny >= 2 && d.nz >= 2 && d.nx % 2 == 0 && d.ny % 2 == 0 && d.nz % 2 == 0
  }

  datatype Cube = Cube(x: int, y: int, z: int)

  /** Entry j (side or corner) of tetrahedron tet of a cube. */
  datatype Entry = Entry(cube: Cube, tet: Tet, j: Four)

  ghost predicate InBox(d: Dims, q: Cube) {
    0 <= q.x < d.nx && 0 <= q.y < d.ny && 0 <= q.z < d.nz
  }

  function OddOf(q: Cube): (r: Parity) {
    (q.z + q.y + q.x) % 2
  }

  /** n steps laid end to end. The layout is stated with it, so that proofs that only walk from a
      cube to the next do not meet a product. */
  ghost function Times(n: nat, step: nat): (r: nat) {
    if n == 0 then 0 else Times(n - 1, step) + step
  }

  // Cubes in one layer of constant z.
  ghost function Layer(d: Dims): (r: nat) { Times(d.ny, d.nx) }

  ghost function NumCubes(d: Dims): (r: nat) { Times(d.nz, Layer(d)) }

  ghost function NumElems(d: Dims): (r: nat) { 5 * NumCubes(d) }

  ghost function Cell(d: Dims, q: Cube): (r: nat)
    requires InBox(d, q)
  {
    Times(q.z, Layer(d)) + Times(q.y, d.nx) + q.x
  }

  lemma {:induction false} TimesIsProduct(n: nat, step: nat)
    ensures Times(n, step) == n * step
  {
    if n > 0 {
      TimesIsProduct(n - 1, step);
      assert n * step == (n - 1) * step + step;
    }
  }

  lemma {:induction false} TimesBelow(m: nat, n: nat, step: nat)
    requires m < n
    ensures Times(m, step) + step <= Times(n, step)
  {
    if m < n - 1 {
      TimesBelow(m, n - 1, step);
    }
  }

  /** The index the source computes for a cube. */
  lemma CellIsSourceIndex(d: Dims, q: Cube)
    requires InBox(d, q)
    ensures Cell(d, q) == (q.z * d.ny + q.y) * d.nx + q.x
  {
    TimesIsProduct(q.y, d.nx);
    TimesIsProduct(d.ny, d.nx);
    TimesIsProduct(q.z, d.ny * d.nx);
    Distribute(q.z, d.ny, q.y, d.nx);
  }

  lemma Distribute(a: nat, b: nat, c: nat, n: nat)
    ensures a * (b * n) + c * n == (a * b + c) * n
  {}

  lemma ProductsReorder(x: nat, y: nat, z: nat)
    ensures z * (y * x) == x * y * z
  {}

  lemma CubeCountIsSourceCount(d: Dims)
    ensures Layer(d) == d.ny * d.nx && NumCubes(d) == d.nz * (d.ny * d.nx)
  {
    TimesIsProduct(d.ny, d.nx);
    TimesIsProduct(d.nz, d.ny * d.nx);
  }

  lemma CellBelow(d: Dims, q: Cube)
    requires InBox(d, q)
    ensures Times(q.y, d.nx) + q.x < Layer(d)
    ensures Cell(d, q) < NumCubes(d)
  {
    TimesBelow(q.y, d.ny, d.nx);
    TimesBelow(q.z, d.nz, Layer(d));
  }

  lemma CellInjective(d: Dims, q: Cube, r: Cube)
    requires InBox(d, q) && InBox(d, r) && Cell(d, q) == Cell(d, r)
    ensures q == r
  {
    CellBelow(d, q);
    CellBelow(d, r);
    if q.z < r.z { TimesBelow(q.z, r.z, Layer(d)); assert false; }
    if r.z < q.z { TimesBelow(r.z, q.z, Layer(d)); assert false; }
    if q.y < r.y { TimesBelow(q.y, r.y, d.nx); assert false; }
    if r.y < q.y { TimesBelow(r.y, q.y, d.nx); assert false; }
  }

  // The last of the first n multiples of step that is not above c.
  lemma {:induction false} TimesSplit(c: nat, n: nat, step: nat) returns (m: nat)
    requires c < Times(n, step)
    ensures m < n && Times(m, step) <= c < Times(m, step) + step
  {
    if c >= Times(n - 1, step) {
      m := n - 1;
    } else {
      m := TimesSplit(c, n - 1, step);
    }
  }

  lemma CellSurjective(d: Dims, c: nat) returns (q: Cube)
    requires c < NumCubes(d)
    ensures InBox(d, q) && Cell(d, q) == c
  {
    var z := TimesSplit(c, d.nz, Layer(d));
    var r := c - Times(z, Layer(d));
    var y := TimesSplit(r, d.ny, d.nx);
    q := Cube(r - Times(y, d.nx), y, z);
  }

  ghost predicate IsSlot(d: Dims, f: Entry, i: int) {
    InBox(d, f.cube) && i == 20 * Cell(d, f.cube) + 4 * f.tet + f.j
  }

  lemma SlotSurjective(d: Dims, i: nat)
    requires i < 20 * NumCubes(d)
    ensures exists f :: IsSlot(d, f, i)
  {
    hide Cell, NumCubes;
    var q := CellSurjective(d, i / 20);
    var k := i % 20;
    assert IsSlot(d, Entry(q, k / 4, k % 4), i);
  }

  /** The entry stored in slot i of an array. */
  ghost function EntryAt(d: Dims, i: nat): (f: Entry)
    requires i < 20 * NumCubes(d)
    ensures IsSlot(d, f, i)
  {
    SlotSurjective(d, i);
    var f :| IsSlot(d, f, i);
    f
  }

  /** The slot an entry is stored in. Slots and entries correspond one to one. */
  ghost function SlotOf(d: Dims, f: Entry): (i: nat)
    requires InBox(d, f.cube)
    ensures i < 20 * NumCubes(d) && EntryAt(d, i) == f
  {
    CellBelow(d, f.cube);
    var i := 20 * Cell(d, f.cube) + 4 * f.tet + f.j;
    assert EntryAt(d, i) == f by {
      CellInjective(d, EntryAt(d, i).cube, f.cube);
    }
    i
  }

  lemma SlotOfEntryAt(d: Dims, i: nat)
    requires i < 20 * NumCubes(d)
    ensures SlotOf(d, EntryAt(d, i)) == i
  {}

  /** Local number of a tetrahedron. */
  ghost function ElemOf(d: Dims, q: Cube, t: Tet): (e: nat)
    requires InBox(d, q)
    ensures e < NumElems(d)
  {
    CellBelow(d, q);
    5 * Cell(d, q) + t
  }

  lemma ElemOfInjective(d: Dims, q: Cube, t: Tet, r: Cube, u: Tet)
    requires InBox(d, q) && InBox(d, r) && ElemOf(d, q, t) == ElemOf(d, r, u)
    ensures q == r && t == u
  {
    CellInjective(d, q, r);
  }
}
