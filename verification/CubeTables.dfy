/** The constant tables: how a cube is cut into five tetrahedra, and what lies behind its twenty sides. */
module CubeTables {

  // Parity of a cube in the checkerboard: cubes with an even and an odd coordinate sum are
  // cut along different diagonals.
  type Parity = p: int | 0 <= p < 2
  type Tet = t: int | 0 <= t < 5
  // Number of a side, or of a corner, of one tetrahedron.
  type Four = j: int | 0 <= j < 4
  // Number of a corner of one side.
  type Three = k: int | 0 <= k < 3

  datatype Point = Point(x: int, y: int, z: int)

  // p is q moved by u
  predicate Moved(p: Point, q: Point, u: Point) {
    p.x == q.x + u.x && p.y == q.y + u.y && p.z == q.z + u.z
  }

  function Pick<T>(j: Four, a: T, b: T, c: T, d: T): (r: T) {
    if j == 0 then a else if j == 1 then b else if j == 2 then c else d
  }

  /** TetVertices: corner j of tetrahedron t, relative to the origin of its cube. */
  function TetVertex(odd: Parity, t: Tet, j: Four): (r: Point) {
    if odd == 0 then
      match t
      case 0 => Pick(j, Point(0, 0, 0), Point(1, 0, 0), Point(0, 1, 0), Point(0, 0, 1))
      case 1 => Pick(j, Point(1, 0, 0), Point(0, 1, 0), Point(1, 1, 1), Point(1, 1, 0))
      case 2 => Pick(j, Point(1, 0, 0), Point(1, 1, 1), Point(0, 0, 1), Point(1, 0, 1))
      case 3 => Pick(j, Point(0, 1, 0), Point(0, 1, 1), Point(0, 0, 1), Point(1, 1, 1))
      case 4 => Pick(j, Point(1, 0, 0), Point(0, 1, 0), Point(0, 0, 1), Point(1, 1, 1))
    else
      match t
      case 0 => Pick(j, Point(0, 0, 0), Point(0, 1, 0), Point(0, 1, 1), Point(1, 1, 0))
      case 1 => Pick(j, Point(0, 0, 0), Point(1, 1, 0), Point(1, 0, 1), Point(1, 0, 0))
      case 2 => Pick(j, Point(0, 0, 0), Point(1, 0, 1), Point(0, 1, 1), Point(0, 0, 1))
      case 3 => Pick(j, Point(1, 1, 0), Point(1, 0, 1), Point(1, 1, 1), Point(0, 1, 1))
      case 4 => Pick(j, Point(0, 0, 0), Point(1, 1, 0), Point(0, 1, 1), Point(1, 0, 1))
  }

  predicate UnitPoint(p: Point) {
    0 <= p.x <= 1 && 0 <= p.y <= 1 && 0 <= p.z <= 1
  }

  lemma VertexInCube(odd: Parity, t: Tet, j: Four)
    ensures UnitPoint(TetVertex(odd, t, j))
  {}

  /** TetSideNeighbors: the side of the neighbour that touches side s of tetrahedron t. */
  function TetSideNeighbor(odd: Parity, t: Tet, s: Four): (r: Four) {
    if odd == 0 then
      match t
      case 0 => Pick(s, 3, 3, 3, 0)
      case 1 => Pick(s, 1, 3, 0, 2)
      case 2 => Pick(s, 2, 2, 2, 1)
      case 3 => Pick(s, 0, 1, 3, 1)
      case 4 => Pick(s, 3, 0, 0, 2)
    else
      match t
      case 0 => Pick(s, 2, 3, 0, 1)
      case 1 => Pick(s, 1, 3, 3, 2)
      case 2 => Pick(s, 2, 1, 1, 0)
      case 3 => Pick(s, 0, 3, 2, 1)
      case 4 => Pick(s, 2, 0, 0, 1)
  }

  /** TetSideOrientations: how side s of tetrahedron t is turned against its neighbour. */
  function TetSideOrientation(odd: Parity, t: Tet, s: Four): (r: Three) {
    if odd == 0 then
      match t
      case 0 => Pick(s, 2, 0, 2, 0)
      case 1 => 0
      case 2 => Pick(s, 0, 0, 0, 1)
      case 3 => Pick(s, 0, 0, 0, 1)
      case 4 => 0
    else
      match t
      case 0 => Pick(s, 0, 1, 0, 0)
      case 1 => Pick(s, 0, 1, 0, 2)
      case 2 => Pick(s, 0, 0, 0, 2)
      case 3 => 0
      case 4 => 0
  }

  /** tetNeighbors: distance from the first tetrahedron of a cube to the neighbour behind side s
      of its tetrahedron t; row and layer are the number of cubes in one row and one layer. */
  function TetNeighbor(row: int, layer: int, odd: Parity, t: Tet, s: Four): (r: int) {
    if odd == 0 then
      match t
      case 0 => Pick(s, -layer * 5 + 2, -row * 5, -4, 4)
      case 1 => Pick(s, 4, -layer * 5 + 3, 5, row * 5 + 1)
      case 2 => Pick(s, 4, 7, -row * 5 + 3, layer * 5 + 1)
      case 3 => Pick(s, -2, row * 5 + 2, 4, layer * 5)
      case 4 => Pick(s, 0, 1, 2, 3)
    else
      match t
      case 0 => Pick(s, -4, -layer * 5 + 3, 4, row * 5)
      case 1 => Pick(s, 4, -layer * 5 + 2, -row * 5 + 1, 5)
      case 2 => Pick(s, 4, -row * 5 + 3, -3, layer * 5)
      case 3 => Pick(s, 8, 4, row * 5 + 2, layer * 5 + 1)
      case 4 => Pick(s, 0, 1, 2, 3)
  }

  /** FACE2NODES: the corners of a side, in the order the solver walks them. */
  function FaceCorner(s: Four, k: Three): (r: Four) {
    Pick(s,
         if k == 0 then 0 else if k == 1 then 2 else 1,
         if k == 0 then 0 else if k == 1 then 1 else 3,
         if k == 0 then 0 else if k == 1 then 3 else 2,
         if k == 0 then 1 else if k == 1 then 2 else 3)
  }

  /** Where a side of a tetrahedron leads: through one of the six planes of its cube, or
      (Inner) to another tetrahedron of the same cube. */
  datatype Dir = XMin | XMax | YMin | YMax | ZMin | ZMax | Inner

  function Opposite(dir: Dir): (r: Dir) {
    match dir
    case XMin => XMax
    case XMax => XMin
    case YMin => YMax
    case YMax => YMin
    case ZMin => ZMax
    case ZMax => ZMin
    case Inner => Inner
  }

  function Unit(dir: Dir): (r: Point) {
    match dir
    case XMin => Point(-1, 0, 0)
    case XMax => Point(1, 0, 0)
    case YMin => Point(0, -1, 0)
    case YMax => Point(0, 1, 0)
    case ZMin => Point(0, 0, -1)
    case ZMax => Point(0, 0, 1)
    case Inner => Point(0, 0, 0)
  }

  datatype Step = Step(dir: Dir, tet: Tet)

  /** The geometric reading of the neighbour table: which plane side s of tetrahedron t lies in
      and which tetrahedron of the cube behind that plane it touches. */
  function StepOf(odd: Parity, t: Tet, s: Four): (r: Step) {
    if odd == 0 then
      match t
      case 0 => Pick(s, Step(ZMin, 2), Step(YMin, 0), Step(XMin, 1), Step(Inner, 4))
      case 1 => Pick(s, Step(Inner, 4), Step(ZMin, 3), Step(XMax, 0), Step(YMax, 1))
      case 2 => Pick(s, Step(Inner, 4), Step(XMax, 2), Step(YMin, 3), Step(ZMax, 1))
      case 3 => Pick(s, Step(XMin, 3), Step(YMax, 2), Step(Inner, 4), Step(ZMax, 0))
      case 4 => Step(Inner, s)
    else
      match t
      case 0 => Pick(s, Step(XMin, 1), Step(ZMin, 3), Step(Inner, 4), Step(YMax, 0))
      case 1 => Pick(s, Step(Inner, 4), Step(ZMin, 2), Step(YMin, 1), Step(XMax, 0))
      case 2 => Pick(s, Step(Inner, 4), Step(YMin, 3), Step(XMin, 2), Step(ZMax, 0))
      case 3 => Pick(s, Step(XMax, 3), Step(Inner, 4), Step(YMax, 2), Step(ZMax, 1))
      case 4 => Step(Inner, s)
  }

  function Behind(odd: Parity, dir: Dir): (r: Parity) {
    if dir == Inner then odd else 1 - odd
  }

  // (h - k) mod 3
  function Turned(h: Three, k: Three): (r: Three) {
    if k <= h then h - k else h - k + 3
  }

  /** Corner k of side s of tetrahedron t is the corner with the number the stored orientation
      says, of the stored side of the tetrahedron behind s. */
  ghost predicate CornersMeet(odd: Parity, t: Tet, s: Four, k: Three) {
    var st := StepOf(odd, t, s);
    Moved(TetVertex(odd, t, FaceCorner(s, k)),
          TetVertex(Behind(odd, st.dir), st.tet,
                    FaceCorner(TetSideNeighbor(odd, t, s), Turned(TetSideOrientation(odd, t, s), k))),
          Unit(st.dir))
  }

  /** Crossing side s of tetrahedron t and crossing back through the stored side of the
      neighbour returns to the start, and both sides store the same orientation. */
  ghost predicate LeadsBack(odd: Parity, t: Tet, s: Four) {
    var st := StepOf(odd, t, s);
    var there, s1 := Behind(odd, st.dir), TetSideNeighbor(odd, t, s);
    && StepOf(there, st.tet, s1) == Step(Opposite(st.dir), t)
    && TetSideNeighbor(there, st.tet, s1) == s
    && TetSideOrientation(there, st.tet, s1) == TetSideOrientation(odd, t, s)
  }

  lemma TablesLeadBack(odd: Parity, t: Tet, s: Four)
    ensures LeadsBack(odd, t, s)
  {}

  /** All forty rows of the tables agree, corner by corner. The five tetrahedra are checked apart,
      because one proof for all of them is slow. */
  lemma TableCornersMeet(odd: Parity, t: Tet, s: Four, k: Three)
    ensures CornersMeet(odd, t, s, k)
  {
    hide CornersMeet;
    match t
    case 0 => CornersMeet0(odd, s, k);
    case 1 => CornersMeet1(odd, s, k);
    case 2 => CornersMeet2(odd, s, k);
    case 3 => CornersMeet3(odd, s, k);
    case 4 => CornersMeet4(odd, s, k);
  }

  lemma CornersMeet0(odd: Parity, s: Four, k: Three)
    ensures CornersMeet(odd, 0, s, k)
  {}

  lemma CornersMeet1(odd: Parity, s: Four, k: Three)
    ensures CornersMeet(odd, 1, s, k)
  {}

  lemma CornersMeet2(odd: Parity, s: Four, k: Three)
    ensures CornersMeet(odd, 2, s, k)
  {}

  lemma CornersMeet3(odd: Parity, s: Four, k: Three)
    ensures CornersMeet(odd, 3, s, k)
  {}

  lemma CornersMeet4(odd: Parity, s: Four, k: Three)
    ensures CornersMeet(odd, 4, s, k)
  {}
}
