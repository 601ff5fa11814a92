/** Which elements touch a vertex. */
module CubeIncidence {
  import opened CubeTables
  import opened CubeLayout
  import opened CubeMesh
  import F = CubeFill
  import V = CubeVertices

  /** The list of vertex v after the first n corners: the element of every corner at v. */
  ghost function Incident(ids: seq<int>, v: int, n: nat): (r: seq<int>)
    requires n <= |ids|
  {
    if n == 0 then []
    else Incident(ids, v, n - 1) + (if ids[n - 1] == v then [(n - 1) / 4] else [])
  }

  ghost predicate Numbered(ids: seq<int>, count: nat) {
    forall i | 0 <= i < |ids| :: 0 <= ids[i] < count
  }

  /** findElementsPerVertex: every element is appended to the lists of its four corners. */
  method FindElementsPerVertex(ids: array<int>, lists: array<seq<int>>)
    requires ids.Length % 4 == 0 && Numbered(ids[..], lists.Length)
    requires forall v | 0 <= v < lists.Length :: lists[v] == []
    modifies lists
    ensures forall v | 0 <= v < lists.Length :: lists[v] == Incident(ids[..], v, ids.Length)
  {
    ghost var s := ids[..];
    for e := 0 to ids.Length / 4
      invariant forall v | 0 <= v < lists.Length :: lists[v] == Incident(s, v, 4 * e)
    {
      for j := 0 to 4
        invariant forall v | 0 <= v < lists.Length :: lists[v] == Incident(s, v, 4 * e + j)
      {
        assert s[4 * e + j] == ids[4 * e + j];
        lists[ids[4 * e + j]] := lists[ids[4 * e + j]] + [e];
      }
    }
  }

  // Element e has a corner at vertex v among the first n corners.
  ghost predicate HasCorner(ids: seq<int>, v: int, e: int, n: nat)
    requires n <= |ids|
  {
    exists i :: 0 <= i < n && i / 4 == e && ids[i] == v
  }

  /** An element is in the list of a vertex exactly when the vertex is one of its corners. */
  lemma {:induction false} IncidentIffCorner(ids: seq<int>, v: int, e: int, n: nat)
    requires n <= |ids|
    ensures e in Incident(ids, v, n) <==> HasCorner(ids, v, e, n)
  {
    if n > 0 {
      IncidentIffCorner(ids, v, e, n - 1);
      if ids[n - 1] == v && (n - 1) / 4 == e {
        assert HasCorner(ids, v, e, n);
      }
    }
  }

  // The corners of one element have different numbers.
  ghost predicate CornersDistinct(ids: seq<int>) {
    forall i, k | 0 <= i < k < |ids| && i / 4 == k / 4 :: ids[i] != ids[k]
  }

  ghost predicate Increasing(s: seq<int>) {
    forall i, k | 0 <= i < k < |s| :: s[i] < s[k]
  }

  /** Every list is strictly increasing: no element is listed twice. */
  lemma {:induction false} IncidentIncreases(ids: seq<int>, v: int, n: nat)
    requires n <= |ids| && CornersDistinct(ids)
    ensures Increasing(Incident(ids, v, n))
    ensures forall e | e in Incident(ids, v, n) :: 0 <= e <= (n - 1) / 4
  {
    if n > 0 {
      IncidentIncreases(ids, v, n - 1);
      if ids[n - 1] == v {
        var before := Incident(ids, v, n - 1);
        forall e | e in before
          ensures e < (n - 1) / 4
        {
          IncidentIffCorner(ids, v, e, n - 1);
          var i :| 0 <= i < n - 1 && i / 4 == e && ids[i] == v;
          assert i / 4 != (n - 1) / 4;
        }
        forall i | 0 <= i < |before|
          ensures before[i] < (n - 1) / 4
        {
          assert before[i] in before;
        }
      }
    }
  }

  // Lengths of the lists of the first count vertices.
  ghost function TotalLength(ids: seq<int>, count: nat, n: nat): (r: nat)
    requires n <= |ids|
  {
    if count == 0 then 0 else TotalLength(ids, count - 1, n) + |Incident(ids, count - 1, n)|
  }

  lemma {:induction false} TotalGrows(ids: seq<int>, count: nat, n: nat)
    requires 0 < n <= |ids| && 0 <= ids[n - 1]
    ensures TotalLength(ids, count, n) == TotalLength(ids, count, n - 1) + (if ids[n - 1] < count then 1 else 0)
  {
    if count > 0 {
      TotalGrows(ids, count - 1, n);
    }
  }

  lemma {:induction false} NothingAtFirst(ids: seq<int>, count: nat)
    ensures TotalLength(ids, count, 0) == 0
  {
    if count > 0 {
      NothingAtFirst(ids, count - 1);
    }
  }

  /** The lists together have one entry for each corner. */
  lemma {:induction false} LengthsAddUp(ids: seq<int>, count: nat, n: nat)
    requires n <= |ids| && Numbered(ids, count)
    ensures TotalLength(ids, count, n) == n
  {
    if n > 0 {
      LengthsAddUp(ids, count, n - 1);
      TotalGrows(ids, count, n);
    } else {
      NothingAtFirst(ids, count);
    }
  }

  lemma TetCornersDiffer(odd: Parity, t: Tet, j: Four, k: Four)
    requires TetVertex(odd, t, j) == TetVertex(odd, t, k)
    ensures j == k
  {}

  /** In the generated mesh the corners of an element are four different vertices. */
  lemma MeshCornersDistinct(d: Dims, ids: array<int>, m: map<Point, int>)
    requires F.Fits(d, ids) && V.HoldsVertices(d, ids, m)
    ensures CornersDistinct(ids[..]) && Numbered(ids[..], |m|)
  {
    hide TetVertex, OddOf, SlotOf, NumCubes, Cell;
    var s := ids[..];
    forall i | 0 <= i < |s|
      ensures 0 <= s[i] < |m|
    {
      SlotOfEntryAt(d, i);
    }
    forall i, k | 0 <= i < k < |s| && i / 4 == k / 4
      ensures s[i] != s[k]
    {
      var f, g := EntryAt(d, i), EntryAt(d, k);
      SlotOfEntryAt(d, i);
      SlotOfEntryAt(d, k);
      SameElement(d, i, k);
      V.SameIdIffSamePoint(d, ids, m, f, g);
      if s[i] == s[k] {
        TetCornersDiffer(OddOf(f.cube), f.tet, f.j, g.j);
        assert false;
      }
    }
  }

  // Slots of one element belong to one tetrahedron.
  lemma SameElement(d: Dims, i: nat, k: nat)
    requires i < 20 * NumCubes(d) && k < 20 * NumCubes(d) && i / 4 == k / 4
    ensures var f, g := EntryAt(d, i), EntryAt(d, k);
            f.cube == g.cube && f.tet == g.tet && (f.j == g.j <==> i == k)
  {
    hide NumCubes, Cell;
    var f, g := EntryAt(d, i), EntryAt(d, k);
    assert i / 4 == 5 * Cell(d, f.cube) + f.tet;
    assert k / 4 == 5 * Cell(d, g.cube) + g.tet;
    CellInjective(d, f.cube, g.cube);
  }
}
