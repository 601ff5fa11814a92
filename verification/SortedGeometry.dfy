/** Two meshes with different numberings of the same points become comparable. */
module SortedGeometry {
  import opened FuzzySort
  import opened Wrappers

  // ---- one order for all numberings ----

  lemma {:induction false} LexAsymmetric(exact: Rows, a: nat, b: nat, dim: nat)
    requires dim <= |exact| && InRows(exact, a) && InRows(exact, b)
    ensures !(LexLess(exact, a, b, dim) && LexLess(exact, b, a, dim))
    decreases |exact| - dim
  {
    if dim < |exact| {
      LexAsymmetric(exact, a, b, dim + 1);
    }
  }

  lemma RestCounts(s: seq<nat>)
    requires s != []
    ensures s == [s[0]] + s[1..] && multiset(s[1..]) == multiset(s) - multiset{s[0]}
  {
    assert s == [s[0]] + s[1..];
  }

  /** A set of points has only one sorted list. */
  lemma {:induction false} SortedListUnique(exact: Rows, r: seq<nat>, s: seq<nat>, dim: nat)
    requires dim <= |exact| && AllInRows(exact, r) && AllInRows(exact, s)
    requires LexSorted(exact, r, dim) && LexSorted(exact, s, dim) && multiset(r) == multiset(s)
    ensures r == s
  {
    hide *;
    SameMembers(r, s);
    if r != [] {
      FirstIsSame(exact, r, s, dim);
      RestCounts(r);
      RestCounts(s);
      TailSorted(exact, r, dim);
      TailSorted(exact, s, dim);
      SortedListUnique(exact, r[1..], s[1..], dim);
    }
  }

  lemma TailSorted(exact: Rows, r: seq<nat>, dim: nat)
    requires r != [] && dim <= |exact| && AllInRows(exact, r) && LexSorted(exact, r, dim)
    ensures AllInRows(exact, r[1..]) && LexSorted(exact, r[1..], dim)
  {}

  lemma FirstIsSame(exact: Rows, r: seq<nat>, s: seq<nat>, dim: nat)
    requires dim <= |exact| && AllInRows(exact, r) && AllInRows(exact, s) && r != [] && |s| == |r|
    requires LexSorted(exact, r, dim) && LexSorted(exact, s, dim) && forall p :: p in r <==> p in s
    ensures r[0] == s[0]
  {
    assert r[0] in s && s[0] in r;
    var i :| 0 <= i < |s| && s[i] == r[0];
    var j :| 0 <= j < |r| && r[j] == s[0];
    if i > 0 && j > 0 {
      LexAsymmetric(exact, r[0], s[0], dim);
    }
  }

  // 0, 1, ..., n - 1
  function Numbers(n: nat): (s: seq<nat>)
    ensures |s| == n && forall k | 0 <= k < n :: s[k] == k
  {
    seq(n, k requires 0 <= k < n => k)
  }

  ghost predicate Inside(s: seq<nat>, n: nat) {
    forall k | 0 <= k < |s| :: s[k] < n
  }

  // Every number of s is looked up in a table.
  function Via<T>(table: seq<T>, s: seq<nat>): (r: seq<T>)
    requires Inside(s, |table|)
    ensures |r| == |s| && forall k | 0 <= k < |s| :: r[k] == table[s[k]]
  {
    seq(|s|, k requires 0 <= k < |s| => table[s[k]])
  }

  function Without(s: seq<nat>, i: nat): (r: seq<nat>)
    requires i < |s|
  {
    s[..i] + s[i + 1..]
  }

  lemma WithoutCounts(s: seq<nat>, i: nat)
    requires i < |s|
    ensures multiset(Without(s, i)) == multiset(s) - multiset{s[i]}
    ensures multiset(s) == multiset(Without(s, i)) + multiset{s[i]}
  {
    assert s == s[..i] + [s[i]] + s[i + 1..];
  }

  lemma ViaWithout(table: seq<nat>, s: seq<nat>, i: nat)
    requires Inside(s, |table|) && i < |s|
    ensures Inside(Without(s, i), |table|) && Via(table, Without(s, i)) == Without(Via(table, s), i)
  {}

  lemma {:induction false} ViaKeepsMultisets(table: seq<nat>, s: seq<nat>, r: seq<nat>)
    requires Inside(s, |table|) && Inside(r, |table|) && multiset(s) == multiset(r)
    ensures multiset(Via(table, s)) == multiset(Via(table, r))
    decreases |s|
  {
    SameMembers(s, r);
    if s != [] {
      assert s[0] in r;
      var i :| 0 <= i < |r| && r[i] == s[0];
      ViaStep(table, s, r, i);
    }
  }

  lemma {:induction false} ViaStep(table: seq<nat>, s: seq<nat>, r: seq<nat>, i: nat)
    requires Inside(s, |table|) && Inside(r, |table|) && multiset(s) == multiset(r)
    requires s != [] && i < |r| && r[i] == s[0]
    ensures multiset(Via(table, s)) == multiset(Via(table, r))
    decreases |s|, 0
  {
    WithoutCounts(s, 0);
    WithoutCounts(r, i);
    ViaWithout(table, s, 0);
    ViaWithout(table, r, i);
    SmallerWithout(s, 0);
    WithoutCounts(Via(table, s), 0);
    WithoutCounts(Via(table, r), i);
    hide *;
    ViaKeepsMultisets(table, Without(s, 0), Without(r, i));
  }

  lemma SmallerWithout(s: seq<nat>, i: nat)
    requires i < |s|
    ensures |Without(s, i)| < |s|
  {}

  ghost predicate IsNumbering(ind: seq<nat>, n: nat) {
    multiset(ind) == multiset(Numbers(n))
  }

  lemma {:induction false} NumbersCountOne(n: nat, x: nat)
    ensures multiset(Numbers(n))[x] == if x < n then 1 else 0
  {
    if n > 0 {
      NumbersCountOne(n - 1, x);
      assert Numbers(n) == Numbers(n - 1) + [n - 1];
    }
  }

  lemma CountsTwice(s: seq<nat>, i: nat, j: nat)
    requires i < j < |s| && s[i] == s[j]
    ensures multiset(s)[s[i]] >= 2
  {
    WithoutCounts(s, i);
    assert Without(s, i)[j - 1] == s[j];
  }

  /** A numbering names every number once. */
  lemma NumberingIsBijective(ind: seq<nat>, n: nat)
    requires IsNumbering(ind, n)
    ensures |ind| == n && Inside(ind, n)
    ensures forall i, j | 0 <= i < j < n :: ind[i] != ind[j]
    ensures forall v | 0 <= v < n :: v in ind
  {
    SameMembers(ind, Numbers(n));
    forall k | 0 <= k < n
      ensures ind[k] < n
    {
      assert ind[k] in ind && ind[k] in Numbers(n);
    }
    forall i, j | 0 <= i < j < n
      ensures ind[i] != ind[j]
    {
      NumbersCountOne(n, ind[i]);
      if ind[i] == ind[j] {
        CountsTwice(ind, i, j);
      }
    }
    forall v | 0 <= v < n
      ensures v in ind
    {
      assert Numbers(n)[v] in Numbers(n);
    }
  }

  // Point p of one numbering is point name[p] of the other; both have the same exact coordinates.
  ghost predicate Renames(name: seq<nat>, exact1: Rows, exact2: Rows, n: nat) {
    && IsNumbering(name, n) && |name| == n && Inside(name, n) && |exact1| == |exact2|
    && (forall d | 0 <= d < |exact1| :: |exact1[d]| == |exact2[d]| == n)
    && (forall d, p | 0 <= d < |exact1| && 0 <= p < n :: exact2[d][name[p]] == exact1[d][p])
  }

  lemma {:induction false} SameOrder(name: seq<nat>, exact1: Rows, exact2: Rows, n: nat, a: nat, b: nat, dim: nat)
    requires Renames(name, exact1, exact2, n) && a < n && b < n && dim <= |exact1|
    ensures LexLess(exact1, a, b, dim) <==> LexLess(exact2, name[a], name[b], dim)
    decreases |exact1| - dim
  {
    if dim < |exact1| {
      SameOrder(name, exact1, exact2, n, a, b, dim + 1);
    }
  }

  /** Whatever the numbering, the points come out in the same order. */
  lemma OrderIsCanonical(name: seq<nat>, exact1: Rows, exact2: Rows, n: nat, r1: seq<nat>, r2: seq<nat>)
    requires Renames(name, exact1, exact2, n) && IsNumbering(r1, n) && IsNumbering(r2, n)
    requires AllInRows(exact1, r1) && AllInRows(exact2, r2)
    requires LexSorted(exact1, r1, 0) && LexSorted(exact2, r2, 0)
    ensures Inside(r1, n) && r2 == Via(name, r1)
  {
    NumberingIsBijective(r1, n);
    var r := Via(name, r1);
    ViaKeepsMultisets(name, r1, Numbers(n));
    assert Via(name, Numbers(n)) == name;
    forall i, j | 0 <= i < j < |r|
      ensures InRows(exact2, r[i]) && InRows(exact2, r[j]) && LexLess(exact2, r[i], r[j], 0)
    {
      SameOrder(name, exact1, exact2, n, r1[i], r1[j], 0);
    }
    assert AllInRows(exact2, r);
    SortedListUnique(exact2, r, r2, 0);
  }

  // ---- the inverse table and the triangles ----

  ghost predicate Inverse(ind: seq<nat>, inv: seq<nat>) {
    && |inv| == |ind| && Inside(ind, |ind|) && Inside(inv, |ind|)
    && (forall k | 0 <= k < |ind| :: inv[ind[k]] == k)
    && (forall v | 0 <= v < |ind| :: ind[inv[v]] == v)
  }

  /** lookup_sorted_geom: the sorting indices and the inverse table. */
  method LookupSortedGeom(rows: Rows, n: nat, tol: real, ghost exact: Rows) returns (r: Result<(seq<nat>, seq<nat>), SortError>)
    requires |rows| > 0 && forall d | 0 <= d < |rows| :: |rows[d]| == n
    ensures r.Ok? <==> n >= 2
    ensures r.Ok? ==> IsNumbering(r.value.0, n) && Inverse(r.value.0, r.value.1)
    ensures r.Ok? ==> InOrderUpTo(rows[0], r.value.0, tol)
    ensures r.Ok? && Tellable(rows, exact, Numbers(n), 0, tol) ==>
              AllInRows(exact, r.value.0) && LexSorted(exact, r.value.0, 0)
  {
    hide Fuzzy, InOrderUpTo, Tellable, LexSorted;
    var sorted := FuzzySort.FuzzySort(rows, Numbers(n), 0, tol, exact);
    if sorted.Err? {
      return Err(sorted.error);
    }
    var ind := sorted.value;
    NumberingIsBijective(ind, n);
    hide AllInRows, IsNumbering;
    var inv := new nat[n](_ => 0);
    for k := 0 to n
      invariant forall i | 0 <= i < k :: inv[ind[i]] == i
    {
      inv[ind[k]] := k;
    }
    forall v | 0 <= v < n
      ensures inv[v] < n && ind[inv[v]] == v
    {
      assert v in ind;
      var k :| 0 <= k < n && ind[k] == v;
    }
    return Ok((ind, inv[..]));
  }

  // geom[ind, :]
  function Reordered(rows: Rows, ind: seq<nat>): (r: Rows)
    requires forall d | 0 <= d < |rows| :: Inside(ind, |rows[d]|)
    ensures |r| == |rows| && forall d | 0 <= d < |rows| :: r[d] == Via(rows[d], ind)
  {
    seq(|rows|, d requires 0 <= d < |rows| && Inside(ind, |rows[d]|) => Via(rows[d], ind))
  }

  /** Reindexing keeps the mesh: every corner of every triangle stays where it is. */
  lemma ReindexKeepsPoints(rows: Rows, ind: seq<nat>, inv: seq<nat>, d: nat, row: seq<nat>, c: nat)
    requires Inverse(ind, inv) && d < |rows| && (forall e | 0 <= e < |rows| :: |rows[e]| == |ind|)
    requires Inside(row, |ind|) && c < |row|
    ensures Reordered(rows, ind)[d][Via(inv, row)[c]] == rows[d][row[c]]
  {}

  predicate Ascending(s: seq<nat>) {
    forall i, j | 0 <= i < j < |s| :: s[i] <= s[j]
  }

  function InsertNumber(s: seq<nat>, x: nat): (r: seq<nat>)
    requires Ascending(s)
    ensures |r| == |s| + 1 && (forall y | y in r :: y == x || y in s) && Ascending(r)
  {
    if s == [] || x <= s[0] then [x] + s
    else
      var r := InsertNumber(s[1..], x);
      assert forall k | 0 <= k < |r| :: r[k] in r;
      [s[0]] + r
  }

  lemma {:induction false} InsertNumberKeeps(s: seq<nat>, x: nat)
    requires Ascending(s)
    ensures multiset(InsertNumber(s, x)) == multiset(s) + multiset{x}
  {
    if s != [] && x > s[0] {
      InsertNumberKeeps(s[1..], x);
      assert s == [s[0]] + s[1..];
    }
  }

  /** np.sort of one row. */
  function SortRow(s: seq<nat>): (r: seq<nat>)
    ensures Ascending(r) && multiset(r) == multiset(s)
  {
    if s == [] then []
    else
      assert s == [s[0]] + s[1..];
      InsertNumberKeeps(SortRow(s[1..]), s[0]);
      InsertNumber(SortRow(s[1..]), s[0])
  }

  lemma AscendingStartsAlike(r: seq<nat>, s: seq<nat>)
    requires Ascending(r) && Ascending(s) && multiset(r) == multiset(s) && r != []
    ensures s != [] && r[0] == s[0]
  {
    SameMembers(r, s);
    assert r[0] in s && s[0] in r;
  }

  lemma AscendingRest(s: seq<nat>)
    requires Ascending(s) && s != []
    ensures Ascending(s[1..]) && multiset(s[1..]) == multiset(s) - multiset{s[0]}
  {
    assert s == [s[0]] + s[1..];
  }

  lemma {:induction false} AscendingUnique(r: seq<nat>, s: seq<nat>)
    requires Ascending(r) && Ascending(s) && multiset(r) == multiset(s)
    ensures r == s
  {
    hide Ascending;
    SameMembers(r, s);
    if r != [] {
      AscendingStartsAlike(r, s);
      AscendingRest(r);
      AscendingRest(s);
      AscendingUnique(r[1..], s[1..]);
      assert r == [r[0]] + r[1..] && s == [s[0]] + s[1..];
    }
  }

  /** Two triangles of two numberings of one mesh get the same row exactly when they have the same
      three corners. */
  lemma SameRowIffSameTriangle(name: seq<nat>, n: nat, ind1: seq<nat>, inv1: seq<nat>, ind2: seq<nat>, inv2: seq<nat>,
                               row1: seq<nat>, row2: seq<nat>)
    requires |name| == |ind1| == n && Inside(name, n) && Inside(ind1, n) && ind2 == Via(name, ind1)
    requires Inverse(ind1, inv1) && Inverse(ind2, inv2) && Inside(row1, n) && Inside(row2, n)
    ensures SortRow(Via(inv1, row1)) == SortRow(Via(inv2, row2)) <==> multiset(Via(name, row1)) == multiset(row2)
  {
    var moved := Via(name, row1);
    forall k | 0 <= k < |row1|
      ensures inv2[moved[k]] == inv1[row1[k]]
    {
      assert ind2[inv1[row1[k]]] == moved[k];
    }
    assert Via(inv2, moved) == Via(inv1, row1);
    if multiset(moved) == multiset(row2) {
      ViaKeepsMultisets(inv2, moved, row2);
      AscendingUnique(SortRow(Via(inv1, row1)), SortRow(Via(inv2, row2)));
    }
    if SortRow(Via(inv1, row1)) == SortRow(Via(inv2, row2)) {
      ViaKeepsMultisets(ind2, Via(inv2, moved), Via(inv2, row2));
      assert Via(ind2, Via(inv2, moved)) == moved && Via(ind2, Via(inv2, row2)) == row2;
    }
  }

  ghost predicate Triangles(connect: seq<seq<nat>>, n: nat) {
    forall t | 0 <= t < |connect| :: Inside(connect[t], n)
  }

  ghost predicate Reindexed(connect: seq<seq<nat>>, inv: seq<nat>, c: seq<seq<nat>>)
    requires Triangles(connect, |inv|)
  {
    |c| == |connect| && forall t | 0 <= t < |c| :: c[t] == SortRow(Via(inv, connect[t]))
  }

  /** The part of return_sorted_geom_connect behind the merging of equal vertices. */
  method ReturnSortedGeomConnect(rows: Rows, n: nat, connect: seq<seq<nat>>, tol: real, ghost exact: Rows)
    returns (r: Result<(Rows, seq<seq<nat>>), SortError>, ghost ind: seq<nat>, ghost inv: seq<nat>)
    requires |rows| > 0 && (forall d | 0 <= d < |rows| :: |rows[d]| == n) && Triangles(connect, n)
    ensures r.Ok? <==> n >= 2
    ensures r.Ok? ==> IsNumbering(ind, n) && |ind| == n && Inverse(ind, inv)
    ensures r.Ok? ==> r.value.0 == Reordered(rows, ind) && Reindexed(connect, inv, r.value.1)
    ensures r.Ok? && Tellable(rows, exact, Numbers(n), 0, tol) ==> AllInRows(exact, ind) && LexSorted(exact, ind, 0)
  {
    hide Tellable, LexSorted, AllInRows, InOrderUpTo, Fuzzy;
    var found := LookupSortedGeom(rows, n, tol, exact);
    if found.Err? {
      return Err(found.error), [], [];
    }
    ind, inv := found.value.0, found.value.1;
    NumberingIsBijective(found.value.0, n);
    var sorted: seq<seq<nat>> := [];
    for t := 0 to |connect|
      invariant |sorted| == t && forall k | 0 <= k < t :: sorted[k] == SortRow(Via(inv, connect[k]))
    {
      sorted := sorted + [SortRow(Via(found.value.1, connect[t]))];
    }
    r := Ok((Reordered(rows, found.value.0), sorted));
  }

  // Every measured coordinate is at most eps off.
  ghost predicate Measures(rows: Rows, exact: Rows, eps: real) {
    && |rows| == |exact| && (forall d | 0 <= d < |rows| :: |rows[d]| == |exact[d]|)
    && forall d, p | 0 <= d < |rows| && 0 <= p < |rows[d]| :: -eps <= rows[d][p] - exact[d][p] <= eps
  }

  lemma MeasuredPointsAgree(name: seq<nat>, exact1: Rows, exact2: Rows, rows1: Rows, rows2: Rows, eps: real, n: nat,
                            ind1: seq<nat>, ind2: seq<nat>)
    requires Renames(name, exact1, exact2, n) && Inside(ind1, n) && ind2 == Via(name, ind1) && Inside(ind2, n)
    requires Measures(rows1, exact1, eps) && Measures(rows2, exact2, eps)
    ensures Measures(Reordered(rows1, ind1), Reordered(rows2, ind2), 2.0 * eps)
  {
    var m1, m2 := Reordered(rows1, ind1), Reordered(rows2, ind2);
    forall d, k | 0 <= d < |rows1| && 0 <= k < |ind1|
      ensures -(2.0 * eps) <= m1[d][k] - m2[d][k] <= 2.0 * eps
    {
      assert exact2[d][name[ind1[k]]] == exact1[d][ind1[k]];
      assert -eps <= rows1[d][ind1[k]] - exact1[d][ind1[k]] <= eps;
      assert -eps <= rows2[d][ind2[k]] - exact2[d][ind2[k]] <= eps;
    }
  }

  /** One mesh has one form: if the points of two numberings are sorted exactly, the two lists of
      points agree, exactly in their exact and up to twice the error in their measured coordinates, and
      two triangles get one row exactly when they are the same triangle. */
  lemma OneMeshOneForm(name: seq<nat>, exact1: Rows, exact2: Rows, n: nat, ind1: seq<nat>, inv1: seq<nat>,
                       ind2: seq<nat>, inv2: seq<nat>, connect1: seq<seq<nat>>, connect2: seq<seq<nat>>,
                       c1: seq<seq<nat>>, c2: seq<seq<nat>>, t1: nat, t2: nat, rows1: Rows, rows2: Rows, eps: real)
    requires Renames(name, exact1, exact2, n)
    requires IsNumbering(ind1, n) && |ind1| == n && Inverse(ind1, inv1) && AllInRows(exact1, ind1)
    requires LexSorted(exact1, ind1, 0)
    requires IsNumbering(ind2, n) && |ind2| == n && Inverse(ind2, inv2) && AllInRows(exact2, ind2)
    requires LexSorted(exact2, ind2, 0)
    requires Triangles(connect1, n) && Reindexed(connect1, inv1, c1) && t1 < |c1|
    requires Triangles(connect2, n) && Reindexed(connect2, inv2, c2) && t2 < |c2|
    requires Measures(rows1, exact1, eps) && Measures(rows2, exact2, eps)
    ensures Reordered(exact1, ind1) == Reordered(exact2, ind2)
    ensures Measures(Reordered(rows1, ind1), Reordered(rows2, ind2), 2.0 * eps)
    ensures c1[t1] == c2[t2] <==> multiset(Via(name, connect1[t1])) == multiset(connect2[t2])
  {
    OrderIsCanonical(name, exact1, exact2, n, ind1, ind2);
    SameRowIffSameTriangle(name, n, ind1, inv1, ind2, inv2, connect1[t1], connect2[t2]);
    SamePoints(name, exact1, exact2, n, ind1, ind2);
    MeasuredPointsAgree(name, exact1, exact2, rows1, rows2, eps, n, ind1, ind2);
    hide *;
  }

  lemma SamePoints(name: seq<nat>, exact1: Rows, exact2: Rows, n: nat, ind1: seq<nat>, ind2: seq<nat>)
    requires Renames(name, exact1, exact2, n) && Inside(ind1, n) && ind2 == Via(name, ind1) && Inside(ind2, n)
    ensures Reordered(exact1, ind1) == Reordered(exact2, ind2)
  {
    forall d | 0 <= d < |exact1|
      ensures Via(exact1[d], ind1) == Via(exact2[d], ind2)
    {}
  }
}
