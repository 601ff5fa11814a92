/** Sorting points by their coordinates although every coordinate is slightly off. */
module FuzzySort {
  import opened Wrappers

  // One row of coordinates for each dimension; a point is a column.
  type Rows = seq<seq<real>>

  datatype SortError = IndexError | UnboundLocalError

  ghost predicate InRows(rows: Rows, p: nat) {
    forall d | 0 <= d < |rows| :: p < |rows[d]|
  }

  ghost predicate AllInRows(rows: Rows, idx: seq<nat>) {
    forall p | p in idx :: InRows(rows, p)
  }

  // ---- the stable sort of the language ----

  ghost predicate SortedBy(key: seq<real>, s: seq<nat>) {
    && (forall k | 0 <= k < |s| :: s[k] < |key|)
    && (forall i, j | 0 <= i < j < |s| :: key[s[i]] <= key[s[j]])
  }

  // p goes behind everything that is not larger.
  function Insert(s: seq<nat>, p: nat, key: seq<real>): (r: seq<nat>)
    requires SortedBy(key, s) && p < |key|
    ensures |r| == |s| + 1 && forall x | x in r :: x == p || x in s
    ensures SortedBy(key, r)
  {
    if s == [] || key[p] < key[s[0]] then [p] + s
    else
      var r := Insert(s[1..], p, key);
      assert forall k | 0 <= k < |r| :: r[k] in r;
      [s[0]] + r
  }

  lemma {:induction false} InsertKeeps(s: seq<nat>, p: nat, key: seq<real>)
    requires SortedBy(key, s) && p < |key|
    ensures multiset(Insert(s, p, key)) == multiset(s) + multiset{p}
  {
    InsertSplits(s, p, key);
    hide Insert, SortedBy;
    if s != [] && key[p] >= key[s[0]] {
      InsertKeeps(s[1..], p, key);
    }
  }

  /** sorted(idx, key=...). */
  function Sorted(idx: seq<nat>, key: seq<real>): (r: seq<nat>)
    requires forall k | 0 <= k < |idx| :: idx[k] < |key|
    ensures SortedBy(key, r) && multiset(r) == multiset(idx)
  {
    if idx == [] then []
    else
      var n := |idx| - 1;
      assert idx == idx[..n] + [idx[n]];
      InsertKeeps(Sorted(idx[..n], key), idx[n], key);
      Insert(Sorted(idx[..n], key), idx[n], key)
  }

  // The points with key v, in order.
  function WithKey(s: seq<nat>, key: seq<real>, v: real): (r: seq<nat>)
    requires forall k | 0 <= k < |s| :: s[k] < |key|
  {
    if s == [] then [] else (if key[s[0]] == v then [s[0]] else []) + WithKey(s[1..], key, v)
  }

  lemma {:induction false} NoneWithKey(s: seq<nat>, key: seq<real>, v: real)
    requires forall k | 0 <= k < |s| :: s[k] < |key| && key[s[k]] != v
    ensures WithKey(s, key, v) == []
  {
    if s != [] {
      NoneWithKey(s[1..], key, v);
    }
  }

  lemma WithKeyStarts(p: nat, s: seq<nat>, key: seq<real>, v: real)
    requires p < |key| && forall k | 0 <= k < |s| :: s[k] < |key|
    ensures WithKey([p] + s, key, v) == (if key[p] == v then [p] else []) + WithKey(s, key, v)
  {
    assert ([p] + s)[1..] == s;
  }

  lemma InsertedInFront(s: seq<nat>, p: nat, key: seq<real>, v: real)
    requires SortedBy(key, s) && p < |key| && s != [] && key[p] < key[s[0]]
    ensures WithKey([p] + s, key, v) == WithKey(s, key, v) + (if key[p] == v then [p] else [])
  {
    WithKeyStarts(p, s, key, v);
    if key[p] == v {
      NoneWithKey(s, key, v);
    }
    hide WithKey;
  }

  lemma RestSortedBy(s: seq<nat>, key: seq<real>)
    requires SortedBy(key, s) && s != []
    ensures SortedBy(key, s[1..]) && s[0] < |key| && s == [s[0]] + s[1..]
  {}

  lemma InsertSplits(s: seq<nat>, p: nat, key: seq<real>)
    requires SortedBy(key, s) && p < |key|
    ensures s == [] ==> Insert(s, p, key) == [p] + []
    ensures s != [] ==> SortedBy(key, s[1..]) && s[0] < |key| && s == [s[0]] + s[1..]
    ensures s != [] && key[p] < key[s[0]] ==> Insert(s, p, key) == [p] + s
    ensures s != [] && key[p] >= key[s[0]] ==> Insert(s, p, key) == [s[0]] + Insert(s[1..], p, key)
  {
    if s != [] {
      RestSortedBy(s, key);
    }
    hide SortedBy;
  }

  lemma {:induction false} InsertIsStable(s: seq<nat>, p: nat, key: seq<real>, v: real)
    requires SortedBy(key, s) && p < |key|
    ensures WithKey(Insert(s, p, key), key, v) == WithKey(s, key, v) + (if key[p] == v then [p] else [])
    decreases |s|
  {
    InsertSplits(s, p, key);
    hide Insert;
    if s == [] {
      WithKeyStarts(p, [], key, v);
    } else {
      hide WithKey;
      if key[p] < key[s[0]] {
        InsertedInFront(s, p, key, v);
      } else {
        InsertIsStable(s[1..], p, key, v);
        WithKeyStarts(s[0], s[1..], key, v);
        WithKeyStarts(s[0], Insert(s[1..], p, key), key, v);
      }
    }
  }

  /** Points with equal keys stay in the order they had. */
  lemma {:induction false} SortedIsStable(idx: seq<nat>, key: seq<real>, v: real)
    requires forall k | 0 <= k < |idx| :: idx[k] < |key|
    ensures WithKey(Sorted(idx, key), key, v) == WithKey(idx, key, v)
  {
    if idx != [] {
      var n := |idx| - 1;
      SortedIsStable(idx[..n], key, v);
      InsertIsStable(Sorted(idx[..n], key), idx[n], key, v);
      WithKeyEnds(idx[..n], idx[n], key, v);
      assert idx[..n] + [idx[n]] == idx;
      hide WithKey, Insert;
    }
  }

  lemma {:induction false} WithKeyEnds(s: seq<nat>, p: nat, key: seq<real>, v: real)
    requires p < |key| && forall k | 0 <= k < |s| :: s[k] < |key|
    ensures WithKey(s + [p], key, v) == WithKey(s, key, v) + (if key[p] == v then [p] else [])
  {
    if s == [] {
      assert s + [p] == [p] + [];
      WithKeyStarts(p, [], key, v);
    } else {
      WithKeyEnds(s[1..], p, key, v);
      WithKeyStarts(s[0], s[1..], key, v);
      WithKeyStarts(s[0], s[1..] + [p], key, v);
      hide WithKey;
      assert [s[0]] + s[1..] == s && [s[0]] + (s[1..] + [p]) == s + [p];
    }
  }

  // ---- what makes the result canonical ----

  /** Point a comes before point b in the order of the dimensions from dim on. */
  ghost predicate LexLess(exact: Rows, a: nat, b: nat, dim: nat)
    requires dim <= |exact| && InRows(exact, a) && InRows(exact, b)
    decreases |exact| - dim
  {
    dim < |exact|
    && (exact[dim][a] < exact[dim][b] || (exact[dim][a] == exact[dim][b] && LexLess(exact, a, b, dim + 1)))
  }

  ghost predicate LexSorted(exact: Rows, s: seq<nat>, dim: nat)
    requires dim <= |exact| && AllInRows(exact, s)
  {
    forall i, j | 0 <= i < j < |s| :: LexLess(exact, s[i], s[j], dim)
  }

  /** The measured coordinates tell equal and different exact coordinates apart. */
  ghost predicate Separated(rows: Rows, exact: Rows, idx: seq<nat>, tol: real) {
    && tol > 0.0 && |rows| == |exact| && AllInRows(rows, idx) && AllInRows(exact, idx)
    && forall d, a, b | 0 <= d < |rows| && a in idx && b in idx ::
         && (exact[d][a] == exact[d][b] ==> rows[d][b] - rows[d][a] < tol)
         && (exact[d][a] < exact[d][b] ==> rows[d][b] - rows[d][a] >= tol)
  }

  // No point is named twice, and no two points agree in all dimensions from dim on.
  ghost predicate DistinctFrom(exact: Rows, idx: seq<nat>, dim: nat)
    requires dim <= |exact| && AllInRows(exact, idx)
  {
    && (forall a | a in idx :: multiset(idx)[a] == 1)
    && (forall a, b | a in idx && b in idx && a != b :: LexLess(exact, a, b, dim) || LexLess(exact, b, a, dim))
  }

  /** Perturbations by at most eps, coordinates that are equal or at least gap apart, and a tolerance
      between the two, separate all points. */
  lemma PerturbedIsSeparated(rows: Rows, exact: Rows, idx: seq<nat>, eps: real, gap: real, tol: real)
    requires |rows| == |exact| && AllInRows(rows, idx) && AllInRows(exact, idx)
    requires forall d, a | 0 <= d < |rows| && a in idx :: -eps <= rows[d][a] - exact[d][a] <= eps
    requires forall d, a, b | 0 <= d < |rows| && a in idx && b in idx && exact[d][a] < exact[d][b] ::
               exact[d][b] - exact[d][a] >= gap
    requires eps >= 0.0 && 2.0 * eps < tol && gap - 2.0 * eps >= tol
    ensures Separated(rows, exact, idx, tol)
  {
    forall d, a, b | 0 <= d < |rows| && a in idx && b in idx
      ensures exact[d][a] == exact[d][b] ==> rows[d][b] - rows[d][a] < tol
      ensures exact[d][a] < exact[d][b] ==> rows[d][b] - rows[d][a] >= tol
    {
      assert -eps <= rows[d][a] - exact[d][a] <= eps && -eps <= rows[d][b] - exact[d][b] <= eps;
    }
  }

  // The points can be told apart by what is measured.
  ghost predicate Tellable(rows: Rows, exact: Rows, idx: seq<nat>, dim: nat, tol: real) {
    Separated(rows, exact, idx, tol) && dim < |rows| && DistinctFrom(exact, idx, dim)
  }

  // Everything in a is before everything in b, in dimension dim alone.
  ghost predicate Below(exact: Rows, a: seq<nat>, b: seq<nat>, dim: nat)
    requires dim < |exact| && AllInRows(exact, a) && AllInRows(exact, b)
  {
    forall p, q | p in a && q in b :: exact[dim][p] < exact[dim][q]
  }

  // All points of s agree in dimension dim.
  ghost predicate Level(exact: Rows, s: seq<nat>, dim: nat)
    requires dim < |exact| && AllInRows(exact, s)
  {
    forall p, q | p in s && q in s :: exact[dim][p] == exact[dim][q]
  }

  lemma LevelSorted(exact: Rows, s: seq<nat>, dim: nat)
    requires dim < |exact| && AllInRows(exact, s) && Level(exact, s, dim)
    requires LexSorted(exact, s, dim + 1)
    ensures LexSorted(exact, s, dim)
  {
    forall i, j | 0 <= i < j < |s|
      ensures LexLess(exact, s[i], s[j], dim)
    {
      assert s[i] in s && s[j] in s && LexLess(exact, s[i], s[j], dim + 1);
    }
  }

  lemma LexSortedJoin(exact: Rows, a: seq<nat>, b: seq<nat>, dim: nat)
    requires dim < |exact| && AllInRows(exact, a) && AllInRows(exact, b)
    requires LexSorted(exact, a, dim) && LexSorted(exact, b, dim) && Below(exact, a, b, dim)
    ensures AllInRows(exact, a + b) && LexSorted(exact, a + b, dim)
  {
    var s := a + b;
    forall i, j | 0 <= i < j < |s|
      ensures LexLess(exact, s[i], s[j], dim)
    {
      if i < |a| <= j {
        assert a[i] in a && b[j - |a|] in b;
      }
    }
  }

  /** In a list sorted by a measured row, the exact row ascends too, and the step test tells whether
      it has moved on. */
  lemma StepTest(rows: Rows, exact: Rows, s: seq<nat>, dim: nat, tol: real, i: nat, j: nat)
    requires Separated(rows, exact, s, tol) && dim < |rows| && SortedBy(rows[dim], s) && i <= j < |s|
    ensures s[i] < |exact[dim]| && s[j] < |exact[dim]|
    ensures exact[dim][s[i]] <= exact[dim][s[j]]
    ensures rows[dim][s[j]] - rows[dim][s[i]] >= tol <==> exact[dim][s[i]] < exact[dim][s[j]]
  {
    assert s[i] in s && s[j] in s;
  }

  lemma SliceCounts(s: seq<nat>, i: nat, j: nat)
    requires i <= j <= |s|
    ensures multiset(s[i..j]) <= multiset(s)
    ensures forall a | a in s[i..j] :: a in s
  {
    assert s == s[..i] + s[i..j] + s[j..];
  }

  lemma CountedTwice(g: seq<nat>)
    requires |g| >= 2 && g[0] == g[1]
    ensures multiset(g)[g[0]] >= 2
  {
    assert g == [g[0], g[1]] + g[2..];
  }

  lemma PartTellable(rows: Rows, exact: Rows, idx: seq<nat>, g: seq<nat>, dim: nat, tol: real)
    requires Tellable(rows, exact, idx, dim, tol) && multiset(g) <= multiset(idx)
    ensures Tellable(rows, exact, g, dim, tol)
  {
    forall a | a in g
      ensures a in idx && multiset(g)[a] == 1
    {
      assert a in multiset(g) && a in multiset(idx);
    }
  }

  /** Points of a group that agree in dimension dim differ later. */
  lemma GroupTellable(rows: Rows, exact: Rows, g: seq<nat>, dim: nat, tol: real)
    requires Tellable(rows, exact, g, dim, tol) && Level(exact, g, dim)
    ensures |g| > 1 ==> dim + 1 < |rows|
    ensures dim + 1 < |rows| ==> Tellable(rows, exact, g, dim + 1, tol)
  {
    if |g| > 1 {
      assert g[0] in g && g[1] in g;
      if g[0] == g[1] {
        CountedTwice(g);
      }
      assert exact[dim][g[0]] == exact[dim][g[1]];
      assert LexLess(exact, g[0], g[1], dim + 1) || LexLess(exact, g[1], g[0], dim + 1);
    }
  }

  // ---- the sort itself ----

  /** The part of the list before the current group is final, and the current group agrees. */
  ghost predicate Done(exact: Rows, s: seq<nat>, s0: seq<nat>, i: nat, j: nat, dim: nat)
    requires dim < |exact| && i <= j <= |s| == |s0| && AllInRows(exact, s) && AllInRows(exact, s0)
  {
    && LexSorted(exact, s[..i], dim)
    && Below(exact, s[..i], s0[i..], dim)
    && Level(exact, s0[i..j], dim)
  }

  lemma TellableParts(rows: Rows, exact: Rows, s0: seq<nat>, dim: nat, tol: real)
    requires Tellable(rows, exact, s0, dim, tol)
    ensures Separated(rows, exact, s0, tol) && AllInRows(exact, s0) && dim < |exact|
  {}

  // The next group starts with one point.
  lemma GroupStarts(exact: Rows, s: seq<nat>, s0: seq<nat>, j: nat, dim: nat)
    requires dim < |exact| && j < |s| == |s0| && AllInRows(exact, s) && AllInRows(exact, s0)
    requires j == 0 || (LexSorted(exact, s[..j], dim) && Below(exact, s[..j], s0[j..], dim))
    ensures Done(exact, s, s0, j, j + 1, dim)
  {}

  lemma GroupGrows(rows: Rows, exact: Rows, s: seq<nat>, s0: seq<nat>, i: nat, j: nat, dim: nat, tol: real)
    requires Separated(rows, exact, s0, tol) && dim < |rows| && SortedBy(rows[dim], s0)
    requires i < j < |s| == |s0| && AllInRows(exact, s) && Done(exact, s, s0, i, j, dim)
    requires rows[dim][s0[j]] - rows[dim][s0[i]] < tol
    ensures Done(exact, s, s0, i, j + 1, dim)
  {
    StepTest(rows, exact, s0, dim, tol, i, j);
    assert s0[i..j][0] == s0[i];
    assert s0[i..j + 1] == s0[i..j] + [s0[j]];
  }

  // The group from i to j is replaced by g, and the next one starts at j.
  lemma GroupEnds(rows: Rows, exact: Rows, s: seq<nat>, s0: seq<nat>, g: seq<nat>, i: nat, j: nat, dim: nat, tol: real)
    requires Separated(rows, exact, s0, tol) && dim < |rows| && SortedBy(rows[dim], s0)
    requires i < j <= |s| == |s0| && AllInRows(exact, s) && Done(exact, s, s0, i, j, dim)
    requires j < |s0| ==> rows[dim][s0[j]] - rows[dim][s0[i]] >= tol
    requires multiset(g) == multiset(s0[i..j]) && AllInRows(exact, g) && LexSorted(exact, g, dim)
    ensures var s1 := s[..i] + g + s0[j..];
            && |s1| == |s0| && AllInRows(exact, s1) && LexSorted(exact, s1[..j], dim) && Below(exact, s1[..j], s0[j..], dim)
  {
    var s1 := s[..i] + g + s0[j..];
    SameMembers(g, s0[i..j]);
    assert s1[..j] == s[..i] + g;
    assert s0[i] in s0 && AllInRows(exact, s0[j..]) && AllInRows(exact, s1[..j]);
    forall p | p in g
      ensures p in s0[i..] && exact[dim][p] == exact[dim][s0[i]]
    {
      assert p in s0[i..j] && s0[i] == s0[i..j][0];
    }
    LexSortedJoin(exact, s[..i], g, dim);
    forall p, q | p in s1[..j] && q in s0[j..]
      ensures exact[dim][p] < exact[dim][q]
    {
      var n :| j <= n < |s0| && s0[n] == q;
      if p in g {
        StepTest(rows, exact, s0, dim, tol, i, j);
        StepTest(rows, exact, s0, dim, tol, j, n);
      } else {
        assert q in s0[i..];
      }
    }
  }

  lemma SameMembers(a: seq<nat>, b: seq<nat>)
    requires multiset(a) == multiset(b)
    ensures |a| == |b|
    ensures forall p :: p in a <==> p in b
  {
    assert |multiset(a)| == |a| && |multiset(b)| == |b|;
    assert forall p :: p in a <==> p in multiset(a);
    assert forall p :: p in b <==> p in multiset(b);
  }

  // What is kept while the list is worked on from the left: the rest is untouched, the part before i
  // is rearranged.
  ghost predicate Rearranged(s: seq<nat>, s0: seq<nat>, i: nat) {
    i <= |s| == |s0| && s[i..] == s0[i..] && multiset(s[..i]) == multiset(s0[..i])
  }

  lemma StartRearranged(s0: seq<nat>)
    ensures Rearranged(s0, s0, 0)
  {}

  lemma RearrangedIsPermutation(s: seq<nat>, s0: seq<nat>, i: nat)
    requires Rearranged(s, s0, i)
    ensures multiset(s) == multiset(s0)
  {
    assert s == s[..i] + s[i..] && s0 == s0[..i] + s0[i..];
  }

  lemma PutBack(s: seq<nat>, s0: seq<nat>, g: seq<nat>, i: nat, j: nat)
    requires Rearranged(s, s0, i) && i <= j <= |s| && multiset(g) == multiset(s0[i..j])
    ensures |g| == j - i && Rearranged(s[..i] + g + s[j..], s0, j) && s[j..] == s0[j..]
  {
    SameMembers(g, s0[i..j]);
    var s1 := s[..i] + g + s[j..];
    assert s1[..j] == s[..i] + g && s0[..j] == s0[..i] + s0[i..j];
    assert s1[j..] == s[j..] == s[i..][j - i..] && s0[j..] == s0[i..][j - i..];
  }

  // ---- what the sort makes of any points ----

  // The points from the first on that are less than tol behind it.
  function FirstGroup(s: seq<nat>, key: seq<real>, tol: real): (n: nat)
    requires s != [] && SortedBy(key, s)
    ensures 1 <= n <= |s| && (forall k | 0 < k < n :: key[s[k]] - key[s[0]] < tol)
    ensures n < |s| ==> key[s[n]] - key[s[0]] >= tol
  {
    GroupFrom(s, key, tol, 1)
  }

  function GroupFrom(s: seq<nat>, key: seq<real>, tol: real, j: nat): (n: nat)
    requires 1 <= j <= |s| && SortedBy(key, s) && forall k | 0 < k < j :: key[s[k]] - key[s[0]] < tol
    ensures 1 <= n <= |s| && (forall k | 0 < k < n :: key[s[k]] - key[s[0]] < tol)
    ensures n < |s| ==> key[s[n]] - key[s[0]] >= tol
    decreases |s| - j
  {
    if j == |s| || key[s[j]] - key[s[0]] >= tol then j else GroupFrom(s, key, tol, j + 1)
  }

  lemma GroupInRows(rows: Rows, s: seq<nat>, n: nat)
    requires AllInRows(rows, s) && n <= |s|
    ensures AllInRows(rows, s[..n]) && AllInRows(rows, s[n..])
  {}

  lemma SortedInRows(rows: Rows, s: seq<nat>, dim: nat)
    requires AllInRows(rows, s) && dim < |rows|
    ensures forall k | 0 <= k < |s| :: s[k] < |rows[dim]|
    ensures |Sorted(s, rows[dim])| == |s| && AllInRows(rows, Sorted(s, rows[dim]))
  {
    Indexable(rows, s, dim);
    SameInRows(rows, Sorted(s, rows[dim]), s);
  }

  // Group by group: a group of several points is sorted by the next dimension, if there is one.
  ghost function Groups(rows: Rows, s: seq<nat>, dim: nat, tol: real): (r: seq<nat>)
    requires dim < |rows| && AllInRows(rows, s) && SortedBy(rows[dim], s)
    decreases |rows| - dim, |s|
  {
    if s == [] then []
    else
      var n := FirstGroup(s, rows[dim], tol);
      GroupInRows(rows, s, n);
      Group(rows, s[..n], dim, tol) + Groups(rows, s[n..], dim, tol)
  }

  ghost function Group(rows: Rows, g: seq<nat>, dim: nat, tol: real): (r: seq<nat>)
    requires dim < |rows| && AllInRows(rows, g)
    decreases |rows| - dim, 0
  {
    if |g| > 1 && dim + 1 < |rows| then Fuzzy(rows, g, dim + 1, tol) else g
  }

  /** The list the sort gives. */
  ghost function Fuzzy(rows: Rows, idx: seq<nat>, dim: nat, tol: real): (r: seq<nat>)
    requires dim < |rows| && AllInRows(rows, idx)
    decreases |rows| - dim, |idx| + 1
  {
    SortedInRows(rows, idx, dim);
    Groups(rows, Sorted(idx, rows[dim]), dim, tol)
  }

  lemma {:induction false} GroupsPermute(rows: Rows, s: seq<nat>, dim: nat, tol: real)
    requires dim < |rows| && AllInRows(rows, s) && SortedBy(rows[dim], s)
    ensures multiset(Groups(rows, s, dim, tol)) == multiset(s)
    decreases |rows| - dim, |s|
  {
    hide *;
    GroupsOpen(rows, s, dim, tol);
    if s != [] {
      var n := FirstGroup(s, rows[dim], tol);
      GroupPermutes(rows, s[..n], dim, tol);
      GroupsPermute(rows, s[n..], dim, tol);
      assert s == s[..n] + s[n..];
    }
  }

  lemma GroupsOpen(rows: Rows, s: seq<nat>, dim: nat, tol: real)
    requires dim < |rows| && AllInRows(rows, s) && SortedBy(rows[dim], s)
    ensures s == [] ==> Groups(rows, s, dim, tol) == []
    ensures s != [] ==>
              var n := FirstGroup(s, rows[dim], tol);
              && AllInRows(rows, s[..n]) && AllInRows(rows, s[n..]) && SortedBy(rows[dim], s[n..])
              && Groups(rows, s, dim, tol) == Group(rows, s[..n], dim, tol) + Groups(rows, s[n..], dim, tol)
  {
    hide Group, FirstGroup;
    if s != [] {
      var n := FirstGroup(s, rows[dim], tol);
      GroupInRows(rows, s, n);
      RestSorted(rows[dim], s, n);
    }
  }

  lemma {:induction false} GroupPermutes(rows: Rows, g: seq<nat>, dim: nat, tol: real)
    requires dim < |rows| && AllInRows(rows, g)
    ensures multiset(Group(rows, g, dim, tol)) == multiset(g)
    decreases |rows| - dim, 0
  {
    if |g| > 1 && dim + 1 < |rows| {
      SortedInRows(rows, g, dim + 1);
      GroupsPermute(rows, Sorted(g, rows[dim + 1]), dim + 1, tol);
    }
  }

  lemma RestSorted(key: seq<real>, s: seq<nat>, n: nat)
    requires SortedBy(key, s) && n <= |s|
    ensures SortedBy(key, s[n..]) && SortedBy(key, s[..n])
  {}

  // No point comes before one that is smaller by the tolerance or more.
  ghost predicate InOrderUpTo(key: seq<real>, s: seq<nat>, tol: real) {
    && (forall k | 0 <= k < |s| :: s[k] < |key|)
    && (forall i, j | 0 <= i < j < |s| :: key[s[i]] - key[s[j]] < tol || key[s[i]] <= key[s[j]])
  }

  lemma GroupInOrder(rows: Rows, s: seq<nat>, g: seq<nat>, dim: nat, tol: real, n: nat)
    requires dim < |rows| && s != [] && SortedBy(rows[dim], s) && n == FirstGroup(s, rows[dim], tol)
    requires multiset(g) == multiset(s[..n]) && (n == 1 ==> g == s[..n])
    ensures InOrderUpTo(rows[dim], g, tol)
    ensures forall p | p in g :: p < |rows[dim]| && forall q | q in s[n..] :: q < |rows[dim]| && rows[dim][p] <= rows[dim][q]
  {
    hide FirstGroup;
    SameMembers(g, s[..n]);
    forall k | 0 <= k < |g|
      ensures g[k] < |rows[dim]| && rows[dim][s[0]] <= rows[dim][g[k]]
      ensures n > 1 ==> rows[dim][g[k]] - rows[dim][s[0]] < tol
    {
      assert g[k] in s[..n];
      var m :| 0 <= m < n && s[m] == g[k];
      assert n > 1 ==> rows[dim][s[1]] - rows[dim][s[0]] < tol;
    }
  }

  lemma JoinInOrder(key: seq<real>, a: seq<nat>, b: seq<nat>, tol: real)
    requires InOrderUpTo(key, a, tol) && InOrderUpTo(key, b, tol)
    requires forall p, q | p in a && q in b :: key[p] <= key[q]
    ensures InOrderUpTo(key, a + b, tol)
  {
    var s := a + b;
    forall i, j | 0 <= i < j < |s|
      ensures key[s[i]] - key[s[j]] < tol || key[s[i]] <= key[s[j]]
    {
      if i < |a| <= j {
        assert s[i] in a && s[j] in b;
      }
    }
  }

  /** Whatever the points are: in the dimension that is sorted by, no point comes before one that is
      smaller by the tolerance or more, although later dimensions rearrange every group. */
  lemma {:induction false} GroupsInOrder(rows: Rows, s: seq<nat>, dim: nat, tol: real)
    requires dim < |rows| && AllInRows(rows, s) && SortedBy(rows[dim], s)
    ensures InOrderUpTo(rows[dim], Groups(rows, s, dim, tol), tol)
    decreases |s|
  {
    hide *;
    GroupsOpen(rows, s, dim, tol);
    NothingInOrder(rows[dim], tol);
    if s != [] {
      var n := FirstGroup(s, rows[dim], tol);
      var g, rest := Group(rows, s[..n], dim, tol), Groups(rows, s[n..], dim, tol);
      GroupPermutes(rows, s[..n], dim, tol);
      SingleGroup(rows, s[..n], dim, tol);
      GroupInOrder(rows, s, g, dim, tol, n);
      GroupsInOrder(rows, s[n..], dim, tol);
      GroupsPermute(rows, s[n..], dim, tol);
      SameMembers(rest, s[n..]);
      JoinInOrder(rows[dim], g, rest, tol);
    }
  }

  lemma FirstGroupIs(s: seq<nat>, key: seq<real>, tol: real, n: nat)
    requires SortedBy(key, s) && 1 <= n <= |s| && forall k | 0 < k < n :: key[s[k]] - key[s[0]] < tol
    requires n < |s| ==> key[s[n]] - key[s[0]] >= tol
    ensures FirstGroup(s, key, tol) == n
  {}

  // From i up to j all points are less than tol behind the first one.
  ghost predicate Close(key: seq<real>, s0: seq<nat>, i: nat, j: nat, tol: real) {
    && i < j <= |s0| && (forall k | i <= k < j :: s0[k] < |key|)
    && forall k | i < k < j :: key[s0[k]] - key[s0[i]] < tol
  }

  // The part before i is done, and the rest is as the sort found it.
  ghost predicate Grouped(rows: Rows, s: seq<nat>, s0: seq<nat>, i: nat, dim: nat, tol: real)
    requires dim < |rows| && AllInRows(rows, s0) && SortedBy(rows[dim], s0)
  {
    && i <= |s0| == |s| && AllInRows(rows, s0[i..]) && SortedBy(rows[dim], s0[i..])
    && Groups(rows, s0, dim, tol) == s[..i] + Groups(rows, s0[i..], dim, tol)
  }

  lemma SlicesOf(s0: seq<nat>, i: nat, j: nat)
    requires i <= j <= |s0|
    ensures s0[i..][..j - i] == s0[i..j] && s0[i..][j - i..] == s0[j..]
  {}

  // The group from i to j is the first one of what is left.
  lemma NextGroup(rows: Rows, s0: seq<nat>, i: nat, j: nat, dim: nat, tol: real)
    requires dim < |rows| && AllInRows(rows, s0) && SortedBy(rows[dim], s0) && Close(rows[dim], s0, i, j, tol)
    requires j < |s0| ==> s0[j] < |rows[dim]| && rows[dim][s0[j]] - rows[dim][s0[i]] >= tol
    ensures AllInRows(rows, s0[i..]) && AllInRows(rows, s0[i..j]) && AllInRows(rows, s0[j..])
    ensures SortedBy(rows[dim], s0[i..]) && SortedBy(rows[dim], s0[j..])
    ensures Groups(rows, s0[i..], dim, tol) == Group(rows, s0[i..j], dim, tol) + Groups(rows, s0[j..], dim, tol)
  {
    hide AllInRows, SortedBy, FirstGroup, Groups, Group;
    GroupInRows(rows, s0, i);
    GroupInRows(rows, s0, j);
    RestSorted(rows[dim], s0, i);
    RestSorted(rows[dim], s0, j);
    SlicesOf(s0, i, j);
    FirstGroupIs(s0[i..], rows[dim], tol, j - i);
    GroupsOpen(rows, s0[i..], dim, tol);
  }

  lemma GroupedGoesOn(rows: Rows, s: seq<nat>, s0: seq<nat>, s1: seq<nat>, i: nat, j: nat, dim: nat, tol: real)
    requires dim < |rows| && AllInRows(rows, s0) && SortedBy(rows[dim], s0) && Close(rows[dim], s0, i, j, tol)
    requires j < |s0| ==> s0[j] < |rows[dim]| && rows[dim][s0[j]] - rows[dim][s0[i]] >= tol
    requires AllInRows(rows, s0[i..j]) && |s1| == |s|
    requires Grouped(rows, s, s0, i, dim, tol) && s1 == s[..i] + Group(rows, s0[i..j], dim, tol) + s0[j..]
    ensures Grouped(rows, s1, s0, j, dim, tol)
  {
    hide AllInRows, SortedBy, Groups, Group;
    NextGroup(rows, s0, i, j, dim, tol);
    Joined(s[..i], Group(rows, s0[i..j], dim, tol), s0[j..], s1, j);
  }

  lemma Joined(a: seq<nat>, g: seq<nat>, b: seq<nat>, s: seq<nat>, j: nat)
    requires s == a + g + b && j + |b| == |s|
    ensures s[..j] == a + g
  {}

  lemma GroupedStarts(rows: Rows, s0: seq<nat>, dim: nat, tol: real)
    requires dim < |rows| && AllInRows(rows, s0) && SortedBy(rows[dim], s0)
    ensures Grouped(rows, s0, s0, 0, dim, tol)
    ensures s0 != [] ==> Close(rows[dim], s0, 0, 1, tol)
  {
    assert s0[0..] == s0;
    hide Groups;
  }

  lemma GroupedEnds(rows: Rows, s: seq<nat>, s0: seq<nat>, dim: nat, tol: real)
    requires dim < |rows| && AllInRows(rows, s0) && SortedBy(rows[dim], s0)
    requires Grouped(rows, s, s0, |s0|, dim, tol)
    ensures s == Groups(rows, s0, dim, tol) && InOrderUpTo(rows[dim], s, tol)
  {
    hide AllInRows, SortedBy, InOrderUpTo;
    assert s[..|s0|] == s && s0[|s0|..] == [];
    GroupsOpen(rows, s0[|s0|..], dim, tol);
    GroupsInOrder(rows, s0, dim, tol);
  }

  lemma NothingInOrder(key: seq<real>, tol: real)
    ensures InOrderUpTo(key, [], tol)
  {}

  lemma SingleGroup(rows: Rows, g: seq<nat>, dim: nat, tol: real)
    requires dim < |rows| && AllInRows(rows, g)
    ensures |g| <= 1 ==> Group(rows, g, dim, tol) == g
  {}

  /** One group is sorted by the dimensions that are left, if there are any and it has two points. */
  method SortGroup(rows: Rows, s: seq<nat>, i: nat, j: nat, dim: nat, tol: real, ghost s0: seq<nat>, ghost exact: Rows)
    returns (s1: seq<nat>)
    requires dim < |rows| && AllInRows(rows, s0) && SortedBy(rows[dim], s0) && i < j <= |s| && Rearranged(s, s0, i)
    requires j < |s0| ==> rows[dim][s0[j]] - rows[dim][s0[i]] >= tol
    ensures Rearranged(s1, s0, j) && |s1| == |s|
    ensures AllInRows(rows, s0[i..j]) && s1 == s[..i] + Group(rows, s0[i..j], dim, tol) + s0[j..]
    ensures Tellable(rows, exact, s0, dim, tol) && AllInRows(exact, s) && Done(exact, s, s0, i, j, dim) ==>
              AllInRows(exact, s1) && LexSorted(exact, s1[..j], dim) && Below(exact, s1[..j], s0[j..], dim)
    decreases |rows| - dim, 0
  {
    assert s[i..j] == s[i..][..j - i] && s0[i..j] == s0[i..][..j - i];
    SliceCounts(s0, i, j);
    hide Groups, Fuzzy;
    ghost var exactly := Tellable(rows, exact, s0, dim, tol) && AllInRows(exact, s) && Done(exact, s, s0, i, j, dim);
    if exactly {
      PartTellable(rows, exact, s0, s0[i..j], dim, tol);
      GroupTellable(rows, exact, s0[i..j], dim, tol);
    }
    var g := s[i..j];
    if j - i > 1 && dim < |rows| - 1 {
      var sub := FuzzySort(rows, g, dim + 1, tol, exact);
      g := sub.value;
    }
    PutBack(s, s0, g, i, j);
    s1 := s[..i] + g + s[j..];
    if exactly {
      SameMembers(g, s0[i..j]);
      GroupIsSorted(rows, exact, s0[i..j], g, dim);
      GroupEnds(rows, exact, s, s0, g, i, j, dim, tol);
    }
  }

  lemma GroupIsSorted(rows: Rows, exact: Rows, g0: seq<nat>, g: seq<nat>, dim: nat)
    requires dim < |exact| && AllInRows(exact, g0) && Level(exact, g0, dim) && multiset(g) == multiset(g0)
    requires AllInRows(exact, g) && (|g| <= 1 || LexSorted(exact, g, dim + 1))
    ensures LexSorted(exact, g, dim)
  {
    SameMembers(g, g0);
    LevelSorted(exact, g, dim);
  }

  lemma Indexable(rows: Rows, s: seq<nat>, dim: nat)
    requires dim < |rows| && AllInRows(rows, s)
    ensures forall k | 0 <= k < |s| :: s[k] < |rows[dim]|
  {
    assert forall k | 0 <= k < |s| :: s[k] in s;
  }

  lemma SameInRows(rows: Rows, s: seq<nat>, idx: seq<nat>)
    requires multiset(s) == multiset(idx) && AllInRows(rows, idx)
    ensures |s| == |idx| && AllInRows(rows, s)
  {
    SameMembers(s, idx);
  }

  /** fuzzysort: for two or more points the groups of idx, whatever the points are: a permutation in which
      no point comes before one that is smaller by the tolerance or more in the first dimension; and,
      whenever the points can be told apart, their exact order. One point and no point raise an error. */
  method FuzzySort(rows: Rows, idx: seq<nat>, dim: nat, tol: real, ghost exact: Rows) returns (r: Result<seq<nat>, SortError>)
    requires dim < |rows| && AllInRows(rows, idx)
    ensures |idx| == 0 ==> r == Err(IndexError)
    ensures |idx| == 1 ==> r == Err(UnboundLocalError)
    ensures |idx| >= 2 ==> r.Ok? && multiset(r.value) == multiset(idx)
    ensures |idx| >= 2 ==> r.value == Fuzzy(rows, idx, dim, tol) && InOrderUpTo(rows[dim], r.value, tol)
    ensures |idx| >= 2 && Tellable(rows, exact, idx, dim, tol) ==>
              AllInRows(exact, r.value) && LexSorted(exact, r.value, dim)
    decreases |rows| - dim, 1
  {
    hide Tellable, Below, LexSorted, Done, SortedBy, Rearranged, Sorted, AllInRows, Groups, Group, InOrderUpTo, Grouped;
    Indexable(rows, idx, dim);
    var s0 := Sorted(idx, rows[dim]);
    SameInRows(rows, s0, idx);
    Indexable(rows, s0, dim);
    if |s0| == 0 {
      return Err(IndexError);
    }
    if |s0| == 1 {
      return Err(UnboundLocalError);
    }
    ghost var tellable := Tellable(rows, exact, idx, dim, tol);
    if tellable {
      PartTellable(rows, exact, idx, s0, dim, tol);
    }
    var s, i, ix := s0, 0, s0[0];
    StartRearranged(s0);
    GroupedStarts(rows, s0, dim, tol);
    if tellable {
      TellableParts(rows, exact, s0, dim, tol);
      GroupStarts(exact, s0, s0, 0, dim);
    }
    for j := 1 to |s0|
      invariant 0 <= i < j <= |s0| == |s| && ix == s0[i] && Rearranged(s, s0, i)
      invariant Close(rows[dim], s0, i, j, tol) && Grouped(rows, s, s0, i, dim, tol)
      invariant tellable ==> AllInRows(exact, s) && Done(exact, s, s0, i, j, dim)
    {
      var jx := s0[j];
      if rows[dim][jx] - rows[dim][ix] >= tol {
        var s1 := SortGroup(rows, s, i, j, dim, tol, s0, exact);
        GroupedGoesOn(rows, s, s0, s1, i, j, dim, tol);
        s := s1;
        i, ix := j, jx;
        if tellable {
          GroupStarts(exact, s, s0, j, dim);
        }
      } else if tellable {
        GroupGrows(rows, exact, s, s0, i, j, dim, tol);
      }
    }
    var s1 := SortGroup(rows, s, i, |s0|, dim, tol, s0, exact);
    GroupedGoesOn(rows, s, s0, s1, i, |s0|, dim, tol);
    GroupedEnds(rows, s1, s0, dim, tol);
    RearrangedIsPermutation(s1, s0, |s0|);
    assert s1[..|s0|] == s1;
    return Ok(s1);
  }
}
