/** How nested subcases are run: over and over, one path at a time, until nothing is left. */
module Subcases {

  datatype Signature = Signature(name: string, file: string, line: int)

  /** A subcase and the subcases its body declares, in order. The body of the test case itself is a
      sequence of such trees. */
  datatype Tree = Node(sig: Signature, children: seq<Tree>)

  // The signatures of the subcases entered and not left yet, from the outside in.
  type Stack = seq<Signature>

  // Where a subcase stands in the test: its place among its siblings, level by level.
  type Place = seq<nat>

  /** The fields of the framework's context, and what has happened: the places entered, and the
      places run to the end of a body without subcases. */
  datatype State = State(
    stack: Stack, passed: set<Stack>, maxLevel: nat, reenter: bool, entered: seq<Place>, leaves: seq<Place>)

  /** Subcase::Subcase; the second value is m_entered. */
  function Enter(s: State, sig: Signature): (r: (State, bool)) {
    if |s.stack| < s.maxLevel then (s.(reenter := true), false)
    else if s.stack + [sig] in s.passed then (s, false)
    else (s.(stack := s.stack + [sig], maxLevel := |s.stack| + 1), true)
  }

  /** Subcase::~Subcase of a subcase that was entered. */
  function Leave(s: State): (r: State)
    requires s.stack != []
  {
    s.(passed := if s.reenter then s.passed else s.passed + {s.stack}, stack := s.stack[..|s.stack| - 1])
  }

  /** Running a body: its subcases in order, or, if it has none, just reaching its end. */
  function VisitBody(s: State, kids: seq<Tree>, at: Place): (r: State)
    ensures r.stack == s.stack
    decreases kids, 2
  {
    if kids == [] then s.(leaves := s.leaves + [at]) else VisitFrom(s, kids, at, 0)
  }

  // The subcases of a body from number k on.
  function VisitFrom(s: State, kids: seq<Tree>, at: Place, k: nat): (r: State)
    requires k <= |kids|
    ensures r.stack == s.stack
    decreases kids, 1, |kids| - k
  {
    if k == |kids| then s else VisitFrom(VisitOne(s, kids[k], at + [k]), kids, at, k + 1)
  }

  function VisitOne(s: State, t: Tree, at: Place): (r: State)
    ensures r.stack == s.stack
    decreases t, 3
  {
    var (s1, entered) := Enter(s, t.sig);
    if entered then Leave(VisitBody(s1.(entered := s1.entered + [at]), t.children, at)) else s1
  }

  /** One pass of the test case: the do loop resets the fields and runs the test body. */
  function Pass(s: State, kids: seq<Tree>): (r: State) {
    VisitBody(s.(stack := [], maxLevel := 0, reenter := false), kids, [])
  }

  // What visiting never takes back; new leaves lie below place at.
  ghost predicate Keeps(s: State, r: State, at: Place) {
    && r.stack == s.stack
    && s.maxLevel <= r.maxLevel && s.passed <= r.passed && (s.reenter ==> r.reenter)
    && s.leaves <= r.leaves && s.entered <= r.entered
    && forall i | |s.leaves| <= i < |r.leaves| :: at <= r.leaves[i]
  }

  lemma {:induction false} BodyKeeps(s: State, kids: seq<Tree>, at: Place)
    ensures Keeps(s, VisitBody(s, kids, at), at)
    decreases kids, 2
  {
    if kids != [] {
      FromKeeps(s, kids, at, 0);
    }
  }

  lemma {:induction false} FromKeeps(s: State, kids: seq<Tree>, at: Place, k: nat)
    requires k <= |kids|
    ensures Keeps(s, VisitFrom(s, kids, at, k), at)
    decreases kids, 1, |kids| - k
  {
    if k < |kids| {
      OneKeeps(s, kids[k], at + [k]);
      FromKeeps(VisitOne(s, kids[k], at + [k]), kids, at, k + 1);
    }
  }

  lemma {:induction false} OneKeeps(s: State, t: Tree, at: Place)
    ensures Keeps(s, VisitOne(s, t, at), at)
    decreases t, 3
  {
    var (s1, entered) := Enter(s, t.sig);
    if entered {
      BodyKeeps(s1.(entered := s1.entered + [at]), t.children, at);
    }
  }

  /** Once a subcase has been entered at some level, its later siblings are only noted. */
  lemma {:induction false} LaterSiblingsWait(s: State, kids: seq<Tree>, at: Place, k: nat)
    requires k <= |kids| && |s.stack| < s.maxLevel
    ensures VisitFrom(s, kids, at, k) == s.(reenter := s.reenter || k < |kids|)
    decreases |kids| - k
  {
    if k < |kids| {
      LaterSiblingsWait(VisitOne(s, kids[k], at + [k]), kids, at, k + 1);
    }
  }

  // ---- every pass makes progress ----

  // Nothing has been entered yet on the way to this level, and nothing skipped.
  ghost predicate Fresh(s: State) {
    s.maxLevel == |s.stack| && !s.reenter
  }

  lemma {:induction false} BodyProgress(s: State, kids: seq<Tree>, at: Place)
    requires Fresh(s)
    ensures VisitBody(s, kids, at).reenter ==> VisitBody(s, kids, at).passed != s.passed
    decreases kids, 2
  {
    if kids != [] {
      FromProgress(s, kids, at, 0);
    }
  }

  lemma {:induction false} FromProgress(s: State, kids: seq<Tree>, at: Place, k: nat)
    requires Fresh(s) && k <= |kids|
    ensures VisitFrom(s, kids, at, k).reenter ==> VisitFrom(s, kids, at, k).passed != s.passed
    decreases kids, 1, |kids| - k
  {
    if k < |kids| {
      var (s1, entered) := Enter(s, kids[k].sig);
      if entered {
        var s2 := s1.(entered := s1.entered + [at + [k]]);
        BodyProgress(s2, kids[k].children, at + [k]);
        BodyKeeps(s2, kids[k].children, at + [k]);
        var r := VisitOne(s, kids[k], at + [k]);
        assert r.passed != s.passed;
        LaterSiblingsWait(r, kids, at, k + 1);
      } else {
        FromProgress(s, kids, at, k + 1);
      }
    }
  }

  /** Every stack the subcases of a body can leave on record. */
  ghost function StacksFrom(kids: seq<Tree>, st: Stack, k: nat): (r: set<Stack>)
    requires k <= |kids|
    decreases kids, 1, |kids| - k
  {
    if k == |kids| then {} else StacksOf(kids[k], st) + StacksFrom(kids, st, k + 1)
  }

  ghost function StacksOf(t: Tree, st: Stack): (r: set<Stack>)
    decreases t, 3
  {
    {st + [t.sig]} + StacksFrom(t.children, st + [t.sig], 0)
  }

  lemma {:induction false} BodyRecords(s: State, kids: seq<Tree>, at: Place)
    ensures VisitBody(s, kids, at).passed <= s.passed + StacksFrom(kids, s.stack, 0)
    decreases kids, 2
  {
    if kids != [] {
      FromRecords(s, kids, at, 0);
    }
  }

  lemma {:induction false} FromRecords(s: State, kids: seq<Tree>, at: Place, k: nat)
    requires k <= |kids|
    ensures VisitFrom(s, kids, at, k).passed <= s.passed + StacksFrom(kids, s.stack, k)
    decreases kids, 1, |kids| - k
  {
    if k < |kids| {
      OneRecords(s, kids[k], at + [k]);
      FromRecords(VisitOne(s, kids[k], at + [k]), kids, at, k + 1);
    }
  }

  lemma {:induction false} OneRecords(s: State, t: Tree, at: Place)
    ensures VisitOne(s, t, at).passed <= s.passed + StacksOf(t, s.stack)
    decreases t, 3
  {
    var (s1, entered) := Enter(s, t.sig);
    if entered {
      BodyRecords(s1.(entered := s1.entered + [at]), t.children, at);
    }
  }

  // Stacks not on record yet.
  ghost function Unrecorded(s: State, kids: seq<Tree>): (r: nat) {
    |StacksFrom(kids, [], 0) - s.passed|
  }

  /** A pass that asks for another one has put at least one more stack on record, so the do loop
      ends. */
  lemma PassProgress(s: State, kids: seq<Tree>)
    requires s.passed <= StacksFrom(kids, [], 0)
    ensures Pass(s, kids).passed <= StacksFrom(kids, [], 0)
    ensures Pass(s, kids).reenter ==> Unrecorded(Pass(s, kids), kids) < Unrecorded(s, kids)
  {
    var s0 := s.(stack := [], maxLevel := 0, reenter := false);
    BodyProgress(s0, kids, []);
    BodyKeeps(s0, kids, []);
    BodyRecords(s0, kids, []);
    var all, r := StacksFrom(kids, [], 0), Pass(s, kids);
    if r.reenter {
      assert all - r.passed < all - s.passed;
      SmallerSet(all - r.passed, all - s.passed);
    }
  }

  lemma SmallerSet<T>(a: set<T>, b: set<T>)
    requires a < b
    ensures |a| < |b|
  {
    var x :| x in b && x !in a;
    assert |b - {x}| == |b| - 1;
    SubsetSize(a, b - {x});
  }

  lemma {:induction false} SubsetSize<T>(a: set<T>, b: set<T>)
    requires a <= b
    ensures |a| <= |b|
    decreases a
  {
    if a != {} {
      var x :| x in a;
      SubsetSize(a - {x}, b - {x});
    }
  }

  /** The do loop: passes until one skips nothing. */
  ghost function Run(s: State, kids: seq<Tree>): (r: State)
    requires s.passed <= StacksFrom(kids, [], 0)
    decreases Unrecorded(s, kids)
  {
    PassProgress(s, kids);
    var r := Pass(s, kids);
    if r.reenter then Run(r, kids) else r
  }

  // ---- what the passes do when siblings have different signatures ----

  /** Number of leaves below a body; a body without subcases is a leaf itself. */
  ghost function LeafCount(kids: seq<Tree>): (r: nat)
    decreases kids, 2
  {
    if kids == [] then 1 else CountFrom(kids, 0)
  }

  ghost function CountFrom(kids: seq<Tree>, k: nat): (r: nat)
    requires k <= |kids|
    decreases kids, 1, |kids| - k
  {
    if k == |kids| then 0 else LeafCount(kids[k].children) + CountFrom(kids, k + 1)
  }

  /** The places of the leaves, from left to right. */
  ghost function LeafPlaces(kids: seq<Tree>, at: Place): (r: seq<Place>)
    decreases kids, 2
  {
    if kids == [] then [at] else PlacesFrom(kids, at, 0)
  }

  ghost function PlacesFrom(kids: seq<Tree>, at: Place, k: nat): (r: seq<Place>)
    requires k <= |kids|
    decreases kids, 1, |kids| - k
  {
    if k == |kids| then [] else LeafPlaces(kids[k].children, at + [k]) + PlacesFrom(kids, at, k + 1)
  }

  lemma {:induction false} BodyPlaces(kids: seq<Tree>, at: Place)
    ensures |LeafPlaces(kids, at)| == LeafCount(kids) > 0
    ensures forall n | 0 <= n < LeafCount(kids) :: at <= LeafPlaces(kids, at)[n]
    decreases kids, 2
  {
    if kids != [] {
      FromPlaces(kids, at, 0);
    }
  }

  lemma {:induction false} FromPlaces(kids: seq<Tree>, at: Place, k: nat)
    requires k <= |kids|
    ensures |PlacesFrom(kids, at, k)| == CountFrom(kids, k) >= |kids| - k
    ensures forall n | 0 <= n < CountFrom(kids, k) :: at <= PlacesFrom(kids, at, k)[n]
    decreases kids, 1, |kids| - k
  {
    if k < |kids| {
      BodyPlaces(kids[k].children, at + [k]);
      FromPlaces(kids, at, k + 1);
    }
  }

  /** No two subcases of one body have the same signature, at any level. */
  ghost predicate DistinctSiblings(kids: seq<Tree>)
    decreases kids, 2
  {
    && (forall i, j | 0 <= i < j < |kids| :: kids[i].sig != kids[j].sig)
    && (forall i | 0 <= i < |kids| :: DistinctSiblings(kids[i].children))
  }

  /** The stacks on record after the first n leaves: those of the subcases whose leaves are all
      among them. */
  ghost function DoneFrom(kids: seq<Tree>, st: Stack, k: nat, n: nat): (r: set<Stack>)
    requires k <= |kids|
    decreases kids, 1, |kids| - k
  {
    if k == |kids| then {}
    else
      var l, p := LeafCount(kids[k].children), st + [kids[k].sig];
      if n < l then DoneFrom(kids[k].children, p, 0, n)
      else {p} + DoneFrom(kids[k].children, p, 0, l) + DoneFrom(kids, st, k + 1, n - l)
  }

  // p is the stack of a subcase at or below one of the subcases from number k on.
  ghost predicate BelowFrom(p: Stack, kids: seq<Tree>, st: Stack, k: nat)
    requires k <= |kids|
  {
    exists i :: k <= i < |kids| && st + [kids[i].sig] <= p
  }

  lemma {:induction false} DoneBelow(kids: seq<Tree>, st: Stack, k: nat, n: nat)
    requires k <= |kids|
    ensures forall p | p in DoneFrom(kids, st, k, n) :: BelowFrom(p, kids, st, k)
    decreases kids, 1, |kids| - k
  {
    if k < |kids| {
      var l, q := LeafCount(kids[k].children), st + [kids[k].sig];
      DoneBelow(kids[k].children, q, 0, if n < l then n else l);
      if n >= l {
        DoneBelow(kids, st, k + 1, n - l);
      }
      forall p | p in DoneFrom(kids, st, k, n)
        ensures BelowFrom(p, kids, st, k)
      {
        if n >= l && p in DoneFrom(kids, st, k + 1, n - l) {
          assert BelowFrom(p, kids, st, k + 1);
        } else if p != q {
          assert BelowFrom(p, kids[k].children, q, 0);
        }
      }
    }
  }

  lemma {:induction false} NothingDone(kids: seq<Tree>, st: Stack, k: nat)
    requires k <= |kids|
    ensures DoneFrom(kids, st, k, 0) == {}
    decreases kids, 1, |kids| - k
  {
    if k < |kids| {
      BodyPlaces(kids[k].children, []);
      NothingDone(kids[k].children, st + [kids[k].sig], 0);
    }
  }

  // Of the stacks below these subcases, exactly those of the first n leaves are on record.
  ghost predicate Agrees(passed: set<Stack>, kids: seq<Tree>, st: Stack, k: nat, n: nat)
    requires k <= |kids|
  {
    forall p | BelowFrom(p, kids, st, k) :: p in passed <==> p in DoneFrom(kids, st, k, n)
  }

  // The places passed on the way from level m to a leaf.
  ghost function WayTo(leaf: Place, m: nat): (r: seq<Place>)
    requires m <= |leaf|
  {
    seq(|leaf| - m, i requires 0 <= i < |leaf| - m => leaf[..m + 1 + i])
  }

  /** What the pass for leaf n does to the state. */
  ghost predicate RunsLeaf(s: State, r: State, done: set<Stack>, leaf: Place, m: nat, more: bool) {
    && m <= |leaf|
    && r.stack == s.stack && r.passed == s.passed + done && r.reenter == more
    && r.leaves == s.leaves + [leaf] && r.entered == s.entered + WayTo(leaf, m)
  }

  lemma {:induction false} BodyRunsLeaf(s: State, kids: seq<Tree>, at: Place, n: nat)
    requires Fresh(s) && DistinctSiblings(kids) && n < LeafCount(kids)
    requires Agrees(s.passed, kids, s.stack, 0, n)
    ensures |LeafPlaces(kids, at)| == LeafCount(kids)
    ensures RunsLeaf(s, VisitBody(s, kids, at), DoneFrom(kids, s.stack, 0, n + 1), LeafPlaces(kids, at)[n], |at|,
                     n + 1 < LeafCount(kids))
    decreases kids, 2
  {
    BodyPlaces(kids, at);
    if kids != [] {
      FromRunsLeaf(s, kids, at, 0, n);
    }
  }

  lemma DoneSplits(kids: seq<Tree>, st: Stack, k: nat, n: nat)
    requires k < |kids| && n >= LeafCount(kids[k].children)
    ensures var l, q := LeafCount(kids[k].children), st + [kids[k].sig];
            DoneFrom(kids, st, k, n) == {q} + DoneFrom(kids[k].children, q, 0, l) + DoneFrom(kids, st, k + 1, n - l)
  {
    hide LeafCount;
  }

  // Below a later subcase nothing is below subcase k.
  lemma LaterApart(p: Stack, kids: seq<Tree>, st: Stack, k: nat)
    requires k < |kids| && DistinctSiblings(kids) && BelowFrom(p, kids, st, k + 1)
    ensures BelowFrom(p, kids, st, k) && p != st + [kids[k].sig]
    ensures !BelowFrom(p, kids[k].children, st + [kids[k].sig], 0)
  {
    var i :| k + 1 <= i < |kids| && st + [kids[i].sig] <= p;
    assert p[|st|] == kids[i].sig != kids[k].sig;
  }

  lemma SubcaseBelow(kids: seq<Tree>, st: Stack, k: nat)
    requires k < |kids|
    ensures BelowFrom(st + [kids[k].sig], kids, st, k)
  {}

  // Leaf n is below a subcase after number k, which is on record already.
  lemma AgreesAfter(passed: set<Stack>, kids: seq<Tree>, st: Stack, k: nat, n: nat)
    requires k < |kids| && DistinctSiblings(kids) && n >= LeafCount(kids[k].children)
    requires Agrees(passed, kids, st, k, n)
    ensures st + [kids[k].sig] in passed
    ensures Agrees(passed, kids, st, k + 1, n - LeafCount(kids[k].children))
  {
    hide LeafCount, DoneFrom, BelowFrom, DistinctSiblings;
    var l, q := LeafCount(kids[k].children), st + [kids[k].sig];
    SubcaseBelow(kids, st, k);
    DoneSplits(kids, st, k, n);
    DoneBelow(kids[k].children, q, 0, l);
    forall p | BelowFrom(p, kids, st, k + 1)
      ensures p in passed <==> p in DoneFrom(kids, st, k + 1, n - l)
    {
      LaterApart(p, kids, st, k);
    }
  }

  // Leaf n is below subcase k, which is not on record yet.
  lemma AgreesWithin(passed: set<Stack>, kids: seq<Tree>, st: Stack, k: nat, n: nat)
    requires k < |kids| && n < LeafCount(kids[k].children)
    requires Agrees(passed, kids, st, k, n)
    ensures st + [kids[k].sig] !in passed
    ensures Agrees(passed, kids[k].children, st + [kids[k].sig], 0, n)
  {
    var q, c := st + [kids[k].sig], kids[k].children;
    DoneBelow(c, q, 0, n);
    assert BelowFrom(q, kids, st, k);
    assert !BelowFrom(q, c, q, 0);
    forall p | BelowFrom(p, c, q, 0)
      ensures BelowFrom(p, kids, st, k)
    {
      assert q <= p;
    }
  }

  lemma WayThrough(leaf: Place, at: Place, k: nat)
    requires at + [k] <= leaf
    ensures WayTo(leaf, |at|) == [at + [k]] + WayTo(leaf, |at| + 1)
  {
    assert leaf[..|at| + 1] == at + [k];
  }

  lemma {:induction false} FromRunsLeaf(s: State, kids: seq<Tree>, at: Place, k: nat, n: nat)
    requires k <= |kids| && Fresh(s) && DistinctSiblings(kids) && n < CountFrom(kids, k)
    requires Agrees(s.passed, kids, s.stack, k, n)
    ensures |PlacesFrom(kids, at, k)| == CountFrom(kids, k)
    ensures RunsLeaf(s, VisitFrom(s, kids, at, k), DoneFrom(kids, s.stack, k, n + 1), PlacesFrom(kids, at, k)[n], |at|,
                     n + 1 < CountFrom(kids, k))
    decreases kids, 1, |kids| - k
  {
    hide LeafCount, CountFrom, LeafPlaces, PlacesFrom, Agrees, RunsLeaf, VisitBody, VisitFrom, DoneFrom;
    NothingCounted(kids);
    var l, c := LeafCount(kids[k].children), kids[k].children;
    FromPlaces(kids, at, k);
    BodyPlaces(c, at + [k]);
    PlacesSplit(kids, at, k);
    if n >= l {
      AgreesAfter(s.passed, kids, s.stack, k, n);
      FromRunsLeaf(s, kids, at, k + 1, n - l);
      RecordedBefore(s.passed, kids, s.stack, k, n);
      RunsLaterLeaf(s, kids, at, k, n);
    } else {
      AgreesWithin(s.passed, kids, s.stack, k, n);
      BodyRunsLeaf(Enter(s, kids[k].sig).0.(entered := s.entered + [at + [k]]), c, at + [k], n);
      EntersSubcase(s, kids, at, k, n, LeafPlaces(c, at + [k])[n]);
    }
  }

  lemma NothingCounted(kids: seq<Tree>)
    ensures CountFrom(kids, |kids|) == 0
  {}

  lemma PlacesSplit(kids: seq<Tree>, at: Place, k: nat)
    requires k < |kids|
    ensures PlacesFrom(kids, at, k) == LeafPlaces(kids[k].children, at + [k]) + PlacesFrom(kids, at, k + 1)
    ensures CountFrom(kids, k) == LeafCount(kids[k].children) + CountFrom(kids, k + 1)
    ensures |PlacesFrom(kids, at, k + 1)| == CountFrom(kids, k + 1) >= |kids| - (k + 1)
  {
    FromPlaces(kids, at, k + 1);
    hide LeafPlaces, LeafCount;
  }

  // Subcase k is on record, and the pass goes on behind it.
  lemma RunsLaterLeaf(s: State, kids: seq<Tree>, at: Place, k: nat, n: nat)
    requires k < |kids| && Fresh(s) && LeafCount(kids[k].children) <= n < CountFrom(kids, k)
    requires |PlacesFrom(kids, at, k)| == CountFrom(kids, k)
    requires var l, q := LeafCount(kids[k].children), s.stack + [kids[k].sig];
             && {q} + DoneFrom(kids[k].children, q, 0, l) <= s.passed
             && n - l < CountFrom(kids, k + 1) == |PlacesFrom(kids, at, k + 1)|
             && RunsLeaf(s, VisitFrom(s, kids, at, k + 1), DoneFrom(kids, s.stack, k + 1, n - l + 1),
                         PlacesFrom(kids, at, k + 1)[n - l], |at|, n - l + 1 < CountFrom(kids, k + 1))
    ensures RunsLeaf(s, VisitFrom(s, kids, at, k), DoneFrom(kids, s.stack, k, n + 1), PlacesFrom(kids, at, k)[n], |at|,
                     n + 1 < CountFrom(kids, k))
  {
    hide LeafCount, CountFrom, LeafPlaces, PlacesFrom, DoneFrom, WayTo, VisitFrom;
    var l, q := LeafCount(kids[k].children), s.stack + [kids[k].sig];
    BodyPlaces(kids[k].children, at + [k]);
    PlacesSplit(kids, at, k);
    DoneSplits(kids, s.stack, k, n + 1);
    RecordedIsSkipped(s, kids, at, k);
    Absorbed(s.passed, {q} + DoneFrom(kids[k].children, q, 0, l), DoneFrom(kids, s.stack, k + 1, n + 1 - l));
  }

  lemma Absorbed(a: set<Stack>, b: set<Stack>, c: set<Stack>)
    requires b <= a
    ensures a + (b + c) == a + c
  {}

  lemma RecordedIsSkipped(s: State, kids: seq<Tree>, at: Place, k: nat)
    requires k < |kids| && Fresh(s) && s.stack + [kids[k].sig] in s.passed
    ensures VisitFrom(s, kids, at, k) == VisitFrom(s, kids, at, k + 1)
  {}

  lemma EntersSubcase(s: State, kids: seq<Tree>, at: Place, k: nat, n: nat, leaf: Place)
    requires k < |kids| && Fresh(s) && n < LeafCount(kids[k].children)
    requires s.stack + [kids[k].sig] !in s.passed && at + [k] <= leaf
    requires CountFrom(kids, k + 1) >= |kids| - (k + 1)
    requires var s1 := Enter(s, kids[k].sig).0.(entered := s.entered + [at + [k]]);
             RunsLeaf(s1, VisitBody(s1, kids[k].children, at + [k]), DoneFrom(kids[k].children, s1.stack, 0, n + 1),
                      leaf, |at| + 1, n + 1 < LeafCount(kids[k].children))
    ensures RunsLeaf(s, VisitFrom(s, kids, at, k), DoneFrom(kids, s.stack, k, n + 1), leaf, |at|, n + 1 < CountFrom(kids, k))
  {
    var s1 := Enter(s, kids[k].sig).0.(entered := s.entered + [at + [k]]);
    BodyKeeps(s1, kids[k].children, at + [k]);
    LaterSiblingsWait(VisitOne(s, kids[k], at + [k]), kids, at, k + 1);
    NothingDone(kids, s.stack, k + 1);
    WayThrough(leaf, at, k);
    hide WayTo, LeafCount, VisitBody;
  }

  // What was on record for subcase k stays part of the record.
  lemma RecordedBefore(passed: set<Stack>, kids: seq<Tree>, st: Stack, k: nat, n: nat)
    requires k < |kids| && n >= LeafCount(kids[k].children)
    requires Agrees(passed, kids, st, k, n)
    ensures {st + [kids[k].sig]} + DoneFrom(kids[k].children, st + [kids[k].sig], 0, LeafCount(kids[k].children)) <= passed
  {
    DoneBelow(kids, st, k, n);
  }

  lemma {:induction false} DoneGrows(kids: seq<Tree>, st: Stack, k: nat, n: nat)
    requires k <= |kids|
    ensures DoneFrom(kids, st, k, n) <= DoneFrom(kids, st, k, n + 1)
    decreases kids, 1, |kids| - k
  {
    if k < |kids| {
      var l := LeafCount(kids[k].children);
      if n < l {
        DoneGrows(kids[k].children, st + [kids[k].sig], 0, n);
      } else {
        DoneGrows(kids, st, k + 1, n - l);
      }
    }
  }

  /** Pass number n enters exactly the subcases on the way to leaf n, from the outside in, runs that
      leaf, and asks for another pass exactly if it was not the last one. */
  lemma PassRunsLeaf(s: State, kids: seq<Tree>, n: nat)
    requires DistinctSiblings(kids) && n < LeafCount(kids) && s.passed == DoneFrom(kids, [], 0, n)
    ensures |LeafPlaces(kids, [])| == LeafCount(kids)
    ensures var r, leaf := Pass(s, kids), LeafPlaces(kids, [])[n];
            && r.leaves == s.leaves + [leaf] && r.entered == s.entered + WayTo(leaf, 0)
            && r.passed == DoneFrom(kids, [], 0, n + 1) && r.reenter == (n + 1 < LeafCount(kids))
  {
    BodyRunsLeaf(s.(stack := [], maxLevel := 0, reenter := false), kids, [], n);
    DoneGrows(kids, [], 0, n);
  }

  lemma {:induction false} RestOfRun(s: State, kids: seq<Tree>, n: nat)
    requires DistinctSiblings(kids) && n < LeafCount(kids)
    requires s.passed == DoneFrom(kids, [], 0, n) && s.passed <= StacksFrom(kids, [], 0)
    ensures |LeafPlaces(kids, [])| == LeafCount(kids)
    ensures Run(s, kids).leaves == s.leaves + LeafPlaces(kids, [])[n..]
    decreases LeafCount(kids) - n
  {
    BodyPlaces(kids, []);
    PassRunsLeaf(s, kids, n);
    PassProgress(s, kids);
    var leaves := LeafPlaces(kids, []);
    assert leaves[n..] == [leaves[n]] + leaves[n + 1..];
    hide Pass, LeafCount, LeafPlaces, DoneFrom, StacksFrom, Unrecorded;
    if n + 1 < LeafCount(kids) {
      RestOfRun(Pass(s, kids), kids, n + 1);
    }
  }

  // The context when a test case starts.
  const START: State := State([], {}, 0, false, [], [])

  /** The whole run goes through the leaves from left to right, one a pass. */
  lemma RunGoesThroughLeaves(kids: seq<Tree>)
    requires DistinctSiblings(kids)
    ensures Run(START, kids).leaves == LeafPlaces(kids, [])
  {
    BodyPlaces(kids, []);
    NothingDone(kids, [], 0);
    RestOfRun(START, kids, 0);
  }

  // ---- no leaf is named twice ----

  ghost predicate AllDifferent(s: seq<Place>) {
    forall i, j | 0 <= i < j < |s| :: s[i] != s[j]
  }

  lemma {:induction false} BodyPlacesDiffer(kids: seq<Tree>, at: Place)
    ensures AllDifferent(LeafPlaces(kids, at))
    decreases kids, 2
  {
    if kids != [] {
      FromPlacesDiffer(kids, at, 0);
    }
  }

  lemma {:induction false} FromPlacesDiffer(kids: seq<Tree>, at: Place, k: nat)
    requires k <= |kids|
    ensures AllDifferent(PlacesFrom(kids, at, k))
    ensures forall x | x in PlacesFrom(kids, at, k) :: |x| > |at| && x[|at|] >= k
    decreases kids, 1, |kids| - k
  {
    if k < |kids| {
      var here := LeafPlaces(kids[k].children, at + [k]);
      BodyPlacesDiffer(kids[k].children, at + [k]);
      BodyPlaces(kids[k].children, at + [k]);
      FromPlacesDiffer(kids, at, k + 1);
      assert forall x | x in here :: at + [k] <= x;
      var later := PlacesFrom(kids, at, k + 1);
      hide LeafPlaces;
      var all := here + later;
      forall i, j | 0 <= i < j < |all|
        ensures all[i] != all[j]
      {
        if i < |here| <= j {
          assert here[i] in here && later[j - |here|] in later;
        }
      }
    }
  }

  // ---- what happens when siblings share a signature ----

  ghost function NewLeaves(s: State, r: State): (res: seq<Place>) {
    if |s.leaves| <= |r.leaves| then r.leaves[|s.leaves|..] else []
  }

  // A subcase with this signature will not be entered.
  ghost predicate Blocked(s: State, sig: Signature) {
    |s.stack| < s.maxLevel || s.stack + [sig] in s.passed
  }

  lemma VisitBlocks(s: State, t: Tree, at: Place)
    ensures Blocked(VisitOne(s, t, at), t.sig)
  {
    OneKeeps(s, t, at);
    var (s1, entered) := Enter(s, t.sig);
    if entered {
      BodyKeeps(s1.(entered := s1.entered + [at]), t.children, at);
    }
  }

  /** The second of two siblings with one signature is never entered, in no pass and from no state:
      the first one is either entered before it or already on record. */
  lemma {:induction false} DuplicateNeverRuns(s: State, kids: seq<Tree>, at: Place, k: nat, i: nat, j: nat, leaf: Place)
    requires k <= |kids| && i < j < |kids| && kids[i].sig == kids[j].sig && at + [j] <= leaf
    requires k > i ==> Blocked(s, kids[j].sig)
    ensures leaf !in NewLeaves(s, VisitFrom(s, kids, at, k))
    decreases |kids| - k
  {
    if k < |kids| {
      var r := VisitOne(s, kids[k], at + [k]);
      OneKeeps(s, kids[k], at + [k]);
      FromKeeps(r, kids, at, k + 1);
      VisitBlocks(s, kids[k], at + [k]);
      if k == j {
        assert NewLeaves(s, r) == [];
      } else {
        assert leaf[|at|] == j;
        NotBelow(s, r, at + [k], leaf);
      }
      DuplicateNeverRuns(r, kids, at, k + 1, i, j, leaf);
      JoinLeaves(s, r, VisitFrom(r, kids, at, k + 1), leaf);
    }
  }

  lemma NotBelow(s: State, r: State, at: Place, leaf: Place)
    requires Keeps(s, r, at) && !(at <= leaf)
    ensures leaf !in NewLeaves(s, r)
  {
    forall n | 0 <= n < |NewLeaves(s, r)|
      ensures NewLeaves(s, r)[n] != leaf
    {
      assert NewLeaves(s, r)[n] == r.leaves[|s.leaves| + n];
    }
  }

  lemma JoinLeaves(s: State, r: State, r1: State, leaf: Place)
    requires s.leaves <= r.leaves <= r1.leaves
    requires leaf !in NewLeaves(s, r) && leaf !in NewLeaves(r, r1)
    ensures leaf !in NewLeaves(s, r1)
  {
    assert NewLeaves(s, r1) == NewLeaves(s, r) + NewLeaves(r, r1);
  }

  // Two siblings with one signature.
  ghost predicate SameSignature(kids: seq<Tree>, i: nat, j: nat) {
    i < j < |kids| && kids[i].sig == kids[j].sig
  }

  ghost function FirstLeaf(kids: seq<Tree>, at: Place): (leaf: Place)
    ensures leaf in LeafPlaces(kids, at) && at <= leaf
  {
    BodyPlaces(kids, at);
    LeafPlaces(kids, at)[0]
  }

  lemma NotDistinctCases(kids: seq<Tree>)
    requires !DistinctSiblings(kids)
    ensures (exists i, j :: SameSignature(kids, i, j)) || (exists c: nat :: c < |kids| && !DistinctSiblings(kids[c].children))
  {
    if i, j :| 0 <= i < j < |kids| && kids[i].sig == kids[j].sig {
      assert SameSignature(kids, i, j);
    }
  }

  ghost predicate HasDuplicate(kids: seq<Tree>) {
    exists i, j :: SameSignature(kids, i, j)
  }

  // A subcase with the signature of an earlier sibling.
  ghost function Duplicate(kids: seq<Tree>): (j: nat)
    requires HasDuplicate(kids)
    ensures j < |kids| && exists i :: SameSignature(kids, i, j)
  {
    var i: nat, j: nat :| SameSignature(kids, i, j);
    j
  }

  // A subcase with a duplicate somewhere below it.
  ghost function DuplicateBelow(kids: seq<Tree>): (c: nat)
    requires !DistinctSiblings(kids) && !HasDuplicate(kids)
    ensures c < |kids| && !DistinctSiblings(kids[c].children)
  {
    NotDistinctCases(kids);
    var c: nat :| c < |kids| && !DistinctSiblings(kids[c].children);
    c
  }

  /** A leaf below a duplicate. */
  ghost function MissedLeaf(kids: seq<Tree>, at: Place): (r: Place)
    requires !DistinctSiblings(kids)
    decreases kids, 2
  {
    if HasDuplicate(kids) then FirstLeaf(kids[Duplicate(kids)].children, at + [Duplicate(kids)])
    else MissedLeaf(kids[DuplicateBelow(kids)].children, at + [DuplicateBelow(kids)])
  }

  lemma {:induction false} MissedLeafIsLeaf(kids: seq<Tree>, at: Place)
    requires !DistinctSiblings(kids)
    ensures MissedLeaf(kids, at) in LeafPlaces(kids, at) && at <= MissedLeaf(kids, at)
    decreases kids, 2
  {
    var c := if HasDuplicate(kids) then Duplicate(kids) else DuplicateBelow(kids);
    if !HasDuplicate(kids) {
      MissedLeafIsLeaf(kids[c].children, at + [c]);
    }
    hide HasDuplicate, DistinctSiblings;
    assert MissedLeaf(kids, at) in LeafPlaces(kids[c].children, at + [c]) && at + [c] <= MissedLeaf(kids, at);
    ChildPlaces(kids, at, 0, c);
  }

  lemma {:induction false} ChildPlaces(kids: seq<Tree>, at: Place, k: nat, c: nat)
    requires k <= c < |kids|
    ensures forall x | x in LeafPlaces(kids[c].children, at + [c]) :: x in PlacesFrom(kids, at, k)
    decreases |kids| - k
  {
    if k < c {
      ChildPlaces(kids, at, k + 1, c);
    }
  }

  /** The leaf below a duplicate is in no pass, whatever has been run before. */
  lemma {:induction false} MissedLeafNeverRuns(s: State, kids: seq<Tree>, at: Place)
    requires !DistinctSiblings(kids)
    ensures MissedLeaf(kids, at) !in NewLeaves(s, VisitBody(s, kids, at))
    decreases kids, 2
  {
    if HasDuplicate(kids) {
      var j := Duplicate(kids);
      var i :| SameSignature(kids, i, j);
      DuplicateNeverRuns(s, kids, at, 0, i, j, FirstLeaf(kids[j].children, at + [j]));
    } else {
      MissedBelowChild(s, kids, at, 0, DuplicateBelow(kids));
    }
  }

  lemma {:induction false} MissedBelowChild(s: State, kids: seq<Tree>, at: Place, k: nat, c: nat)
    requires k <= |kids| && c < |kids| && !DistinctSiblings(kids[c].children)
    ensures MissedLeaf(kids[c].children, at + [c]) !in NewLeaves(s, VisitFrom(s, kids, at, k))
    decreases kids, 1, |kids| - k
  {
    var leaf := MissedLeaf(kids[c].children, at + [c]);
    if k < |kids| {
      var r := VisitOne(s, kids[k], at + [k]);
      OneKeeps(s, kids[k], at + [k]);
      FromKeeps(r, kids, at, k + 1);
      MissedLeafIsLeaf(kids[c].children, at + [c]);
      if k == c {
        var (s1, entered) := Enter(s, kids[k].sig);
        if entered {
          MissedLeafNeverRuns(s1.(entered := s1.entered + [at + [k]]), kids[k].children, at + [k]);
        }
      } else {
        assert leaf[|at|] == c;
        NotBelow(s, r, at + [k], leaf);
      }
      MissedBelowChild(r, kids, at, k + 1, c);
      JoinLeaves(s, r, VisitFrom(r, kids, at, k + 1), leaf);
    }
  }

  lemma {:induction false} RunMisses(s: State, kids: seq<Tree>)
    requires !DistinctSiblings(kids) && s.passed <= StacksFrom(kids, [], 0)
    ensures s.leaves <= Run(s, kids).leaves && MissedLeaf(kids, []) !in NewLeaves(s, Run(s, kids))
    decreases Unrecorded(s, kids)
  {
    var r, leaf := Pass(s, kids), MissedLeaf(kids, []);
    PassProgress(s, kids);
    BodyKeeps(s.(stack := [], maxLevel := 0, reenter := false), kids, []);
    MissedLeafNeverRuns(s.(stack := [], maxLevel := 0, reenter := false), kids, []);
    assert leaf !in NewLeaves(s, r);
    if r.reenter {
      RunMisses(r, kids);
      JoinLeaves(s, r, Run(r, kids), leaf);
    }
  }

  /** Every leaf of the test is run exactly once. */
  ghost predicate RunsEachLeafOnce(kids: seq<Tree>) {
    forall place | place in LeafPlaces(kids, []) :: multiset(Run(START, kids).leaves)[place] == 1
  }

  /** That is so exactly for the tests in which no two siblings have the same signature. */
  lemma RunsEachLeafOnceIff(kids: seq<Tree>)
    ensures RunsEachLeafOnce(kids) <==> DistinctSiblings(kids)
  {
    if DistinctSiblings(kids) {
      RunGoesThroughLeaves(kids);
      BodyPlacesDiffer(kids, []);
      hide Run, LeafPlaces, DistinctSiblings;
      OnceEach(LeafPlaces(kids, []));
    } else {
      RunMisses(START, kids);
      MissedLeafIsLeaf(kids, []);
      assert NewLeaves(START, Run(START, kids)) == Run(START, kids).leaves;
    }
  }

  lemma {:induction false} OnceEach(s: seq<Place>)
    requires AllDifferent(s)
    ensures forall x | x in s :: multiset(s)[x] == 1
  {
    if s != [] {
      assert s == [s[0]] + s[1..];
      OnceEach(s[1..]);
    }
  }

  // ---- the context object ----

  /** The part of the framework's global context that the subcases use. */
  class Context {
    var subcasesStack: Stack
    var subcasesPassed: set<Stack>
    var subcasesCurrentMaxLevel: nat
    var shouldReenter: bool
    ghost var entered: seq<Place>
    ghost var leaves: seq<Place>

    ghost function Value(): (r: State)
      reads this
    {
      State(subcasesStack, subcasesPassed, subcasesCurrentMaxLevel, shouldReenter, entered, leaves)
    }

    constructor ()
      ensures Value() == START
    {
      subcasesStack, subcasesPassed, subcasesCurrentMaxLevel, shouldReenter := [], {}, 0, false;
      entered, leaves := [], [];
    }

    /** The constructor of a subcase, without filters; says whether its body is to run. */
    method EnterSubcase(sig: Signature) returns (isEntered: bool)
      modifies this
      ensures (Value(), isEntered) == Enter(old(Value()), sig)
    {
      if |subcasesStack| < subcasesCurrentMaxLevel {
        shouldReenter := true;
        return false;
      }
      subcasesStack := subcasesStack + [sig];
      if subcasesStack in subcasesPassed {
        subcasesStack := subcasesStack[..|subcasesStack| - 1];
        return false;
      }
      subcasesCurrentMaxLevel := |subcasesStack|;
      return true;
    }

    /** The destructor of a subcase that was entered. */
    method LeaveSubcase()
      requires subcasesStack != []
      modifies this
      ensures Value() == Leave(old(Value()))
    {
      if !shouldReenter {
        subcasesPassed := subcasesPassed + {subcasesStack};
      }
      subcasesStack := subcasesStack[..|subcasesStack| - 1];
    }

    /** A test body, or the body of a subcase, that declares the given subcases one after another. */
    method RunBody(kids: seq<Tree>, ghost at: Place)
      modifies this
      ensures Value() == VisitBody(old(Value()), kids, at)
      decreases kids, 0
    {
      if |kids| == 0 {
        leaves := leaves + [at];
        return;
      }
      ghost var s := Value();
      for k := 0 to |kids|
        invariant VisitFrom(Value(), kids, at, k) == VisitFrom(s, kids, at, 0)
      {
        RunSubcase(kids[k], at + [k]);
      }
    }

    method RunSubcase(t: Tree, ghost at: Place)
      modifies this
      ensures Value() == VisitOne(old(Value()), t, at)
      decreases t, 1
    {
      var isEntered := EnterSubcase(t.sig);
      if isEntered {
        entered := entered + [at];
        RunBody(t.children, at);
        LeaveSubcase();
      }
    }

    /** One turn of the do loop. */
    method RunPass(kids: seq<Tree>)
      modifies this
      ensures Value() == Pass(old(Value()), kids)
    {
      shouldReenter := false;
      subcasesCurrentMaxLevel := 0;
      subcasesStack := [];
      RunBody(kids, []);
    }

    /** The part of Context::run that executes one test case. It terminates for every test. */
    method RunTest(kids: seq<Tree>) returns (passes: nat)
      requires Value() == START
      modifies this
      ensures Value() == Run(START, kids)
      ensures DistinctSiblings(kids) ==> leaves == LeafPlaces(kids, []) && passes == LeafCount(kids)
    {
      hide Pass, DistinctSiblings, LeafCount, LeafPlaces, DoneFrom, StacksFrom, Unrecorded;
      BodyPlaces(kids, []);
      NothingDone(kids, [], 0);
      passes := 0;
      var runTest := true;
      while runTest
        invariant subcasesPassed <= StacksFrom(kids, [], 0)
        invariant if runTest then Run(Value(), kids) == Run(START, kids) else Value() == Run(START, kids)
        invariant DistinctSiblings(kids) ==> DoneSoFar(kids, Value(), passes, runTest)
        decreases runTest, Unrecorded(Value(), kids)
      {
        PassProgress(Value(), kids);
        if DistinctSiblings(kids) {
          PassRunsLeaf(Value(), kids, passes);
        }
        RunPass(kids);
        if !shouldReenter {
          runTest := false;
        }
        passes := passes + 1;
      }
    }
  }

  // After a number of passes, that many leaves have been run, and there is another pass if some are left.
  ghost predicate DoneSoFar(kids: seq<Tree>, s: State, passes: nat, more: bool) {
    && |LeafPlaces(kids, [])| == LeafCount(kids) >= passes
    && s.leaves == LeafPlaces(kids, [])[..passes] && s.passed == DoneFrom(kids, [], 0, passes)
    && more == (passes < LeafCount(kids))
  }
}
