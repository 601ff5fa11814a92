/** What a whole run executes, for every test case, whatever signatures its subcases have. */
module SubcaseRuns {
  import opened Subcases

  // An earlier subcase of the same body has the same signature.
  ghost predicate IsLater(kids: seq<Tree>, k: nat)
    requires k < |kids|
  {
    exists i :: 0 <= i < k && kids[i].sig == kids[k].sig
  }

  /** The places of the leaves, from left to right, when of siblings with one signature only the first
      is kept, at every level. */
  ghost function FirstPlaces(kids: seq<Tree>, at: Place): (r: seq<Place>)
    decreases kids, 2
  {
    if kids == [] then [at] else FirstFrom(kids, at, 0)
  }

  ghost function FirstFrom(kids: seq<Tree>, at: Place, k: nat): (r: seq<Place>)
    requires k <= |kids|
    decreases kids, 1, |kids| - k
  {
    if k == |kids| then []
    else (if IsLater(kids, k) then [] else FirstPlaces(kids[k].children, at + [k])) + FirstFrom(kids, at, k + 1)
  }

  // Those of them that are not below a stack on record.
  ghost function Left(passed: set<Stack>, st: Stack, kids: seq<Tree>, at: Place): (r: seq<Place>)
    decreases kids, 2
  {
    if kids == [] then [at] else LeftFrom(passed, st, kids, at, 0)
  }

  ghost function LeftFrom(passed: set<Stack>, st: Stack, kids: seq<Tree>, at: Place, k: nat): (r: seq<Place>)
    requires k <= |kids|
    decreases kids, 1, |kids| - k
  {
    if k == |kids| then []
    else
      (if IsLater(kids, k) || st + [kids[k].sig] in passed then []
       else Left(passed, st + [kids[k].sig], kids[k].children, at + [k]))
      + LeftFrom(passed, st, kids, at, k + 1)
  }

  lemma {:induction false} AllLeftAtFirst(st: Stack, kids: seq<Tree>, at: Place)
    ensures Left({}, st, kids, at) == FirstPlaces(kids, at)
    decreases kids, 2
  {
    if kids != [] {
      AllLeftFrom(st, kids, at, 0);
    }
  }

  lemma {:induction false} AllLeftFrom(st: Stack, kids: seq<Tree>, at: Place, k: nat)
    requires k <= |kids|
    ensures LeftFrom({}, st, kids, at, k) == FirstFrom(kids, at, k)
    decreases kids, 1, |kids| - k
  {
    if k < |kids| {
      AllLeftAtFirst(st + [kids[k].sig], kids[k].children, at + [k]);
      AllLeftFrom(st, kids, at, k + 1);
    }
  }

  // ---- what is left does not depend on stacks elsewhere ----

  // Everything new on record is outside of st.
  ghost predicate NewOutside(p0: set<Stack>, p1: set<Stack>, st: Stack) {
    p0 <= p1 && forall p | p in p1 && p !in p0 :: !(st <= p)
  }

  // Everything new on record is at or below st.
  ghost predicate NewBelow(p0: set<Stack>, p1: set<Stack>, st: Stack) {
    p0 <= p1 && forall p | p in p1 && p !in p0 :: st <= p
  }

  lemma OutsideOfChild(p0: set<Stack>, p1: set<Stack>, st: Stack, sig: Signature)
    requires NewOutside(p0, p1, st)
    ensures NewOutside(p0, p1, st + [sig]) && (st + [sig] in p1 <==> st + [sig] in p0)
  {}

  lemma {:induction false} OutsideIsIrrelevant(p0: set<Stack>, p1: set<Stack>, st: Stack, kids: seq<Tree>, at: Place)
    requires NewOutside(p0, p1, st)
    ensures Left(p1, st, kids, at) == Left(p0, st, kids, at)
    decreases kids, 2
  {
    if kids != [] {
      OutsideIsIrrelevantFrom(p0, p1, st, kids, at, 0);
    }
  }

  lemma {:induction false} OutsideIsIrrelevantFrom(p0: set<Stack>, p1: set<Stack>, st: Stack, kids: seq<Tree>, at: Place,
                                                   k: nat)
    requires k <= |kids| && NewOutside(p0, p1, st)
    ensures LeftFrom(p1, st, kids, at, k) == LeftFrom(p0, st, kids, at, k)
    decreases kids, 1, |kids| - k
  {
    hide NewOutside, IsLater;
    if k < |kids| {
      OutsideOfChild(p0, p1, st, kids[k].sig);
      OutsideIsIrrelevant(p0, p1, st + [kids[k].sig], kids[k].children, at + [k]);
      OutsideIsIrrelevantFrom(p0, p1, st, kids, at, k + 1);
    }
  }

  lemma OtherSibling(p0: set<Stack>, p1: set<Stack>, st: Stack, sig: Signature, other: Signature)
    requires NewBelow(p0, p1, st + [sig]) && other != sig
    ensures NewOutside(p0, p1, st + [other]) && (st + [other] in p1 <==> st + [other] in p0)
  {
    forall p | p in p1 && p !in p0
      ensures !(st + [other] <= p)
    {
      OnePrefix(p, st, sig, other);
    }
    OnePrefix(st + [other], st, sig, other);
  }

  lemma OnePrefix(p: Stack, st: Stack, sig: Signature, other: Signature)
    requires other != sig
    ensures !(st + [sig] <= p && st + [other] <= p)
  {
    if st + [sig] <= p {
      assert p[|st|] == sig;
    }
  }

  // Entering subcase i does not change what is left of its later siblings.
  lemma {:induction false} SiblingsUnaffected(p0: set<Stack>, p1: set<Stack>, st: Stack, kids: seq<Tree>, at: Place, i: nat,
                                              k: nat)
    requires i < k <= |kids| && NewBelow(p0, p1, st + [kids[i].sig])
    ensures LeftFrom(p1, st, kids, at, k) == LeftFrom(p0, st, kids, at, k)
    decreases |kids| - k
  {
    hide NewBelow, NewOutside;
    if k < |kids| {
      if kids[k].sig != kids[i].sig {
        OtherSibling(p0, p1, st, kids[i].sig, kids[k].sig);
        OutsideIsIrrelevant(p0, p1, st + [kids[k].sig], kids[k].children, at + [k]);
      }
      SiblingsUnaffected(p0, p1, st, kids, at, i, k + 1);
    }
  }

  // ---- leaves that have been run and leaves that are left ----

  /** From s to r, what was left has been run, in order, or is left still; all of it has been run if
      nothing was skipped. New on record are only stacks properly below st. */
  ghost predicate Moves(s: State, r: State, st: Stack, left0: seq<Place>, left1: seq<Place>) {
    && r.leaves + left1 == s.leaves + left0 && (r.reenter || left1 == [])
    && NewBelow(s.passed, r.passed, st) && (st in r.passed ==> st in s.passed)
  }

  // All subcases before number k are on record.
  ghost predicate RecordedTo(s: State, kids: seq<Tree>, k: nat)
    requires k <= |kids|
  {
    forall i | 0 <= i < k :: s.stack + [kids[i].sig] in s.passed
  }

  lemma {:induction false} BodyMoves(s: State, kids: seq<Tree>, at: Place)
    requires Fresh(s) && kids != []
    ensures var r := VisitBody(s, kids, at);
            Moves(s, r, s.stack, Left(s.passed, s.stack, kids, at), Left(r.passed, s.stack, kids, at))
    decreases kids, 2
  {
    FromMoves(s, kids, at, 0);
  }

  lemma {:induction false} FromMoves(s: State, kids: seq<Tree>, at: Place, k: nat)
    requires Fresh(s) && k <= |kids| && RecordedTo(s, kids, k)
    ensures var r := VisitFrom(s, kids, at, k);
            Moves(s, r, s.stack, LeftFrom(s.passed, s.stack, kids, at, k), LeftFrom(r.passed, s.stack, kids, at, k))
    decreases kids, 1, |kids| - k
  {
    if k < |kids| {
      if s.stack + [kids[k].sig] in s.passed {
        RecordedSkipped(s, kids, at, k);
        FromMoves(s, kids, at, k + 1);
        RecordedMoves(s, VisitFrom(s, kids, at, k + 1), kids, at, k);
      } else {
        if kids[k].children == [] {
          LeafChildMoves(s, kids[k], at + [k]);
        } else {
          BodyMoves(Entered(s, kids[k].sig, at + [k]), kids[k].children, at + [k]);
          BodyChildMoves(s, kids[k], at + [k]);
        }
        EnteredMoves(s, kids, at, k);
      }
    }
  }

  // The state behind the constructor of a subcase that is entered.
  ghost function Entered(s: State, sig: Signature, at: Place): (r: State) {
    s.(stack := s.stack + [sig], maxLevel := |s.stack| + 1, entered := s.entered + [at])
  }

  lemma RecordedSkipped(s: State, kids: seq<Tree>, at: Place, k: nat)
    requires Fresh(s) && k < |kids| && RecordedTo(s, kids, k) && s.stack + [kids[k].sig] in s.passed
    ensures VisitFrom(s, kids, at, k) == VisitFrom(s, kids, at, k + 1)
    ensures RecordedTo(s, kids, k + 1)
  {}

  lemma RecordedLeft(p: set<Stack>, st: Stack, kids: seq<Tree>, at: Place, k: nat)
    requires k < |kids| && st + [kids[k].sig] in p
    ensures LeftFrom(p, st, kids, at, k) == LeftFrom(p, st, kids, at, k + 1)
  {}

  lemma RecordedMoves(s: State, r: State, kids: seq<Tree>, at: Place, k: nat)
    requires k < |kids| && s.stack + [kids[k].sig] in s.passed
    requires Moves(s, r, s.stack, LeftFrom(s.passed, s.stack, kids, at, k + 1), LeftFrom(r.passed, s.stack, kids, at, k + 1))
    ensures Moves(s, r, s.stack, LeftFrom(s.passed, s.stack, kids, at, k), LeftFrom(r.passed, s.stack, kids, at, k))
  {
    RecordedLeft(s.passed, s.stack, kids, at, k);
    RecordedLeft(r.passed, s.stack, kids, at, k);
    hide LeftFrom;
  }

  lemma VisitOneEnters(s: State, t: Tree, at: Place)
    requires Fresh(s) && s.stack + [t.sig] !in s.passed
    ensures var r := VisitBody(Entered(s, t.sig, at), t.children, at);
            && r.stack == s.stack + [t.sig] && r.maxLevel > |s.stack| && s.passed <= r.passed
            && VisitOne(s, t, at) == Leave(r)
  {
    BodyKeeps(Entered(s, t.sig, at), t.children, at);
  }

  // What is left of a subcase that has been entered.
  ghost function LeftOf(passed: set<Stack>, st: Stack, t: Tree, at: Place): (r: seq<Place>) {
    if st + [t.sig] in passed then [] else Left(passed, st + [t.sig], t.children, at)
  }

  // From s to r, one subcase has been entered and left.
  ghost predicate ChildMoves(s: State, r: State, t: Tree, at: Place) {
    && r.leaves + LeftOf(r.passed, s.stack, t, at) == s.leaves + LeftOf(s.passed, s.stack, t, at)
    && (r.reenter || s.stack + [t.sig] in r.passed) && NewBelow(s.passed, r.passed, s.stack + [t.sig])
    && r.stack == s.stack && r.maxLevel > |s.stack|
  }

  lemma LeafChildMoves(s: State, t: Tree, at: Place)
    requires Fresh(s) && s.stack + [t.sig] !in s.passed && t.children == []
    ensures ChildMoves(s, VisitOne(s, t, at), t, at)
  {}

  lemma BodyChildMoves(s: State, t: Tree, at: Place)
    requires Fresh(s) && s.stack + [t.sig] !in s.passed && t.children != []
    requires var q, s1 := s.stack + [t.sig], Entered(s, t.sig, at);
             var r := VisitBody(s1, t.children, at);
             Moves(s1, r, q, Left(s.passed, q, t.children, at), Left(r.passed, q, t.children, at))
    ensures ChildMoves(s, VisitOne(s, t, at), t, at)
  {
    VisitOneEnters(s, t, at);
    hide VisitBody, VisitOne;
    var q := s.stack + [t.sig];
    var r := VisitBody(Entered(s, t.sig, at), t.children, at);
    if !r.reenter {
      RecordingIsBelow(s.passed, r.passed, q);
    }
    hide Left;
  }

  lemma RecordingIsBelow(p0: set<Stack>, p1: set<Stack>, q: Stack)
    requires NewBelow(p0, p1, q)
    ensures NewBelow(p0, p1 + {q}, q)
  {}

  lemma FirstIsKept(s: State, kids: seq<Tree>, k: nat)
    requires k < |kids| && RecordedTo(s, kids, k) && s.stack + [kids[k].sig] !in s.passed
    ensures !IsLater(kids, k)
  {}

  lemma LeftSplits(passed: set<Stack>, st: Stack, kids: seq<Tree>, at: Place, k: nat)
    requires k < |kids| && !IsLater(kids, k)
    ensures LeftFrom(passed, st, kids, at, k) == LeftOf(passed, st, kids[k], at + [k]) + LeftFrom(passed, st, kids, at, k + 1)
  {
    hide Left;
  }

  lemma ProperlyBelow(p0: set<Stack>, p1: set<Stack>, st: Stack, sig: Signature)
    requires NewBelow(p0, p1, st + [sig])
    ensures NewBelow(p0, p1, st) && (st in p1 ==> st in p0)
  {}

  lemma VisitFromSteps(s: State, kids: seq<Tree>, at: Place, k: nat)
    requires k < |kids|
    ensures VisitFrom(s, kids, at, k) == VisitFrom(VisitOne(s, kids[k], at + [k]), kids, at, k + 1)
  {
    hide VisitOne;
  }

  // Leaves run, leaves left of subcase k, and leaves left of its later siblings.
  lemma JoinMoves(s: State, r: State, x: State, t: Tree, at: Place, left1: seq<Place>, more: bool)
    requires ChildMoves(s, r, t, at) && x == r.(reenter := r.reenter || more) && (more || left1 == [])
    requires s.stack + [t.sig] !in s.passed
    ensures Moves(s, x, s.stack, LeftOf(s.passed, s.stack, t, at) + left1, LeftOf(x.passed, s.stack, t, at) + left1)
  {
    ProperlyBelow(s.passed, r.passed, s.stack, t.sig);
    hide Left, NewBelow;
    var l0, l1 := LeftOf(s.passed, s.stack, t, at), LeftOf(r.passed, s.stack, t, at);
    assert r.leaves + (l1 + left1) == (r.leaves + l1) + left1;
    assert s.leaves + (l0 + left1) == (s.leaves + l0) + left1;
  }

  lemma EnteredMoves(s: State, kids: seq<Tree>, at: Place, k: nat)
    requires Fresh(s) && k < |kids| && RecordedTo(s, kids, k) && s.stack + [kids[k].sig] !in s.passed
    requires ChildMoves(s, VisitOne(s, kids[k], at + [k]), kids[k], at + [k])
    ensures var r := VisitFrom(s, kids, at, k);
            Moves(s, r, s.stack, LeftFrom(s.passed, s.stack, kids, at, k), LeftFrom(r.passed, s.stack, kids, at, k))
  {
    var t, r2 := kids[k], VisitOne(s, kids[k], at + [k]);
    var r := VisitFrom(s, kids, at, k);
    ChildWaits(s, r2, t, at + [k]);
    FirstIsKept(s, kids, k);
    NothingBehind(s.passed, s.stack, kids, at, k + 1);
    hide *;
    VisitFromSteps(s, kids, at, k);
    LaterSiblingsWait(r2, kids, at, k + 1);
    SiblingsUnaffected(s.passed, r2.passed, s.stack, kids, at, k, k + 1);
    LeftSplits(s.passed, s.stack, kids, at, k);
    LeftSplits(r2.passed, s.stack, kids, at, k);
    JoinMoves(s, r2, r, t, at + [k], LeftFrom(s.passed, s.stack, kids, at, k + 1), k + 1 < |kids|);
  }

  lemma ChildWaits(s: State, r: State, t: Tree, at: Place)
    requires ChildMoves(s, r, t, at)
    ensures |r.stack| < r.maxLevel && NewBelow(s.passed, r.passed, s.stack + [t.sig])
  {}

  lemma NothingBehind(passed: set<Stack>, st: Stack, kids: seq<Tree>, at: Place, k: nat)
    requires k <= |kids|
    ensures k == |kids| ==> LeftFrom(passed, st, kids, at, k) == []
  {}

  // ---- passes and runs ----

  /** One pass: what was left has been run or is left still, and nothing is left after the last pass. */
  lemma PassMoves(s: State, kids: seq<Tree>)
    requires kids != []
    ensures Pass(s, kids).leaves + Left(Pass(s, kids).passed, [], kids, []) == s.leaves + Left(s.passed, [], kids, [])
    ensures Pass(s, kids).reenter || Left(Pass(s, kids).passed, [], kids, []) == []
  {
    BodyMoves(s.(stack := [], maxLevel := 0, reenter := false), kids, []);
    hide VisitBody, Left;
  }

  lemma {:induction false} RunRunsWhatIsLeft(s: State, kids: seq<Tree>)
    requires kids != [] && s.passed <= StacksFrom(kids, [], 0)
    ensures Run(s, kids).leaves == s.leaves + Left(s.passed, [], kids, [])
    decreases Unrecorded(s, kids)
  {
    PassProgress(s, kids);
    PassMoves(s, kids);
    hide Pass, StacksFrom, Unrecorded, Left;
    if Pass(s, kids).reenter {
      RunRunsWhatIsLeft(Pass(s, kids), kids);
    }
  }

  /** Every test case: the whole run executes exactly the leaves that are not below a later sibling of
      equal signature, from left to right. */
  lemma RunExecutes(kids: seq<Tree>)
    ensures Run(START, kids).leaves == FirstPlaces(kids, [])
  {
    if kids == [] {
      assert Pass(START, kids).leaves == [[]] && !Pass(START, kids).reenter;
    } else {
      RunRunsWhatIsLeft(START, kids);
      AllLeftAtFirst([], kids, []);
      hide Run, Left, FirstPlaces;
    }
  }

  // ---- each once ----

  lemma {:induction false} FirstPlacesBelow(kids: seq<Tree>, at: Place)
    ensures forall x | x in FirstPlaces(kids, at) :: at <= x
    decreases kids, 2
  {
    if kids != [] {
      FirstFromBelow(kids, at, 0);
    }
  }

  lemma {:induction false} FirstFromBelow(kids: seq<Tree>, at: Place, k: nat)
    requires k <= |kids|
    ensures forall x | x in FirstFrom(kids, at, k) :: at <= x && |x| > |at| && x[|at|] >= k
    decreases kids, 1, |kids| - k
  {
    if k < |kids| {
      FirstPlacesBelow(kids[k].children, at + [k]);
      FirstFromBelow(kids, at, k + 1);
      hide FirstPlaces, IsLater;
    }
  }

  /** No leaf is run twice. */
  lemma {:induction false} FirstPlacesDiffer(kids: seq<Tree>, at: Place)
    ensures AllDifferent(FirstPlaces(kids, at))
    decreases kids, 2
  {
    if kids != [] {
      FirstFromDiffer(kids, at, 0);
    }
  }

  lemma {:induction false} FirstFromDiffer(kids: seq<Tree>, at: Place, k: nat)
    requires k <= |kids|
    ensures AllDifferent(FirstFrom(kids, at, k))
    decreases kids, 1, |kids| - k
  {
    NoPlaces();
    hide FirstPlaces, IsLater, AllDifferent;
    if k < |kids| {
      var later := FirstFrom(kids, at, k + 1);
      FirstPlacesDiffer(kids[k].children, at + [k]);
      FirstPlacesBelow(kids[k].children, at + [k]);
      FirstFromDiffer(kids, at, k + 1);
      FirstFromBelow(kids, at, k + 1);
      BlocksDiffer(FirstPlaces(kids[k].children, at + [k]), later, at, k);
      assert [] + later == later;
    }
  }

  lemma NoPlaces()
    ensures AllDifferent([])
  {}

  lemma BlocksDiffer(here: seq<Place>, later: seq<Place>, at: Place, k: nat)
    requires AllDifferent(here) && AllDifferent(later)
    requires forall x | x in here :: at + [k] <= x
    requires forall x | x in later :: |x| > |at| && x[|at|] >= k + 1
    ensures AllDifferent(here + later)
  {
    forall i, j | 0 <= i < |here| && 0 <= j < |later|
      ensures here[i] != later[j]
    {
      assert here[i] in here && later[j] in later;
      assert (at + [k])[|at|] == here[i][|at|];
    }
  }
}
