/** The emitted statements in terms of matrices. */
module KernelMatrices {
  import opened KernelLanguage
  import opened LinearKernels
  import opened TimeKernels
  import opened FusedKernels

  type Entries = (nat, nat) -> real

  // A tensor with two indices.
  function MatrixOf(n: Name, st: State): (m: Entries) {
    (i: nat, j: nat) => st(n, [i, j])
  }

  // Row i of a times column j of b.
  function RowColumn(a: Entries, b: Entries, n: nat, i: nat, j: nat): (r: real) {
    if n == 0 then 0.0 else RowColumn(a, b, n - 1, i, j) + EntryProduct(a(i, n - 1), b(n - 1, j))
  }

  /** The product of two matrices; the first has n columns. */
  function MatrixProduct(a: Entries, n: nat, b: Entries): (m: Entries) {
    (i: nat, j: nat) => RowColumn(a, b, n, i, j)
  }

  // Summed over its inner letters, the term is entry (k, y) of m.
  ghost predicate IsChain(t: Term, inner: string, k: char, y: char, m: Entries, ext: Assignment, st: State) {
    forall a: Assignment :: SumOver(inner, ext, a, t, st) == m(Get(a, k), Get(a, y))
  }

  lemma OneProduct(n: Name, k: char, y: char, a: Assignment, st: State)
    ensures Product([Factor(n, [k, y])], a, st) == st(n, [Get(a, k), Get(a, y)])
  {
    var t := [Factor(n, [k, y])];
    assert Values([k, y], a) == [Get(a, k), Get(a, y)];
    assert t[1..] == [];
    assert Product([], a, st) == 1.0;
  }

  lemma ChainStarts(n: Name, k: char, y: char, ext: Assignment, st: State)
    ensures IsChain([Factor(n, [k, y])], "", k, y, MatrixOf(n, st), ext, st)
  {
    forall a: Assignment
      ensures SumOver("", ext, a, [Factor(n, [k, y])], st) == MatrixOf(n, st)(Get(a, k), Get(a, y))
    {
      OneProduct(n, k, y, a, st);
    }
  }

  lemma LinkHasNone(n: Name, x: char, y: char, inner: string)
    requires x !in inner && y !in inner
    ensures MentionsNone([Factor(n, [x, y])], inner)
  {}

  lemma ChainLink(t: Term, inner: string, k: char, x: char, y: char, m: Entries, n: Name, i: nat, ext: Assignment,
                  a: Assignment, st: State)
    requires IsChain(t, inner, k, x, m, ext, st) && x != k && x != y && x !in inner && y !in inner
    ensures SumOver(inner, ext, a[x := i], t + [Factor(n, [x, y])], st) == EntryProduct(m(Get(a, k), i), st(n, [i, Get(a, y)]))
  {
    var b := a[x := i];
    LinkHasNone(n, x, y, inner);
    FactorsComeOut(inner, ext, b, t, [Factor(n, [x, y])], st);
    OneProduct(n, x, y, b, st);
    assert Get(b, k) == Get(a, k) && Get(b, x) == i && Get(b, y) == Get(a, y);
    assert SumOver(inner, ext, b, t, st) == m(Get(b, k), Get(b, x));
  }

  lemma RowColumnStarts(m: Entries, b: Entries, i: nat, j: nat)
    ensures RowColumn(m, b, 0, i, j) == 0.0
  {}

  lemma RowColumnGrows(m: Entries, n: Name, st: State, c: nat, i: nat, j: nat)
    requires c > 0
    ensures RowColumn(m, MatrixOf(n, st), c, i, j)
         == RowColumn(m, MatrixOf(n, st), c - 1, i, j) + EntryProduct(m(i, c - 1), st(n, [c - 1, j]))
  {}

  lemma {:induction false} ChainSum(t: Term, inner: string, k: char, x: char, y: char, m: Entries, n: Name, c: nat,
                                    ext: Assignment, a: Assignment, st: State)
    requires IsChain(t, inner, k, x, m, ext, st) && x != k && x != y && x !in inner && y !in inner
    ensures SumAt(inner + [x], c, ext, a, t + [Factor(n, [x, y])], st)
         == RowColumn(m, MatrixOf(n, st), c, Get(a, k), Get(a, y))
  {
    hide *;
    if c == 0 {
      NothingToAdd(inner + [x], ext, a, t + [Factor(n, [x, y])], st);
      RowColumnStarts(m, MatrixOf(n, st), Get(a, k), Get(a, y));
    } else {
      ChainSum(t, inner, k, x, y, m, n, c - 1, ext, a, st);
      ChainLink(t, inner, k, x, y, m, n, c - 1, ext, a, st);
      SumAtGrows(inner + [x], c, ext, a, t + [Factor(n, [x, y])], st);
      assert (inner + [x])[..|inner|] == inner && (inner + [x])[|inner|] == x;
      RowColumnGrows(m, n, st, c, Get(a, k), Get(a, y));
    }
  }

  /** One more factor in a chain is one more matrix in the product. */
  lemma ChainGrows(t: Term, inner: string, k: char, x: char, y: char, m: Entries, n: Name, ext: Assignment, st: State)
    requires IsChain(t, inner, k, x, m, ext, st) && x != k && x != y && x !in inner && y !in inner
    ensures IsChain(t + [Factor(n, [x, y])], inner + [x], k, y, MatrixProduct(m, Get(ext, x), MatrixOf(n, st)), ext, st)
  {
    forall a: Assignment
      ensures SumOver(inner + [x], ext, a, t + [Factor(n, [x, y])], st)
           == MatrixProduct(m, Get(ext, x), MatrixOf(n, st))(Get(a, k), Get(a, y))
    {
      ChainSum(t, inner, k, x, y, m, n, Get(ext, x), ext, a, st);
    }
  }

  // ---- the letters of a chain with the target letters k and p ----

  ghost predicate ChainLetters(t: Term, inner: string) {
    NoDuplicates(inner) && forall c :: c in inner <==> Mentions(t, c) && c != 'k' && c != 'p'
  }

  /** The entry of a term that is a chain from k to p. */
  lemma ChainEntry(t: Term, inner: string, m: Entries, ext: Assignment, st: State, i: nat, j: nat)
    requires IsChain(t, inner, 'k', 'p', m, ext, st) && ChainLetters(t, inner)
    ensures TermSum(t, ext, [i, j], st) == m(i, j)
  {
    var a := Bind("kp", [i, j]);
    SameChainLetters(t, inner);
    assert Contracted(t, "kp") + "" == Contracted(t, "kp") && inner + "" == inner;
    SumsPermute(Contracted(t, "kp"), inner, "", ext, a, t, st);
    BoundPair("kp", [i, j]);
    assert Values("kp", a)[0] == Get(a, 'k') && Values("kp", a)[1] == Get(a, 'p');
    hide Bind, Contracted, SumOver, ChainLetters;
  }

  lemma SameChainLetters(t: Term, inner: string)
    requires ChainLetters(t, inner)
    ensures NoDuplicates(Contracted(t, "kp")) && SameLetters(Contracted(t, "kp"), inner)
  {
    NewLettersAre(LettersOf(t), Letters("kp"));
    assert "kp"[0] == 'k' && "kp"[1] == 'p';
    forall c: char
      ensures c in Contracted(t, "kp") <==> c in inner
    {
      LettersAre(t, c);
    }
  }

  // The product of three tensors in a row.
  function Three(a: Name, b: Name, c: Name): (t: Term) {
    [Factor(a, "kl")] + [Factor(b, "lq")] + [Factor(c, "qp")]
  }

  function ThreeMatrix(a: Name, b: Name, c: Name, ext: Assignment, st: State): (m: Entries) {
    MatrixProduct(MatrixProduct(MatrixOf(a, st), Get(ext, 'l'), MatrixOf(b, st)), Get(ext, 'q'), MatrixOf(c, st))
  }

  lemma ThreeIsChain(a: Name, b: Name, c: Name, ext: Assignment, st: State)
    ensures IsChain(Three(a, b, c), "lq", 'k', 'p', ThreeMatrix(a, b, c, ext, st), ext, st)
  {
    hide IsChain;
    ChainStarts(a, 'k', 'l', ext, st);
    ChainGrows([Factor(a, "kl")], "", 'k', 'l', 'q', MatrixOf(a, st), b, ext, st);
    ChainGrows([Factor(a, "kl")] + [Factor(b, "lq")], "" + "l", 'k', 'q', 'p',
               MatrixProduct(MatrixOf(a, st), Get(ext, 'l'), MatrixOf(b, st)), c, ext, st);
    assert "" + "l" + "q" == "lq";
  }

  lemma ThreeLetters(a: Name, b: Name, c: Name)
    ensures ChainLetters(Three(a, b, c), "lq")
  {
    var t := Three(a, b, c);
    assert t[0] == Factor(a, "kl") && t[1] == Factor(b, "lq") && t[2] == Factor(c, "qp");
    assert t[0] in t && t[1] in t && t[2] in t;
  }

  /** (a b c)[i, j] */
  lemma ThreeEntry(a: Name, b: Name, c: Name, ext: Assignment, st: State, i: nat, j: nat)
    ensures TermSum(Three(a, b, c), ext, [i, j], st) == ThreeMatrix(a, b, c, ext, st)(i, j)
  {
    ThreeIsChain(a, b, c, ext, st);
    ThreeLetters(a, b, c);
    ChainEntry(Three(a, b, c), "lq", ThreeMatrix(a, b, c, ext, st), ext, st, i, j);
  }

  // ---- the fluxes ----

  function FluxMatrix(i: nat, solver: Name, ext: Assignment, st: State): (m: Entries) {
    var flux := MatrixProduct(MatrixOf(RDivM(i), st), Get(ext, 'm'), MatrixOf(FMrT(i), st));
    MatrixProduct(MatrixProduct(flux, Get(ext, 'l'), MatrixOf(I, st)), Get(ext, 'q'), MatrixOf(solver, st))
  }

  lemma FluxIsChain(i: nat, solver: Name, ext: Assignment, st: State)
    ensures IsChain(PlusFlux(i) + Solved(solver), "mlq", 'k', 'p', FluxMatrix(i, solver, ext, st), ext, st)
  {
    hide IsChain;
    var r, f, v, s := Factor(RDivM(i), "km"), Factor(FMrT(i), "ml"), Factor(I, "lq"), Factor(solver, "qp");
    var rf := MatrixProduct(MatrixOf(RDivM(i), st), Get(ext, 'm'), MatrixOf(FMrT(i), st));
    ChainStarts(RDivM(i), 'k', 'm', ext, st);
    ChainGrows([r], "", 'k', 'm', 'l', MatrixOf(RDivM(i), st), FMrT(i), ext, st);
    ChainGrows([r] + [f], "" + "m", 'k', 'l', 'q', rf, I, ext, st);
    ChainGrows([r] + [f] + [v], "" + "m" + "l", 'k', 'q', 'p', MatrixProduct(rf, Get(ext, 'l'), MatrixOf(I, st)), solver, ext, st);
    assert [r] + [f] + [v] + [s] == PlusFlux(i) + Solved(solver);
    assert "" + "m" + "l" + "q" == "mlq";
  }

  lemma FluxChainLetters(i: nat, solver: Name)
    ensures ChainLetters(PlusFlux(i) + Solved(solver), "mlq")
  {
    var t := PlusFlux(i) + Solved(solver);
    assert t[0] == Factor(RDivM(i), "km") && t[1] == Factor(FMrT(i), "ml") && t[2] == Factor(I, "lq");
    assert t[3] == Factor(solver, "qp");
    assert t[0] in t && t[1] in t && t[2] in t && t[3] in t;
  }

  /** The flux through one side: Q + rDivM fMrT I AplusT. */
  lemma LocalFluxIsProduct(i: nat, ext: Assignment, st: State, k: nat, p: nat)
    ensures Step(LocalFlux(i), ext, st)(Q, [k, p]) == st(Q, [k, p]) + FluxMatrix(i, AplusT, ext, st)(k, p)
  {
    FluxIsChain(i, AplusT, ext, st);
    FluxChainLetters(i, AplusT);
    ChainEntry(PlusFlux(i) + Solved(AplusT), "mlq", FluxMatrix(i, AplusT, ext, st), ext, st, k, p);
    LocalFluxTarget(i);
    StepEntry(LocalFlux(i), ext, st, Q, [k, p]);
    FluxEntry(PlusFlux(i), AplusT, ext, st, [k, p]);
    CopiedEntry(Q, "kp", ext, st, [k, p]);
    hide Step, SumOver, Contracted, Bind, FluxMatrix;
  }

  function NodalFlux(i: nat): (t: Term) {
    [Factor(Project2nFaceTo3m(i), "kn")] + [Factor(INodal, "no")] + [Factor(AminusT, "op")]
  }

  function NodalMatrix(i: nat, ext: Assignment, st: State): (m: Entries) {
    MatrixProduct(MatrixProduct(MatrixOf(Project2nFaceTo3m(i), st), Get(ext, 'n'), MatrixOf(INodal, st)), Get(ext, 'o'),
                  MatrixOf(AminusT, st))
  }

  lemma NodalIsChain(i: nat, ext: Assignment, st: State)
    ensures IsChain(NodalFlux(i), "no", 'k', 'p', NodalMatrix(i, ext, st), ext, st)
  {
    hide IsChain;
    var r := Factor(Project2nFaceTo3m(i), "kn");
    ChainStarts(Project2nFaceTo3m(i), 'k', 'n', ext, st);
    ChainGrows([r], "", 'k', 'n', 'o', MatrixOf(Project2nFaceTo3m(i), st), INodal, ext, st);
    ChainGrows([r] + [Factor(INodal, "no")], "" + "n", 'k', 'o', 'p',
               MatrixProduct(MatrixOf(Project2nFaceTo3m(i), st), Get(ext, 'n'), MatrixOf(INodal, st)), AminusT, ext, st);
    assert "" + "n" + "o" == "no";
  }

  lemma NodalLetters(i: nat)
    ensures ChainLetters(NodalFlux(i), "no")
  {
    var t := NodalFlux(i);
    assert t[0] == Factor(Project2nFaceTo3m(i), "kn") && t[1] == Factor(INodal, "no") && t[2] == Factor(AminusT, "op");
    assert t[0] in t && t[1] in t && t[2] in t;
  }

  lemma NodalTermsAre(i: nat)
    ensures LocalFluxNodal(i).target == Q && LocalFluxNodal(i).idx == "kp"
    ensures LocalFluxNodal(i).terms == [Old(Q, "kp")] + [NodalFlux(i)]
  {
    assert NodalFlux(i) == [Factor(Project2nFaceTo3m(i), "kn"), Factor(INodal, "no"), Factor(AminusT, "op")];
  }

  /** The flux through the nodes of a face: Q + project2nFaceTo3m INodal AminusT. */
  lemma NodalFluxIsProduct(i: nat, ext: Assignment, st: State, k: nat, p: nat)
    ensures Step(LocalFluxNodal(i), ext, st)(Q, [k, p])
         == st(Q, [k, p])
            + MatrixProduct(MatrixProduct(MatrixOf(Project2nFaceTo3m(i), st), Get(ext, 'n'), MatrixOf(INodal, st)),
                            Get(ext, 'o'), MatrixOf(AminusT, st))(k, p)
  {
    hide Step, TermSum, TermsSum, NodalFlux, LocalFluxNodal, MatrixProduct, IsChain, ChainLetters, Old;
    NodalTermsAre(i);
    StepDoes(LocalFluxNodal(i), ext, st, Q, [k, p]);
    NodalIsChain(i, ext, st);
    NodalLetters(i);
    ChainEntry(NodalFlux(i), "no", NodalMatrix(i, ext, st), ext, st, k, p);
    OneTermSum(Old(Q, "kp"), ext, [k, p], st);
    OneTermSum(NodalFlux(i), ext, [k, p], st);
    CopiedSum(Q, ext, [k, p], st);
    SumsJoin([Old(Q, "kp")], [NodalFlux(i)], ext, [k, p], st);
  }

  function NeighborMatrix(h: nat, j: nat, i: nat, ext: Assignment, st: State): (m: Entries) {
    var turned := MatrixProduct(MatrixOf(RDivM(i), st), Get(ext, 'm'), MatrixOf(FP(h), st));
    var flux := MatrixProduct(turned, Get(ext, 'n'), MatrixOf(RT(j), st));
    MatrixProduct(MatrixProduct(flux, Get(ext, 'l'), MatrixOf(I, st)), Get(ext, 'q'), MatrixOf(AminusT, st))
  }

  lemma NeighborIsChain(h: nat, j: nat, i: nat, ext: Assignment, st: State)
    ensures IsChain(MinusFlux(h, j, i) + Solved(AminusT), "mnlq", 'k', 'p', NeighborMatrix(h, j, i, ext, st), ext, st)
  {
    hide IsChain;
    var r, f, t := Factor(RDivM(i), "km"), Factor(FP(h), "mn"), Factor(RT(j), "nl");
    var v, s := Factor(I, "lq"), Factor(AminusT, "qp");
    var rf := MatrixProduct(MatrixOf(RDivM(i), st), Get(ext, 'm'), MatrixOf(FP(h), st));
    var rft := MatrixProduct(rf, Get(ext, 'n'), MatrixOf(RT(j), st));
    ChainStarts(RDivM(i), 'k', 'm', ext, st);
    ChainGrows([r], "", 'k', 'm', 'n', MatrixOf(RDivM(i), st), FP(h), ext, st);
    ChainGrows([r] + [f], "" + "m", 'k', 'n', 'l', rf, RT(j), ext, st);
    ChainGrows([r] + [f] + [t], "" + "m" + "n", 'k', 'l', 'q', rft, I, ext, st);
    ChainGrows([r] + [f] + [t] + [v], "" + "m" + "n" + "l", 'k', 'q', 'p', MatrixProduct(rft, Get(ext, 'l'), MatrixOf(I, st)),
               AminusT, ext, st);
    assert [r] + [f] + [t] + [v] + [s] == MinusFlux(h, j, i) + Solved(AminusT);
    assert "" + "m" + "n" + "l" + "q" == "mnlq";
  }

  lemma NeighborLetters(h: nat, j: nat, i: nat)
    ensures ChainLetters(MinusFlux(h, j, i) + Solved(AminusT), "mnlq")
  {
    var t := MinusFlux(h, j, i) + Solved(AminusT);
    assert t[0] == Factor(RDivM(i), "km") && t[1] == Factor(FP(h), "mn") && t[2] == Factor(RT(j), "nl");
    assert t[3] == Factor(I, "lq") && t[4] == Factor(AminusT, "qp");
    assert t[0] in t && t[1] in t && t[2] in t && t[3] in t && t[4] in t;
  }

  /** The flux from a neighbor: Q + rDivM fP rT I AminusT. */
  lemma NeighboringFluxIsProduct(h: nat, j: nat, i: nat, ext: Assignment, st: State, k: nat, p: nat)
    ensures Step(NeighboringFlux(h, j, i), ext, st)(Q, [k, p]) == st(Q, [k, p]) + NeighborMatrix(h, j, i, ext, st)(k, p)
  {
    NeighborIsChain(h, j, i, ext, st);
    NeighborLetters(h, j, i);
    ChainEntry(MinusFlux(h, j, i) + Solved(AminusT), "mnlq", NeighborMatrix(h, j, i, ext, st), ext, st, k, p);
    assert NeighboringFlux(h, j, i).target == Q && |NeighboringFlux(h, j, i).idx| == 2;
    StepEntry(NeighboringFlux(h, j, i), ext, st, Q, [k, p]);
    FluxEntry(MinusFlux(h, j, i), AminusT, ext, st, [k, p]);
    CopiedEntry(Q, "kp", ext, st, [k, p]);
    hide Step, SumOver, Contracted, Bind, NeighborMatrix;
  }

  // ---- derivatives ----

  function TwoMatrix(a: Name, b: Name, ext: Assignment, st: State): (m: Entries) {
    MatrixProduct(MatrixOf(a, st), Get(ext, 'q'), MatrixOf(b, st))
  }

  lemma TwoEntry(a: Name, b: Name, ext: Assignment, st: State, i: nat, j: nat)
    ensures TermSum([Factor(a, "kq"), Factor(b, "qp")], ext, [i, j], st) == TwoMatrix(a, b, ext, st)(i, j)
  {
    var t := [Factor(a, "kq"), Factor(b, "qp")];
    TwoLetters(a, b);
    hide IsChain, ChainLetters;
    ChainStarts(a, 'k', 'q', ext, st);
    ChainGrows([Factor(a, "kq")], "", 'k', 'q', 'p', MatrixOf(a, st), b, ext, st);
    assert [Factor(a, "kq")] + [Factor(b, "qp")] == t && "" + "q" == "q";
    ChainEntry(t, "q", TwoMatrix(a, b, ext, st), ext, st, i, j);
  }

  lemma TwoLetters(a: Name, b: Name)
    ensures ChainLetters([Factor(a, "kq"), Factor(b, "qp")], "q")
  {
    var t := [Factor(a, "kq"), Factor(b, "qp")];
    assert t[0] in t && t[1] in t;
  }

  // Sum of the three products matrix(j) prev star(j).
  function Flow(m0: Name, m1: Name, m2: Name, prev: Name, ext: Assignment, st: State, i: nat, j: nat): (r: real) {
    ThreeMatrix(m0, prev, Star(0), ext, st)(i, j) + ThreeMatrix(m1, prev, Star(1), ext, st)(i, j)
    + ThreeMatrix(m2, prev, Star(2), ext, st)(i, j)
  }

  lemma ThreeTerms(m0: Name, m1: Name, m2: Name, prev: Name, ext: Assignment, st: State, i: nat, j: nat)
    ensures TermsSum([Three(m0, prev, Star(0)), Three(m1, prev, Star(1)), Three(m2, prev, Star(2))], ext, [i, j], st)
         == Flow(m0, m1, m2, prev, ext, st, i, j)
  {
    hide Three, TermSum, TermsSum, ThreeMatrix;
    var t0, t1, t2 := Three(m0, prev, Star(0)), Three(m1, prev, Star(1)), Three(m2, prev, Star(2));
    ThreeEntry(m0, prev, Star(0), ext, st, i, j);
    ThreeEntry(m1, prev, Star(1), ext, st, i, j);
    ThreeEntry(m2, prev, Star(2), ext, st, i, j);
    OneTermSum(t0, ext, [i, j], st);
    OneTermSum(t1, ext, [i, j], st);
    OneTermSum(t2, ext, [i, j], st);
    SumsJoin([t0], [t1], ext, [i, j], st);
    SumsJoin([t0] + [t1], [t2], ext, [i, j], st);
    assert [t0] + [t1] + [t2] == [t0, t1, t2];
  }

  lemma DerivativeTermsAre(prev: Name, source: bool)
    ensures DerivativeTerms(prev, source)
         == (if source then [[Factor(prev, "kq"), Factor(Source, "qp")]] else [])
            + [Three(KDivMT(0), prev, Star(0)), Three(KDivMT(1), prev, Star(1)), Three(KDivMT(2), prev, Star(2))]
  {
    assert forall j: nat :: DimTerm(j, prev) == Three(KDivMT(j), prev, Star(j));
  }

  /** A derivative is the sum of kDivMT(d) prev star(d) over the dimensions, and prev times the source. */
  lemma DerivativeIsProduct(d: nat, source: bool, gpu: bool, ext: Assignment, st: State, k: nat, p: nat)
    requires d > 0
    ensures var prev := Level(d - 1, gpu);
            (Step(DerivativeStep(d, source, gpu), ext, st)(DQ(d), [k, p])
             == (if source then TwoMatrix(prev, Source, ext, st)(k, p) else 0.0)
                + Flow(KDivMT(0), KDivMT(1), KDivMT(2), prev, ext, st, k, p))
  {
    var prev := Level(d - 1, gpu);
    var ts := [Three(KDivMT(0), prev, Star(0)), Three(KDivMT(1), prev, Star(1)), Three(KDivMT(2), prev, Star(2))];
    DerivativeStepDoes(d, source, gpu, ext, st, DQ(d), [k, p]);
    DerivativeTermsAre(prev, source);
    ThreeTerms(KDivMT(0), KDivMT(1), KDivMT(2), prev, ext, st, k, p);
    hide Step, Three, TermSum, TermsSum, TwoMatrix, Flow, DerivativeTerms;
    if source {
      var s := [Factor(prev, "kq"), Factor(Source, "qp")];
      TwoEntry(prev, Source, ext, st, k, p);
      OneTermSum(s, ext, [k, p], st);
      SumsJoin([s], ts, ext, [k, p], st);
    } else {
      assert [] + ts == ts;
    }
  }

  lemma VolumeTermsAre(source: bool)
    ensures Volume(source).terms
         == [Old(Q, "kp")] + [Three(KDivM(0), I, Star(0)), Three(KDivM(1), I, Star(1)), Three(KDivM(2), I, Star(2))]
            + (if source then [[Factor(I, "kq"), Factor(Source, "qp")]] else [])
  {
    assert forall j: nat :: VolumeTerm(j) == Three(KDivM(j), I, Star(j));
  }

  // The source term comes last, if there is one.
  lemma SourceAdded(source: bool, ts: seq<Term>, ext: Assignment, st: State, k: nat, p: nat)
    ensures TermsSum(ts + (if source then [[Factor(I, "kq"), Factor(Source, "qp")]] else []), ext, [k, p], st)
         == TermsSum(ts, ext, [k, p], st) + (if source then TwoMatrix(I, Source, ext, st)(k, p) else 0.0)
  {
    hide TermSum, TermsSum, TwoMatrix;
    if source {
      var s := [Factor(I, "kq"), Factor(Source, "qp")];
      TwoEntry(I, Source, ext, st, k, p);
      OneTermSum(s, ext, [k, p], st);
      SumsJoin(ts, [s], ext, [k, p], st);
    } else {
      assert ts + [] == ts;
    }
  }

  /** The volume kernel: Q, and the sum of kDivM(d) I star(d) over the dimensions, and I times the source. */
  lemma VolumeIsProduct(source: bool, ext: Assignment, st: State, k: nat, p: nat)
    ensures Step(Volume(source), ext, st)(Q, [k, p])
         == st(Q, [k, p]) + Flow(KDivM(0), KDivM(1), KDivM(2), I, ext, st, k, p)
            + (if source then TwoMatrix(I, Source, ext, st)(k, p) else 0.0)
  {
    hide *;
    var ts := [Three(KDivM(0), I, Star(0)), Three(KDivM(1), I, Star(1)), Three(KDivM(2), I, Star(2))];
    VolumeShape(source);
    StepDoes(Volume(source), ext, st, Q, [k, p]);
    VolumeTermsAre(source);
    ThreeTerms(KDivM(0), KDivM(1), KDivM(2), I, ext, st, k, p);
    OneTermSum(Old(Q, "kp"), ext, [k, p], st);
    CopiedSum(Q, ext, [k, p], st);
    SumsJoin([Old(Q, "kp")], ts, ext, [k, p], st);
    SourceAdded(source, [Old(Q, "kp")] + ts, ext, st, k, p);
  }

  lemma VolumeShape(source: bool)
    ensures Volume(source).target == Q && Volume(source).idx == "kp"
  {}

  // ---- the time integral ----

  lemma PowerLetters(i: nat, n: Name)
    ensures Contracted(PowerTerm(i, n), "kp") == ""
  {
    var t := PowerTerm(i, n);
    NewLettersAre(LettersOf(t), Letters("kp"));
    LettersOfOne(n, "kp");
    assert t[1..] == Old(n, "kp");
    assert LettersOf(t) == "kp";
    FirstLetter(Contracted(t, "kp"));
  }

  /** power(i) dQ(i), entry by entry. */
  lemma PowerEntry(i: nat, n: Name, ext: Assignment, st: State, v: seq<nat>)
    requires |v| == 2
    ensures TermSum(PowerTerm(i, n), ext, v, st) == st(Power(i), []) * st(n, v)
  {
    var a := Bind("kp", v);
    PowerLetters(i, n);
    BoundPair("kp", v);
    hide Contracted, Bind;
    PairProduct(Factor(Power(i), ""), Factor(n, "kp"), a, st);
    assert Values("", a) == [];
    hide Product, Values;
  }

  // The sum of the first n powers times their derivatives.
  function PowerSum(n: nat, st: State, v: seq<nat>): (r: real) {
    if n == 0 then 0.0 else PowerSum(n - 1, st, v) + st(Power(n - 1), []) * st(DQ(n - 1), v)
  }

  lemma {:induction false} TaylorTermsSum(n: nat, ext: Assignment, st: State, v: seq<nat>)
    requires |v| == 2
    ensures TermsSum(TaylorTerms(n), ext, v, st) == PowerSum(n, st, v)
  {
    hide TermSum, TaylorTerms, PowerTerm;
    if n == 0 {
      assert TaylorTerms(0) == [];
    } else {
      hide TermsSum;
      TaylorTermsSum(n - 1, ext, st, v);
      TaylorGrows(n - 1, ext, v, st);
      PowerEntry(n - 1, DQ(n - 1), ext, st, v);
    }
  }

  /** The Taylor kernel leaves the sum of all powers times their derivatives in I. */
  lemma TaylorIsPowerSum(order: nat, ext: Assignment, st: State, k: nat, p: nat)
    ensures Step(Taylor(order), ext, st)(I, [k, p]) == PowerSum(order, st, [k, p])
  {
    StepDoes(Taylor(order), ext, st, I, [k, p]);
    TaylorTermsSum(order, ext, st, [k, p]);
    hide TaylorTerms, TermsSum, PowerSum, Step;
  }

  /** So does the derivative kernel, with the derivatives it has just stored. */
  lemma DerivativeIsPowerSum(order: nat, source: bool, gpu: bool, ext: Assignment, st: State, k: nat, p: nat)
    requires order > 0
    ensures var r := Run(Derivative(order, source, gpu), ext, st); r(I, [k, p]) == PowerSum(order, r, [k, p])
  {
    hide *;
    TaylorHolds(order, source, gpu, ext, st, [k, p]);
    TaylorTermsSum(order, ext, Run(Derivative(order, source, gpu), ext, st), [k, p]);
  }
}
