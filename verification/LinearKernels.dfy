/** The kernels of the linear ADER-DG scheme, and why their several forms agree. */
module LinearKernels {
  import opened KernelLanguage
  import opened KernelSlices

  // ---- the flux of an element through one of its own sides ----

  function Old(n: Name, idx: Indices): (t: Term) {
    [Factor(n, idx)]
  }

  // rDivM[i]["km"] * fMrT[i]["ml"]
  function PlusFlux(i: nat): (t: Term) {
    [Factor(RDivM(i), "km"), Factor(FMrT(i), "ml")]
  }

  // rDivM[i]["km"] * fP[h]["mn"] * rT[j]["nl"]
  function MinusFlux(h: nat, j: nat, i: nat): (t: Term) {
    [Factor(RDivM(i), "km"), Factor(FP(h), "mn"), Factor(RT(j), "nl")]
  }

  // I["lq"] * solver["qp"]
  function Solved(solver: Name): (t: Term) {
    [Factor(I, "lq"), Factor(solver, "qp")]
  }

  function FluxStatement(flux: Term, solver: Name): (s: Statement) {
    Statement(Q, "kp", [Old(Q, "kp"), flux + Solved(solver)])
  }

  // tensor["kl"] <= flux, worked out when the kernels are generated
  function Precomputed(tensor: Name, flux: Term): (s: Statement) {
    Statement(tensor, "kl", [flux])
  }

  function LocalFlux(i: nat): (s: Statement) {
    FluxStatement(PlusFlux(i), AplusT)
  }

  function NeighboringFlux(h: nat, j: nat, i: nat): (s: Statement) {
    FluxStatement(MinusFlux(h, j, i), AminusT)
  }

  function GpuLocalFlux(i: nat, premultiplied: bool): (s: Statement) {
    FluxStatement(if premultiplied then Old(PlusFluxMatrices(i), "kl") else PlusFlux(i), AplusT)
  }

  function GpuNeighboringFlux(h: nat, j: nat, i: nat, premultiplied: bool): (s: Statement) {
    FluxStatement(if premultiplied then Old(MinusFluxMatrices(h, j, i), "kl") else MinusFlux(h, j, i), AminusT)
  }

  function FluxTerm(i: nat, premultiplied: bool): (t: Term) {
    (if premultiplied then Old(PlusFluxMatrices(i), "kl") else PlusFlux(i)) + Solved(AplusTAll(i))
  }

  function FluxTerms(n: nat, premultiplied: bool): (ts: seq<Term>)
    ensures |ts| == n && forall i | 0 <= i < n :: ts[i] == FluxTerm(i, premultiplied)
  {
    seq(n, i requires 0 <= i < n => FluxTerm(i, premultiplied))
  }

  function GpuLocalFluxAll(premultiplied: bool): (s: Statement) {
    Statement(Q, "kp", [Old(Q, "kp")] + FluxTerms(4, premultiplied))
  }

  // The tensor holds what the generator has worked out.
  ghost predicate HoldsFlux(tensor: Name, flux: Term, ext: Assignment, st: State) {
    forall v: seq<nat> | |v| == 2 :: st(tensor, v) == Eval(Precomputed(tensor, flux), v, ext, st)
  }

  // The letters of the quantities do not occur in the flux.
  predicate FluxForm(flux: Term) {
    !Mentions(flux, 'q') && !Mentions(flux, 'p')
  }

  lemma InnerLetters(flux: Term)
    requires FluxForm(flux)
    ensures NoDuplicates(Contracted(flux, "kl") + "lq")
    ensures forall c :: c in Contracted(flux, "kl") <==> Mentions(flux, c) && c != 'k' && c != 'l'
  {
    var inner := Contracted(flux, "kl");
    NewLettersAre(LettersOf(flux), Letters("kl"));
    assert "kl"[0] == 'k' && "kl"[1] == 'l';
    forall c: char
      ensures c in inner <==> Mentions(flux, c) && c != 'k' && c != 'l'
    {
      LettersAre(flux, c);
    }
    DistinctJoin(inner, "lq");
  }

  lemma AllLetters(flux: Term, solver: Name)
    requires FluxForm(flux)
    ensures NoDuplicates(Contracted(flux + Solved(solver), "kp"))
    ensures forall c ::
              c in Contracted(flux + Solved(solver), "kp") <==> (Mentions(flux, c) || c in "lqp") && c != 'k' && c != 'p'
  {
    var t := flux + Solved(solver);
    NewLettersAre(LettersOf(t), Letters("kp"));
    assert "kp"[0] == 'k' && "kp"[1] == 'p';
    forall c: char
      ensures c in Contracted(t, "kp") <==> (Mentions(flux, c) || c in "lqp") && c != 'k' && c != 'p'
    {
      LettersAre(t, c);
      SolvedMentions(flux, solver, c);
    }
  }

  lemma FluxLetters(flux: Term, solver: Name)
    requires FluxForm(flux)
    ensures var inner := Contracted(flux, "kl");
            && NoDuplicates(inner + "lq") && NoDuplicates(Contracted(flux + Solved(solver), "kp"))
            && SameLetters(Contracted(flux + Solved(solver), "kp"), inner + "lq")
  {
    hide Contracted, Solved, NoDuplicates;
    InnerLetters(flux);
    AllLetters(flux, solver);
  }

  lemma SolvedMentions(flux: Term, solver: Name, c: char)
    ensures Mentions(flux + Solved(solver), c) <==> Mentions(flux, c) || c in "lqp"
  {
    assert Factor(I, "lq") in Solved(solver) && Factor(solver, "qp") in Solved(solver);
  }

  lemma FluxTensorHolds(tensor: Name, flux: Term, ext: Assignment, st: State)
    requires HoldsFlux(tensor, flux, ext, st)
    ensures Holds(Factor(tensor, "kl"), Contracted(flux, "kl"), flux, ext, st)
  {
    var inner := Contracted(flux, "kl");
    NewLettersAre(LettersOf(flux), Letters("kl"));
    forall a: Assignment
      ensures st(tensor, Values("kl", a)) == SumOver(inner, ext, a, flux, st)
    {
      var v := Values("kl", a);
      PrecomputedEntry(tensor, flux, ext, st, v);
      forall c | Mentions(flux, c) && c !in inner
        ensures Get(a, c) == Get(Bind("kl", v), c)
      {
        LettersAre(flux, c);
      }
      SumDepends(inner, ext, a, Bind("kl", v), flux, st);
    }
  }

  lemma PrecomputedEntry(tensor: Name, flux: Term, ext: Assignment, st: State, v: seq<nat>)
    requires |v| == 2
    ensures Eval(Precomputed(tensor, flux), v, ext, st) == SumOver(Contracted(flux, "kl"), ext, Bind("kl", v), flux, st)
  {
    OneTerm(flux, "kl", ext, Bind("kl", v), st);
  }

  /** A premultiplied flux is worth as much as the product it replaces. */
  lemma PremultipliedTerm(flux: Term, tensor: Name, solver: Name, ext: Assignment, a: Assignment, st: State)
    requires FluxForm(flux) && HoldsFlux(tensor, flux, ext, st)
    ensures SumOver(Contracted(flux + Solved(solver), "kp"), ext, a, flux + Solved(solver), st)
         == SumOver(Contracted(Old(tensor, "kl") + Solved(solver), "kp"), ext, a, Old(tensor, "kl") + Solved(solver), st)
  {
    hide SumOver, Holds, HoldsFlux, Contracted, FluxForm, Solved, SameLetters;
    var inner := Contracted(flux, "kl");
    FluxLetters(flux, solver);
    FluxTensorHolds(tensor, flux, ext, st);
    SolvedHasNone(flux, solver);
    SumsPermute(Contracted(flux + Solved(solver), "kp"), inner + "lq", "", ext, a, flux + Solved(solver), st);
    assert inner + "lq" + "" == inner + "lq";
    assert Contracted(flux + Solved(solver), "kp") + "" == Contracted(flux + Solved(solver), "kp");
    Premultiply(inner, "lq", ext, a, Factor(tensor, "kl"), flux, Solved(solver), st);
    TensorSum(tensor, solver, ext, a, st);
  }

  lemma TensorSum(tensor: Name, solver: Name, ext: Assignment, a: Assignment, st: State)
    ensures SumOver("lq", ext, a, [Factor(tensor, "kl")] + Solved(solver), st)
         == SumOver(Contracted(Old(tensor, "kl") + Solved(solver), "kp"), ext, a, Old(tensor, "kl") + Solved(solver), st)
  {
    var t := Old(tensor, "kl") + Solved(solver);
    TensorForm(tensor);
    hide SumOver, Contracted, FluxForm, Solved, SameLetters;
    FluxLetters(Old(tensor, "kl"), solver);
    CopiedLetters(tensor, "kl");
    assert "" + "lq" == "lq" && "lq" + "" == "lq" && Contracted(t, "kp") + "" == Contracted(t, "kp");
    SumsPermute(Contracted(t, "kp"), "lq", "", ext, a, t, st);
  }

  lemma TensorForm(tensor: Name)
    ensures FluxForm(Old(tensor, "kl")) && Old(tensor, "kl") == [Factor(tensor, "kl")]
  {}

  lemma SolvedHasNone(flux: Term, solver: Name)
    requires FluxForm(flux)
    ensures MentionsNone(Solved(solver), Contracted(flux, "kl"))
  {
    NewLettersAre(LettersOf(flux), Letters("kl"));
    forall c | c in Contracted(flux, "kl")
      ensures !Mentions(Solved(solver), c)
    {
      LettersAre(flux, c);
    }
  }

  // ---- one side ----

  lemma FluxEntry(flux: Term, solver: Name, ext: Assignment, st: State, v: seq<nat>)
    requires |v| == 2
    ensures Eval(FluxStatement(flux, solver), v, ext, st)
         == SumOver(Contracted(Old(Q, "kp"), "kp"), ext, Bind("kp", v), Old(Q, "kp"), st)
          + SumOver(Contracted(flux + Solved(solver), "kp"), ext, Bind("kp", v), flux + Solved(solver), st)
  {
    hide SumOver, Contracted, Solved;
    var a := Bind("kp", v);
    OneTerm(Old(Q, "kp"), "kp", ext, a, st);
    OneTerm(flux + Solved(solver), "kp", ext, a, st);
    TermsJoin([Old(Q, "kp")], [flux + Solved(solver)], "kp", ext, a, st);
    assert [Old(Q, "kp")] + [flux + Solved(solver)] == FluxStatement(flux, solver).terms;
  }

  /** The kernel with premultiplied matrices updates Q as the kernel with the factors does. */
  lemma PremultipliedFlux(flux: Term, tensor: Name, solver: Name, ext: Assignment, st: State, n: Name, v: seq<nat>)
    requires FluxForm(flux) && HoldsFlux(tensor, flux, ext, st)
    ensures Step(FluxStatement(Old(tensor, "kl"), solver), ext, st)(n, v)
          == Step(FluxStatement(flux, solver), ext, st)(n, v)
  {
    hide *;
    FluxTarget(flux, solver);
    FluxTarget(Old(tensor, "kl"), solver);
    StepEntry(FluxStatement(flux, solver), ext, st, n, v);
    StepEntry(FluxStatement(Old(tensor, "kl"), solver), ext, st, n, v);
    if n == Q && |v| == 2 {
      FluxEntry(flux, solver, ext, st, v);
      FluxEntry(Old(tensor, "kl"), solver, ext, st, v);
      PremultipliedTerm(flux, tensor, solver, ext, Bind("kp", v), st);
    }
  }

  lemma FluxTarget(flux: Term, solver: Name)
    ensures FluxStatement(flux, solver).target == Q && |FluxStatement(flux, solver).idx| == 2
  {}

  lemma PlusFluxForm(i: nat)
    ensures FluxForm(PlusFlux(i))
  {}

  lemma MinusFluxForm(h: nat, j: nat, i: nat)
    ensures FluxForm(MinusFlux(h, j, i))
  {}

  /** Local fluxes: with or without premultiplication, on one device or the other. */
  lemma LocalFluxForms(i: nat, premultiplied: bool, ext: Assignment, st: State, n: Name, v: seq<nat>)
    requires premultiplied ==> HoldsFlux(PlusFluxMatrices(i), PlusFlux(i), ext, st)
    ensures Step(GpuLocalFlux(i, premultiplied), ext, st)(n, v) == Step(LocalFlux(i), ext, st)(n, v)
  {
    hide Step, FluxStatement, HoldsFlux, PlusFlux, FluxForm;
    if premultiplied {
      PlusFluxForm(i);
      PremultipliedFlux(PlusFlux(i), PlusFluxMatrices(i), AplusT, ext, st, n, v);
    }
  }

  /** Fluxes from the neighbor: the same. */
  lemma NeighboringFluxForms(h: nat, j: nat, i: nat, premultiplied: bool, ext: Assignment, st: State, n: Name, v: seq<nat>)
    requires premultiplied ==> HoldsFlux(MinusFluxMatrices(h, j, i), MinusFlux(h, j, i), ext, st)
    ensures Step(GpuNeighboringFlux(h, j, i, premultiplied), ext, st)(n, v) == Step(NeighboringFlux(h, j, i), ext, st)(n, v)
  {
    hide Step, FluxStatement, HoldsFlux, MinusFlux, FluxForm;
    if premultiplied {
      MinusFluxForm(h, j, i);
      PremultipliedFlux(MinusFlux(h, j, i), MinusFluxMatrices(h, j, i), AminusT, ext, st, n, v);
    }
  }

  // ---- all sides ----

  // The solver of one side is put in place, and the side is added.
  function SideInTurn(i: nat): (k: Kernel) {
    [Statement(AplusT, "qp", [Old(AplusTAll(i), "qp")]), LocalFlux(i)]
  }

  function SidesInTurn(n: nat): (k: Kernel) {
    if n == 0 then [] else SidesInTurn(n - 1) + SideInTurn(n - 1)
  }

  lemma CopiedLetters(n: Name, idx: Indices)
    ensures Contracted(Old(n, idx), idx) == ""
  {
    NewLettersAre(LettersOf(Old(n, idx)), Letters(idx));
    LettersOfOne(n, idx);
    FirstLetter(Contracted(Old(n, idx), idx));
  }

  lemma BoundPair(idx: Indices, v: seq<nat>)
    requires |v| == |idx| == 2 && idx[0] != idx[1]
    ensures Values(idx, Bind(idx, v)) == v
  {
    assert Bind(idx, v) == Bind(idx[1..], v[1..])[idx[0] := v[0]];
    assert Bind(idx[1..], v[1..]) == Bind(idx[1..][1..], v[1..][1..])[idx[1] := v[1]];
  }

  lemma CopiedEntry(n: Name, idx: Indices, ext: Assignment, st: State, v: seq<nat>)
    requires |v| == |idx| == 2 && idx[0] != idx[1]
    ensures SumOver(Contracted(Old(n, idx), idx), ext, Bind(idx, v), Old(n, idx), st) == st(n, v)
  {
    CopiedLetters(n, idx);
    BoundPair(idx, v);
    hide Bind, Values;
    assert Old(n, idx)[1..] == [];
    assert Product([], Bind(idx, v), st) == 1.0;
  }

  lemma LettersOfOne(n: Name, idx: Indices)
    ensures LettersOf(Old(n, idx)) == idx
  {
    assert Old(n, idx)[1..] == [];
    assert LettersOf([]) == "";
  }

  ghost predicate SameBut(st1: State, st: State, n1: Name, n2: Name) {
    forall n, v | n != n1 && n != n2 :: st1(n, v) == st(n, v)
  }

  lemma SideInTurnSteps(i: nat, ext: Assignment, st: State)
    ensures Run(SideInTurn(i), ext, st)
         == Step(LocalFlux(i), ext, Step(Statement(AplusT, "qp", [Old(AplusTAll(i), "qp")]), ext, st))
  {
    var s0 := Statement(AplusT, "qp", [Old(AplusTAll(i), "qp")]);
    assert SideInTurn(i)[..1] == [s0] && [s0][..0] == [];
    assert Run([], ext, st) == st;
    assert Run([s0], ext, st) == Step(s0, ext, st);
  }

  lemma SolverIsSet(i: nat, ext: Assignment, st: State)
    ensures var st1 := Step(Statement(AplusT, "qp", [Old(AplusTAll(i), "qp")]), ext, st);
            && (forall n, v | n != AplusT :: st1(n, v) == st(n, v))
            && (forall w: seq<nat> | |w| == 2 :: st1(AplusT, w) == st(AplusTAll(i), w))
  {
    var s0 := Statement(AplusT, "qp", [Old(AplusTAll(i), "qp")]);
    forall w: seq<nat> | |w| == 2
      ensures Eval(s0, w, ext, st) == st(AplusTAll(i), w)
    {
      CopiedEntry(AplusTAll(i), "qp", ext, st, w);
      hide SumOver, Contracted, Bind;
      OneTerm(Old(AplusTAll(i), "qp"), "qp", ext, Bind("qp", w), st);
    }
  }

  lemma SolversAlike(i: nat, st1: State, st: State)
    requires forall n, v | n != AplusT :: st1(n, v) == st(n, v)
    requires forall w: seq<nat> | |w| == 2 :: st1(AplusT, w) == st(AplusTAll(i), w)
    ensures Alike(PlusFlux(i) + Solved(AplusT), st1, PlusFlux(i) + Solved(AplusTAll(i)), st)
  {}

  /** One side changes Q by its flux, and nothing else but the solver. */
  lemma SideInTurnAdds(i: nat, ext: Assignment, st: State, v: seq<nat>)
    requires |v| == 2
    ensures Run(SideInTurn(i), ext, st)(Q, v)
         == st(Q, v) + SumOver(Contracted(PlusFlux(i) + Solved(AplusTAll(i)), "kp"), ext, Bind("kp", v),
                               PlusFlux(i) + Solved(AplusTAll(i)), st)
  {
    hide *;
    var st1 := Step(Statement(AplusT, "qp", [Old(AplusTAll(i), "qp")]), ext, st);
    SideInTurnSteps(i, ext, st);
    SolverIsSet(i, ext, st);
    LocalFluxTarget(i);
    StepEntry(LocalFlux(i), ext, st1, Q, v);
    FluxEntry(PlusFlux(i), AplusT, ext, st1, v);
    CopiedEntry(Q, "kp", ext, st1, v);
    SolversAlike(i, st1, st);
    var t1, t2 := PlusFlux(i) + Solved(AplusT), PlusFlux(i) + Solved(AplusTAll(i));
    AlikeContracted(t1, st1, t2, st, "kp");
    AlikeSums(Contracted(t1, "kp"), ext, Bind("kp", v), t1, st1, t2, st);
  }

  lemma LocalFluxTarget(i: nat)
    ensures LocalFlux(i) == FluxStatement(PlusFlux(i), AplusT) && LocalFlux(i).target == Q && |LocalFlux(i).idx| == 2
  {}

  lemma AlikeContracted(t1: Term, st1: State, t2: Term, st2: State, idx: Indices)
    requires Alike(t1, st1, t2, st2)
    ensures Contracted(t1, idx) == Contracted(t2, idx)
  {
    AlikeLetters(t1, st1, t2, st2);
  }

  lemma SideInTurnKeeps(i: nat, ext: Assignment, st: State)
    ensures SameBut(Run(SideInTurn(i), ext, st), st, Q, AplusT)
  {
    SideInTurnSteps(i, ext, st);
    hide Eval, SumOver, Run;
  }

  lemma {:induction false} SidesKeep(n: nat, ext: Assignment, st: State)
    ensures SameBut(Run(SidesInTurn(n), ext, st), st, Q, AplusT)
  {
    if n > 0 {
      SidesKeep(n - 1, ext, st);
      RunJoin(SidesInTurn(n - 1), SideInTurn(n - 1), ext, st);
      hide Run;
      SideInTurnKeeps(n - 1, ext, Run(SidesInTurn(n - 1), ext, st));
    }
  }

  lemma SideAlike(i: nat, st1: State, st: State)
    requires SameBut(st1, st, Q, AplusT)
    ensures Alike(PlusFlux(i) + Solved(AplusTAll(i)), st1, PlusFlux(i) + Solved(AplusTAll(i)), st)
  {}

  lemma FluxTermsGrow(n: nat, premultiplied: bool, ext: Assignment, a: Assignment, st: State)
    requires n > 0
    ensures EvalTerms(FluxTerms(n, premultiplied), "kp", ext, a, st)
         == EvalTerms(FluxTerms(n - 1, premultiplied), "kp", ext, a, st)
          + SumOver(Contracted(FluxTerm(n - 1, premultiplied), "kp"), ext, a, FluxTerm(n - 1, premultiplied), st)
  {
    hide FluxTerm, SumOver, Contracted;
    assert FluxTerms(n, premultiplied)[..n - 1] == FluxTerms(n - 1, premultiplied);
  }

  lemma NoFluxTerms(premultiplied: bool, ext: Assignment, a: Assignment, st: State)
    ensures EvalTerms(FluxTerms(0, premultiplied), "kp", ext, a, st) == 0.0
  {
    assert FluxTerms(0, premultiplied) == [];
  }

  lemma FluxTermIs(i: nat)
    ensures FluxTerm(i, false) == PlusFlux(i) + Solved(AplusTAll(i))
    ensures FluxTerm(i, true) == Old(PlusFluxMatrices(i), "kl") + Solved(AplusTAll(i))
  {}

  lemma SidesInTurnSplit(n: nat, ext: Assignment, st: State)
    requires n > 0
    ensures Run(SidesInTurn(n), ext, st) == Run(SideInTurn(n - 1), ext, Run(SidesInTurn(n - 1), ext, st))
  {
    RunJoin(SidesInTurn(n - 1), SideInTurn(n - 1), ext, st);
  }

  lemma NoSides(ext: Assignment, st: State)
    ensures Run(SidesInTurn(0), ext, st) == st
  {}

  /** Any number of sides one after the other changes Q by the sum of their fluxes. */
  lemma {:induction false} SidesInTurnAdd(n: nat, ext: Assignment, st: State, v: seq<nat>)
    requires |v| == 2
    ensures Run(SidesInTurn(n), ext, st)(Q, v)
         == st(Q, v) + EvalTerms(FluxTerms(n, false), "kp", ext, Bind("kp", v), st)
  {
    hide *;
    if n == 0 {
      NoSides(ext, st);
      NoFluxTerms(false, ext, Bind("kp", v), st);
    } else {
      var st1 := Run(SidesInTurn(n - 1), ext, st);
      var t := PlusFlux(n - 1) + Solved(AplusTAll(n - 1));
      SidesInTurnAdd(n - 1, ext, st, v);
      SidesInTurnSplit(n, ext, st);
      SideInTurnAdds(n - 1, ext, st1, v);
      SidesKeep(n - 1, ext, st);
      SideAlike(n - 1, st1, st);
      AlikeSums(Contracted(t, "kp"), ext, Bind("kp", v), t, st1, t, st);
      FluxTermIs(n - 1);
      FluxTermsGrow(n, false, ext, Bind("kp", v), st);
    }
  }

  lemma {:induction false} FluxTermsForms(n: nat, ext: Assignment, a: Assignment, st: State)
    requires forall i | 0 <= i < n :: HoldsFlux(PlusFluxMatrices(i), PlusFlux(i), ext, st)
    ensures EvalTerms(FluxTerms(n, true), "kp", ext, a, st) == EvalTerms(FluxTerms(n, false), "kp", ext, a, st)
  {
    hide *;
    if n == 0 {
      NoFluxTerms(true, ext, a, st);
      NoFluxTerms(false, ext, a, st);
    } else {
      FluxTermsForms(n - 1, ext, a, st);
      PlusFluxForm(n - 1);
      PremultipliedTerm(PlusFlux(n - 1), PlusFluxMatrices(n - 1), AplusTAll(n - 1), ext, a, st);
      FluxTermIs(n - 1);
      FluxTermsGrow(n, true, ext, a, st);
      FluxTermsGrow(n, false, ext, a, st);
    }
  }

  lemma GpuLocalFluxAllEntry(premultiplied: bool, ext: Assignment, st: State, v: seq<nat>)
    requires |v| == 2
    ensures Step(GpuLocalFluxAll(premultiplied), ext, st)(Q, v)
         == st(Q, v) + EvalTerms(FluxTerms(4, premultiplied), "kp", ext, Bind("kp", v), st)
  {
    hide SumOver, Contracted, Bind, FluxTerms;
    OneTerm(Old(Q, "kp"), "kp", ext, Bind("kp", v), st);
    CopiedEntry(Q, "kp", ext, st, v);
    TermsJoin([Old(Q, "kp")], FluxTerms(4, premultiplied), "kp", ext, Bind("kp", v), st);
  }

  /** The four sides in turn and the one fused update leave the same Q, with and without
      premultiplied matrices. */
  lemma FusedSides(premultiplied: bool, ext: Assignment, st: State, v: seq<nat>)
    requires |v| == 2
    requires premultiplied ==> forall i | 0 <= i < 4 :: HoldsFlux(PlusFluxMatrices(i), PlusFlux(i), ext, st)
    ensures Run(SidesInTurn(4), ext, st)(Q, v) == Step(GpuLocalFluxAll(premultiplied), ext, st)(Q, v)
  {
    SidesInTurnAdd(4, ext, st, v);
    GpuLocalFluxAllEntry(premultiplied, ext, st, v);
    if premultiplied {
      FluxTermsForms(4, ext, Bind("kp", v), st);
    }
  }
}
