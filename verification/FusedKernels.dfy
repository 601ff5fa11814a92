/** The emitted kernels, for one and for several fused simulations. */
module FusedKernels {
  import opened KernelLanguage
  import opened KernelSlices
  import opened LinearKernels
  import opened TimeKernels

  function VolumeTerm(i: nat): (t: Term) {
    [Factor(KDivM(i), "kl"), Factor(I, "lq"), Factor(Star(i), "qp")]
  }

  function Volume(source: bool): (s: Statement) {
    Statement(Q, "kp", [Old(Q, "kp"), VolumeTerm(0), VolumeTerm(1), VolumeTerm(2)]
                       + (if source then [[Factor(I, "kq"), Factor(Source, "qp")]] else []))
  }

  function LocalFluxNodal(i: nat): (s: Statement) {
    Statement(Q, "kp", [Old(Q, "kp"), [Factor(Project2nFaceTo3m(i), "kn"), Factor(INodal, "no"), Factor(AminusT, "op")]])
  }

  // Statements that update a tensor of one entry per simulation.
  predicate FitsOpt(s: Statement) {
    SIM !in s.idx && HasOptDim(s.target) && forall k | 0 <= k < |s.terms| :: Plain(s.terms[k])
  }

  lemma OptFits(s: Statement)
    requires FitsOpt(s)
    ensures Fits(s)
  {}

  lemma PlainFlux(flux: Term, solver: Name)
    requires Plain(flux)
    ensures Plain(flux + Solved(solver)) && Plain(Old(Q, "kp"))
  {}

  lemma FluxFits(flux: Term, solver: Name)
    requires Plain(flux)
    ensures Fits(FluxStatement(flux, solver))
  {
    PlainFlux(flux, solver);
    hide Plain, Solved, Old;
    OptFits(FluxStatement(flux, solver));
  }

  lemma PlainFluxes(h: nat, j: nat, i: nat)
    ensures Plain(PlusFlux(i)) && Plain(MinusFlux(h, j, i))
    ensures Plain(Old(PlusFluxMatrices(i), "kl")) && Plain(Old(MinusFluxMatrices(h, j, i), "kl"))
  {}

  lemma FluxesFit(h: nat, j: nat, i: nat, premultiplied: bool)
    ensures Fits(LocalFlux(i)) && Fits(GpuLocalFlux(i, premultiplied))
    ensures Fits(NeighboringFlux(h, j, i)) && Fits(GpuNeighboringFlux(h, j, i, premultiplied))
  {
    PlainFluxes(h, j, i);
    hide Plain, Fits, FluxStatement, PlusFlux, MinusFlux, Old;
    FluxFits(PlusFlux(i), AplusT);
    FluxFits(MinusFlux(h, j, i), AminusT);
    FluxFits(Old(PlusFluxMatrices(i), "kl"), AplusT);
    FluxFits(Old(MinusFluxMatrices(h, j, i), "kl"), AminusT);
  }

  lemma FluxTermPlain(i: nat, premultiplied: bool)
    ensures Plain(FluxTerm(i, premultiplied))
  {}

  lemma AllSidesFit(premultiplied: bool)
    ensures Fits(GpuLocalFluxAll(premultiplied))
  {
    forall i: nat
      ensures Plain(FluxTerm(i, premultiplied))
    {
      FluxTermPlain(i, premultiplied);
    }
    PlainFlux([], Q);
    hide Plain, FluxTerm, Old;
    OptFits(GpuLocalFluxAll(premultiplied));
  }

  lemma VolumeFits(source: bool, i: nat)
    ensures Fits(Volume(source)) && Fits(LocalFluxNodal(i))
  {
    assert forall j: nat :: Plain(VolumeTerm(j));
    assert Plain([Factor(I, "kq"), Factor(Source, "qp")]) && Plain(Old(Q, "kp"));
    assert Plain([Factor(Project2nFaceTo3m(i), "kn"), Factor(INodal, "no"), Factor(AminusT, "op")]);
    hide Plain, VolumeTerm, Old;
    OptFits(Volume(source));
    OptFits(LocalFluxNodal(i));
  }

  lemma TimeTermsPlain(prev: Name, source: bool, i: nat)
    ensures forall k | 0 <= k < |DerivativeTerms(prev, source)| :: Plain(DerivativeTerms(prev, source)[k])
    ensures Plain(PowerTerm(i, prev)) && Plain(Old(prev, "kp"))
  {
    assert forall j: nat :: Plain(DimTerm(j, prev));
    assert Plain([Factor(prev, "kq"), Factor(Source, "qp")]);
    assert Plain(PowerTerm(i, prev)) && Plain(Old(prev, "kp"));
    hide Plain, DimTerm, Old, PowerTerm;
  }

  lemma FirstStepsFit(gpu: bool)
    ensures AllFit(FirstSteps(gpu))
  {
    TimeTermsPlain(Level(0, gpu), false, 0);
    TimeTermsPlain(Q, false, 0);
    hide Plain, PowerTerm, Old, Fits;
    OptFits(Statement(I, "kp", [PowerTerm(0, Level(0, gpu))]));
    OptFits(Statement(DQ(0), "kp", [Old(Q, "kp")]));
  }

  lemma DegreeFits(i: nat, source: bool, gpu: bool)
    requires i > 0
    ensures Fits(DerivativeStep(i, source, gpu)) && Fits(TaylorStep(i))
  {
    TimeTermsPlain(Level(i - 1, gpu), source, i);
    TimeTermsPlain(DQ(i), source, i);
    TimeTermsPlain(I, source, i);
    hide Plain, PowerTerm, Old, Fits, DerivativeTerms;
    OptFits(DerivativeStep(i, source, gpu));
    OptFits(TaylorStep(i));
  }

  lemma {:induction false} DerivativeFits(order: nat, source: bool, gpu: bool)
    requires order > 0
    ensures AllFit(Derivative(order, source, gpu))
  {
    hide Fits, FirstSteps, DerivativeStep, TaylorStep;
    if order == 1 {
      FirstStepsFit(gpu);
    } else {
      DerivativeFits(order - 1, source, gpu);
      DegreeFits(order - 1, source, gpu);
    }
  }

  /** Time prediction of fused simulations: every simulation gets its own derivatives and its own sum. */
  lemma FusedDerivative(order: nat, source: bool, gpu: bool, ext: Assignment, st: State, fused: State, x: nat, pos: nat)
    requires order > 0 && IsSlice(st, fused, x, pos)
    ensures IsSlice(Run(Derivative(order, source, gpu), ext, st),
                    Run(FuseKernel(Derivative(order, source, gpu), pos), ext, fused), x, pos)
  {
    DerivativeFits(order, source, gpu);
    hide Derivative, Run, FuseKernel, IsSlice;
    KernelSlice(Derivative(order, source, gpu), ext, st, fused, x, pos);
  }

  lemma TaylorFits(order: nat)
    ensures Fits(Taylor(order))
  {
    forall i: nat
      ensures Plain(PowerTerm(i, DQ(i)))
    {
      TimeTermsPlain(DQ(i), false, i);
    }
    hide Plain, PowerTerm;
    OptFits(Taylor(order));
  }

  /** Taylor expansion of fused simulations: every simulation gets the sum of its own derivatives. */
  lemma FusedTaylor(order: nat, ext: Assignment, st: State, fused: State, x: nat, pos: nat)
    requires IsSlice(st, fused, x, pos)
    ensures IsSlice(Step(Taylor(order), ext, st), Step(FuseStatement(Taylor(order), pos), ext, fused), x, pos)
  {
    hide *;
    TaylorFits(order);
    StepSlice(Taylor(order), ext, st, fused, x, pos);
  }

  // One update of an element: the volume, one side from inside, one side from the neighbor.
  function ElementUpdate(source: bool, h: nat, j: nat, i: nat, premultiplied: bool): (k: Kernel) {
    [Volume(source), LocalFluxNodal(i), GpuLocalFlux(i, premultiplied), GpuNeighboringFlux(h, j, i, premultiplied),
     GpuLocalFluxAll(premultiplied)]
  }

  /** Updates of fused simulations: every simulation sees its own update. */
  lemma FusedUpdate(source: bool, h: nat, j: nat, i: nat, premultiplied: bool, ext: Assignment, st: State, fused: State,
                    x: nat, pos: nat)
    requires IsSlice(st, fused, x, pos)
    ensures IsSlice(Run(ElementUpdate(source, h, j, i, premultiplied), ext, st),
                    Run(FuseKernel(ElementUpdate(source, h, j, i, premultiplied), pos), ext, fused), x, pos)
  {
    hide *;
    ElementUpdateFits(source, h, j, i, premultiplied);
    KernelSlice(ElementUpdate(source, h, j, i, premultiplied), ext, st, fused, x, pos);
  }

  lemma ElementUpdateFits(source: bool, h: nat, j: nat, i: nat, premultiplied: bool)
    ensures AllFit(ElementUpdate(source, h, j, i, premultiplied))
  {
    VolumeFits(source, i);
    FluxesFit(h, j, i, premultiplied);
    AllSidesFit(premultiplied);
    hide Fits, Volume, LocalFluxNodal, GpuLocalFlux, GpuNeighboringFlux, GpuLocalFluxAll;
  }

  // ---- the copy of the first simulation ----

  function FirstSimTerm(pos: nat): (t: Term) {
    [Factor(Q, InsertOptDim("kp", SIM, pos)), Factor(MultSimToFirstSim, [SIM])]
  }

  // copyQToQFortran: the simulations are summed with weights one, zero, zero, ...
  function CopyFirst(pos: nat): (s: Statement) {
    Statement(QFortran, "kp", [FirstSimTerm(pos)])
  }

  ghost predicate SelectsFirst(st: State) {
    forall v: seq<nat> | |v| == 1 :: st(MultSimToFirstSim, v) == if v[0] == 0 then 1.0 else 0.0
  }

  lemma FirstSimLetters(pos: nat)
    ensures SameLetters(Contracted(FirstSimTerm(pos), "kp"), [SIM]) && NoDuplicates(Contracted(FirstSimTerm(pos), "kp"))
  {
    var t := FirstSimTerm(pos);
    NewLettersAre(LettersOf(t), Letters("kp"));
    forall c: char
      ensures c in Contracted(t, "kp") <==> c in [SIM]
    {
      LettersAre(t, c);
      FusedIndexHas(Q, "kp", pos, c);
      SimIsInserted("kp", pos);
      assert t[0] in t && t[1] in t;
    }
  }

  lemma PairProduct(f: Factor, g: Factor, a: Assignment, st: State)
    ensures Product([f, g], a, st) == st(f.name, Values(f.idx, a)) * st(g.name, Values(g.idx, a))
  {
    assert [f, g][1..] == [g] && [g][1..] == [];
    assert Product([g], a, st) == st(g.name, Values(g.idx, a)) * Product([], a, st);
  }

  lemma FirstSimProduct(pos: nat, a: Assignment, x: nat, st: State)
    requires SelectsFirst(st)
    ensures Product(FirstSimTerm(pos), a[SIM := x], st)
         == if x == 0 then st(Q, InsertOptDim(Values("kp", a), 0, pos)) else 0.0
  {
    var t, b := FirstSimTerm(pos), a[SIM := x];
    PairProduct(t[0], t[1], b, st);
    hide Product;
    assert t == [t[0], t[1]];
    InsertedValues("kp", b, pos);
    assert Values("kp", b) == Values("kp", a);
    assert Values([SIM], b) == [x];
    assert st(MultSimToFirstSim, [x]) == if x == 0 then 1.0 else 0.0;
  }

  lemma {:induction false} FirstSimSum(pos: nat, n: nat, ext: Assignment, a: Assignment, st: State)
    requires SelectsFirst(st)
    ensures SumAt([SIM], n, ext, a, FirstSimTerm(pos), st)
         == if n == 0 then 0.0 else st(Q, InsertOptDim(Values("kp", a), 0, pos))
  {
    if n > 0 {
      FirstSimSum(pos, n - 1, ext, a, st);
      FirstSimProduct(pos, a, n - 1, st);
      assert [SIM][..0] == [];
    }
  }

  /** The copy is simulation 0 of Q. */
  lemma CopyIsFirst(pos: nat, ext: Assignment, fused: State, st: State, v: seq<nat>)
    requires SelectsFirst(fused) && Get(ext, SIM) > 0 && IsSlice(st, fused, 0, pos) && |v| == 2
    ensures Step(CopyFirst(pos), ext, fused)(QFortran, v) == st(Q, v)
  {
    var a := Bind("kp", v);
    var t := FirstSimTerm(pos);
    StepDoes(CopyFirst(pos), ext, fused, QFortran, v);
    OneTermSum(t, ext, v, fused);
    FirstSimLetters(pos);
    SumsPermute(Contracted(t, "kp"), [SIM], "", ext, a, t, fused);
    assert Contracted(t, "kp") + "" == Contracted(t, "kp") && [SIM] + "" == [SIM];
    FirstSimSum(pos, Get(ext, SIM), ext, a, fused);
    BoundPair("kp", v);
  }
}
