/** The fused kernels written out, and where a simulation finds its entries: the simulations come first. */
module FusedForms {
  import opened KernelLanguage
  import opened KernelSlices
  import opened LinearKernels
  import opened TimeKernels
  import opened FusedKernels

  // ---- indices ----

  lemma SimulationFirst<T>(s: seq<T>, item: T)
    ensures InsertOptDim(s, item, 0) == [item] + s
  {}

  lemma PairTurned<T>(a: T, b: T)
    ensures Reversed([a, b]) == [b, a]
  {}

  // ---- entries ----

  // Tensors with one entry for each simulation.
  ghost predicate Simulated(n: Name) {
    n == Q || n == I || n == INodal || exists i: nat :: n == DQ(i)
  }

  // Matrices of the database that are stored transposed for fused simulations.
  ghost predicate Transposed(n: Name) {
    exists i: nat :: n == KDivM(i) || n == KDivMT(i) || n == RDivM(i) || n == FMrT(i) || n == FP(i) || n == RT(i)
  }

  lemma KindsAre(n: Name)
    ensures HasOptDim(n) <==> Simulated(n)
    ensures FromDatabase(n) <==> Transposed(n)
  {
    match n
    case DQ(i) => assert n == DQ(i);
    case KDivM(i) => assert n == KDivM(i);
    case KDivMT(i) => assert n == KDivMT(i);
    case RDivM(i) => assert n == RDivM(i);
    case FMrT(i) => assert n == FMrT(i);
    case FP(i) => assert n == FP(i);
    case RT(i) => assert n == RT(i);
    case _ =>
  }

  /** What simulation x sees, entry by entry: its own entries of the simulated tensors, the transposed
      matrices turned back, and everything else as it is. */
  lemma SliceEntries(st: State, fused: State, x: nat, n: Name, i: nat, j: nat)
    requires IsSlice(st, fused, x, 0)
    ensures st(n, [i, j]) == if Simulated(n) then fused(n, [x, i, j])
                             else if Transposed(n) then fused(n, [j, i]) else fused(n, [i, j])
  {
    KindsAre(n);
    hide Simulated, Transposed, InsertOptDim, Reversed;
    SimulationFirst([i, j], x);
    PairTurned(i, j);
    assert [x] + [i, j] == [x, i, j];
    assert st(n, [i, j]) == fused(n, FusedIndex(n, [i, j], x, 0));
  }

  // ---- the emitted statements ----

  lemma FusedFactor(n: Name, a: char, b: char)
    ensures FuseFactor(Factor(n, [a, b]), 0)
         == Factor(n, if HasOptDim(n) then ['s', a, b] else if FromDatabase(n) then [b, a] else [a, b])
  {
    SimulationFirst([a, b], SIM);
    PairTurned(a, b);
    assert [SIM] + [a, b] == ['s', a, b];
    hide InsertOptDim, Reversed;
  }

  lemma FusedPair(f: Factor, g: Factor)
    ensures FuseTerm([f, g], 0) == [FuseFactor(f, 0), FuseFactor(g, 0)]
  {
    hide FuseFactor;
  }

  lemma FusedTriple(f: Factor, g: Factor, h: Factor)
    ensures FuseTerm([f, g, h], 0) == [FuseFactor(f, 0), FuseFactor(g, 0), FuseFactor(h, 0)]
  {
    hide FuseFactor;
  }

  lemma FusedFour(f: Factor, g: Factor, h: Factor, i: Factor)
    ensures FuseTerm([f, g, h, i], 0) == [FuseFactor(f, 0), FuseFactor(g, 0), FuseFactor(h, 0), FuseFactor(i, 0)]
  {
    hide FuseFactor;
  }

  lemma FusedFive(f: Factor, g: Factor, h: Factor, i: Factor, j: Factor)
    ensures FuseTerm([f, g, h, i, j], 0)
         == [FuseFactor(f, 0), FuseFactor(g, 0), FuseFactor(h, 0), FuseFactor(i, 0), FuseFactor(j, 0)]
  {
    hide FuseFactor;
  }

  lemma LocalFluxTerms(i: nat)
    ensures LocalFlux(i).target == Q && LocalFlux(i).idx == "kp"
    ensures LocalFlux(i).terms
         == [Old(Q, "kp"), [Factor(RDivM(i), "km"), Factor(FMrT(i), "ml"), Factor(I, "lq"), Factor(AplusT, "qp")]]
  {
    assert PlusFlux(i) + Solved(AplusT)
        == [Factor(RDivM(i), "km"), Factor(FMrT(i), "ml"), Factor(I, "lq"), Factor(AplusT, "qp")];
  }

  lemma NeighboringFluxTerms(h: nat, j: nat, i: nat)
    ensures NeighboringFlux(h, j, i).target == Q && NeighboringFlux(h, j, i).idx == "kp"
    ensures NeighboringFlux(h, j, i).terms
         == [Old(Q, "kp"), [Factor(RDivM(i), "km"), Factor(FP(h), "mn"), Factor(RT(j), "nl"), Factor(I, "lq"),
                            Factor(AminusT, "qp")]]
  {
    assert MinusFlux(h, j, i) + Solved(AminusT)
        == [Factor(RDivM(i), "km"), Factor(FP(h), "mn"), Factor(RT(j), "nl"), Factor(I, "lq"), Factor(AminusT, "qp")];
  }

  lemma FusedOld(n: Name)
    requires HasOptDim(n)
    ensures FuseTerm(Old(n, "kp"), 0) == [Factor(n, "skp")] && FusedIndex(n, "kp", SIM, 0) == "skp"
  {
    SimulationFirst("kp", SIM);
    assert [SIM] + "kp" == "skp";
    hide InsertOptDim;
  }

  lemma FusedTerms(ts: seq<Term>, us: seq<Term>)
    requires |ts| == |us| && forall k | 0 <= k < |ts| :: FuseTerm(ts[k], 0) == us[k]
    ensures FuseTerms(ts, 0) == us
  {}

  /** The fused flux through one side. */
  lemma FusedLocalFlux(i: nat)
    ensures FuseStatement(LocalFlux(i), 0)
         == Statement(Q, "skp", [[Factor(Q, "skp")],
                                 [Factor(RDivM(i), "mk"), Factor(FMrT(i), "lm"), Factor(I, "slq"), Factor(AplusT, "qp")]])
  {
    hide FuseFactor, FusedIndex, FuseTerm, Old, LocalFlux;
    FusedOld(Q);
    FusedFactor(RDivM(i), 'k', 'm');
    FusedFactor(FMrT(i), 'm', 'l');
    FusedFactor(I, 'l', 'q');
    FusedFactor(AplusT, 'q', 'p');
    FusedFour(Factor(RDivM(i), "km"), Factor(FMrT(i), "ml"), Factor(I, "lq"), Factor(AplusT, "qp"));
    LocalFluxTerms(i);
    FusedTerms(LocalFlux(i).terms,
               [[Factor(Q, "skp")], [Factor(RDivM(i), "mk"), Factor(FMrT(i), "lm"), Factor(I, "slq"), Factor(AplusT, "qp")]]);
  }

  /** The fused flux from a neighbor. */
  lemma FusedNeighboringFlux(h: nat, j: nat, i: nat)
    ensures FuseStatement(NeighboringFlux(h, j, i), 0)
         == Statement(Q, "skp", [[Factor(Q, "skp")],
                                 [Factor(RDivM(i), "mk"), Factor(FP(h), "nm"), Factor(RT(j), "ln"), Factor(I, "slq"),
                                  Factor(AminusT, "qp")]])
  {
    hide FuseFactor, FusedIndex, FuseTerm, Old, NeighboringFlux;
    FusedOld(Q);
    FusedFactor(RDivM(i), 'k', 'm');
    FusedFactor(FP(h), 'm', 'n');
    FusedFactor(RT(j), 'n', 'l');
    FusedFactor(I, 'l', 'q');
    FusedFactor(AminusT, 'q', 'p');
    FusedFive(Factor(RDivM(i), "km"), Factor(FP(h), "mn"), Factor(RT(j), "nl"), Factor(I, "lq"), Factor(AminusT, "qp"));
    NeighboringFluxTerms(h, j, i);
    FusedTerms(NeighboringFlux(h, j, i).terms,
               [[Factor(Q, "skp")],
                [Factor(RDivM(i), "mk"), Factor(FP(h), "nm"), Factor(RT(j), "ln"), Factor(I, "slq"), Factor(AminusT, "qp")]]);
  }

  /** The fused flux through the nodes of a face; its projection is not stored transposed. */
  lemma FusedNodalFlux(i: nat)
    ensures FuseStatement(LocalFluxNodal(i), 0)
         == Statement(Q, "skp", [[Factor(Q, "skp")],
                                 [Factor(Project2nFaceTo3m(i), "kn"), Factor(INodal, "sno"), Factor(AminusT, "op")]])
  {
    hide FuseFactor, FusedIndex, FuseTerm, Old;
    FusedOld(Q);
    FusedFactor(Project2nFaceTo3m(i), 'k', 'n');
    FusedFactor(INodal, 'n', 'o');
    FusedFactor(AminusT, 'o', 'p');
    FusedTriple(Factor(Project2nFaceTo3m(i), "kn"), Factor(INodal, "no"), Factor(AminusT, "op"));
    FusedTerms(LocalFluxNodal(i).terms,
               [[Factor(Q, "skp")], [Factor(Project2nFaceTo3m(i), "kn"), Factor(INodal, "sno"), Factor(AminusT, "op")]]);
  }

  lemma FusedDimension(k: Name, v: Name, j: nat)
    requires FromDatabase(k) && HasOptDim(v)
    ensures FuseTerm([Factor(k, "kl"), Factor(v, "lq"), Factor(Star(j), "qp")], 0)
         == [Factor(k, "lk"), Factor(v, "slq"), Factor(Star(j), "qp")]
  {
    FusedFactor(k, 'k', 'l');
    FusedFactor(v, 'l', 'q');
    FusedFactor(Star(j), 'q', 'p');
    FusedTriple(Factor(k, "kl"), Factor(v, "lq"), Factor(Star(j), "qp"));
    hide FuseFactor, FuseTerm;
  }

  lemma FusedSource(v: Name)
    requires HasOptDim(v)
    ensures FuseTerm([Factor(v, "kq"), Factor(Source, "qp")], 0) == [Factor(v, "skq"), Factor(Source, "qp")]
  {
    FusedFactor(v, 'k', 'q');
    FusedFactor(Source, 'q', 'p');
    FusedPair(Factor(v, "kq"), Factor(Source, "qp"));
    hide FuseFactor, FuseTerm;
  }

  /** The fused volume kernel. */
  lemma FusedVolume(source: bool)
    ensures FuseStatement(Volume(source), 0)
         == Statement(Q, "skp", [[Factor(Q, "skp")],
                                 [Factor(KDivM(0), "lk"), Factor(I, "slq"), Factor(Star(0), "qp")],
                                 [Factor(KDivM(1), "lk"), Factor(I, "slq"), Factor(Star(1), "qp")],
                                 [Factor(KDivM(2), "lk"), Factor(I, "slq"), Factor(Star(2), "qp")]]
                                + if source then [[Factor(I, "skq"), Factor(Source, "qp")]] else [])
  {
    FusedOld(Q);
    FusedDimension(KDivM(0), I, 0);
    FusedDimension(KDivM(1), I, 1);
    FusedDimension(KDivM(2), I, 2);
    FusedSource(I);
    hide FuseTerm, FusedIndex;
    FusedTerms(Volume(source).terms,
               [[Factor(Q, "skp")],
                [Factor(KDivM(0), "lk"), Factor(I, "slq"), Factor(Star(0), "qp")],
                [Factor(KDivM(1), "lk"), Factor(I, "slq"), Factor(Star(1), "qp")],
                [Factor(KDivM(2), "lk"), Factor(I, "slq"), Factor(Star(2), "qp")]]
               + if source then [[Factor(I, "skq"), Factor(Source, "qp")]] else []);
  }

  /** The fused step from one derivative to the next. */
  lemma FusedDerivativeStep(i: nat, source: bool, gpu: bool)
    requires i > 0
    ensures var prev := if i == 1 && gpu then Q else DQ(i - 1);
            (FuseStatement(DerivativeStep(i, source, gpu), 0)
          == Statement(DQ(i), "skp", (if source then [[Factor(prev, "skq"), Factor(Source, "qp")]] else [])
                                    + [[Factor(KDivMT(0), "lk"), Factor(prev, "slq"), Factor(Star(0), "qp")],
                                       [Factor(KDivMT(1), "lk"), Factor(prev, "slq"), Factor(Star(1), "qp")],
                                       [Factor(KDivMT(2), "lk"), Factor(prev, "slq"), Factor(Star(2), "qp")]]))
  {
    var prev := if i == 1 && gpu then Q else DQ(i - 1);
    FusedOld(DQ(i));
    FusedDimension(KDivMT(0), prev, 0);
    FusedDimension(KDivMT(1), prev, 1);
    FusedDimension(KDivMT(2), prev, 2);
    FusedSource(prev);
    hide FuseTerm, FusedIndex;
    FusedTerms(DerivativeTerms(prev, source),
               (if source then [[Factor(prev, "skq"), Factor(Source, "qp")]] else [])
               + [[Factor(KDivMT(0), "lk"), Factor(prev, "slq"), Factor(Star(0), "qp")],
                  [Factor(KDivMT(1), "lk"), Factor(prev, "slq"), Factor(Star(1), "qp")],
                  [Factor(KDivMT(2), "lk"), Factor(prev, "slq"), Factor(Star(2), "qp")]]);
  }

  /** The fused step of the expansion. */
  lemma FusedTaylorStep(i: nat)
    ensures FuseStatement(TaylorStep(i), 0)
         == Statement(I, "skp", [[Factor(I, "skp")], [Factor(Power(i), ""), Factor(DQ(i), "skp")]])
  {
    FusedOld(I);
    FusedFactor(DQ(i), 'k', 'p');
    FusedPair(Factor(Power(i), ""), Factor(DQ(i), "kp"));
    assert FuseFactor(Factor(Power(i), ""), 0) == Factor(Power(i), "");
    hide FuseTerm, FusedIndex, FuseFactor;
    FusedTerms(TaylorStep(i).terms, [[Factor(I, "skp")], [Factor(Power(i), ""), Factor(DQ(i), "skp")]]);
  }
}
