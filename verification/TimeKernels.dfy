/** The time prediction: derivatives by the Cauchy-Kovalevski procedure, and their Taylor sum. */
module TimeKernels {
  import opened KernelLanguage
  import opened KernelSlices
  import opened LinearKernels

  // The tensor the derivative of degree i is computed into, or read from: there is no copy of Q at first.
  function Level(i: nat, gpu: bool): (n: Name) {
    if i == 0 && gpu then Q else DQ(i)
  }

  function DimTerm(j: nat, prev: Name): (t: Term) {
    [Factor(KDivMT(j), "kl"), Factor(prev, "lq"), Factor(Star(j), "qp")]
  }

  function DerivativeTerms(prev: Name, source: bool): (ts: seq<Term>) {
    (if source then [[Factor(prev, "kq"), Factor(Source, "qp")]] else [])
    + [DimTerm(0, prev), DimTerm(1, prev), DimTerm(2, prev)]
  }

  function PowerTerm(i: nat, n: Name): (t: Term) {
    [Factor(Power(i), ""), Factor(n, "kp")]
  }

  // dQ(i)["kp"] <= derivativeSum
  function DerivativeStep(i: nat, source: bool, gpu: bool): (s: Statement)
    requires i > 0
  {
    Statement(DQ(i), "kp", DerivativeTerms(Level(i - 1, gpu), source))
  }

  // I["kp"] <= I["kp"] + power * dQ(i)["kp"]
  function TaylorStep(i: nat): (s: Statement) {
    Statement(I, "kp", [Old(I, "kp"), PowerTerm(i, DQ(i))])
  }

  function FirstSteps(gpu: bool): (k: Kernel) {
    [Statement(I, "kp", [PowerTerm(0, Level(0, gpu))])]
    + (if gpu then [Statement(DQ(0), "kp", [Old(Q, "kp")])] else [])
  }

  function Derivative(order: nat, source: bool, gpu: bool): (k: Kernel)
    requires order > 0
  {
    if order == 1 then FirstSteps(gpu)
    else Derivative(order - 1, source, gpu) + [DerivativeStep(order - 1, source, gpu), TaylorStep(order - 1)]
  }

  function TaylorTerms(n: nat): (ts: seq<Term>)
    ensures |ts| == n && forall i | 0 <= i < n :: ts[i] == PowerTerm(i, DQ(i))
  {
    seq(n, i requires 0 <= i < n => PowerTerm(i, DQ(i)))
  }

  function Levels(n: nat): (ns: seq<Name>)
    ensures |ns| == n && forall i | 0 <= i < n :: ns[i] == DQ(i)
  {
    seq(n, i requires 0 <= i < n => DQ(i))
  }

  // derivativeTaylorExpansion
  function Taylor(order: nat): (s: Statement) {
    Statement(I, "kp", TaylorTerms(order))
  }

  // The loop over the dimensions.
  method DerivativeSum(last: Name, source: bool) returns (sum: seq<Term>)
    ensures sum == DerivativeTerms(last, source)
  {
    sum := [];
    if source {
      sum := sum + [[Factor(last, "kq"), Factor(Source, "qp")]];
    }
    for j := 0 to 3
      invariant sum == DerivativeTerms(last, source)[..(if source then 1 else 0) + j]
    {
      sum := sum + [[Factor(KDivMT(j), "kl"), Factor(last, "lq"), Factor(Star(j), "qp")]];
    }
  }

  lemma KernelsGrow(i: nat, source: bool, gpu: bool)
    requires i > 0
    ensures Derivative(i + 1, source, gpu) ==
              Derivative(i, source, gpu) +
              [Statement(DQ(i), "kp", DerivativeTerms(Level(i - 1, gpu), source)),
               Statement(I, "kp", [[Factor(I, "kp")], [Factor(Power(i), ""), Factor(DQ(i), "kp")]])]
    ensures TaylorTerms(i + 1) == TaylorTerms(i) + [[Factor(Power(i), ""), Factor(DQ(i), "kp")]]
    ensures Levels(i + 1) == Levels(i) + [DQ(i)] && Level(i, gpu) == DQ(i)
  {
    hide DerivativeTerms;
  }

  lemma KernelsStart(source: bool, gpu: bool)
    ensures Derivative(1, source, gpu) ==
              [Statement(I, "kp", [[Factor(Power(0), ""), Factor(Level(0, gpu), "kp")]])]
              + (if gpu then [Statement(DQ(0), "kp", [[Factor(Q, "kp")]])] else [])
    ensures TaylorTerms(1) == [[Factor(Power(0), ""), Factor(DQ(0), "kp")]] && Levels(1) == [DQ(0)]
    ensures Level(0, gpu) == if gpu then Q else DQ(0)
  {}

  /** addTime: the two kernels and the tensors of the derivatives. */
  method AddTime(order: nat, source: bool, gpu: bool) returns (derivative: Kernel, taylor: Statement, dQs: seq<Name>)
    requires order > 0
    ensures derivative == Derivative(order, source, gpu) && taylor == Taylor(order) && dQs == Levels(order)
  {
    hide Derivative, TaylorTerms, Levels, Level, DerivativeTerms;
    KernelsStart(source, gpu);
    var dQ0True := if gpu then Q else DQ(0);
    var derivatives := [dQ0True];
    derivative := [Statement(I, "kp", [[Factor(Power(0), ""), Factor(dQ0True, "kp")]])];
    var expansion: seq<Term> := [[Factor(Power(0), ""), Factor(DQ(0), "kp")]];
    if gpu {
      derivative := derivative + [Statement(DQ(0), "kp", [[Factor(Q, "kp")]])];
    }
    dQs := [DQ(0)];
    for i := 1 to order
      invariant derivatives != [] && derivatives[|derivatives| - 1] == Level(i - 1, gpu)
      invariant derivative == Derivative(i, source, gpu) && expansion == TaylorTerms(i) && dQs == Levels(i)
    {
      KernelsGrow(i, source, gpu);
      var derivativeSum := DerivativeSum(derivatives[|derivatives| - 1], source);
      dQs := dQs + [DQ(i)];
      derivative := derivative + [Statement(DQ(i), "kp", derivativeSum),
                                  Statement(I, "kp", [[Factor(I, "kp")], [Factor(Power(i), ""), Factor(DQ(i), "kp")]])];
      expansion := expansion + [[Factor(Power(i), ""), Factor(DQ(i), "kp")]];
      derivatives := derivatives + [DQ(i)];
    }
    taylor := Statement(I, "kp", expansion);
  }

  // ---- what the steps do ----

  function TermSum(t: Term, ext: Assignment, v: seq<nat>, st: State): (r: real)
    requires |v| == 2
  {
    SumOver(Contracted(t, "kp"), ext, Bind("kp", v), t, st)
  }

  function TermsSum(ts: seq<Term>, ext: Assignment, v: seq<nat>, st: State): (r: real)
    requires |v| == 2
  {
    EvalTerms(ts, "kp", ext, Bind("kp", v), st)
  }

  lemma RunTwo(k: Kernel, s1: Statement, s2: Statement, ext: Assignment, st: State)
    ensures Run(k + [s1, s2], ext, st) == Step(s2, ext, Step(s1, ext, Run(k, ext, st)))
  {
    assert (k + [s1, s2])[..|k| + 1] == k + [s1] && (k + [s1])[..|k|] == k;
  }

  lemma RunGrows(order: nat, source: bool, gpu: bool, ext: Assignment, st: State)
    requires order > 1
    ensures Run(Derivative(order, source, gpu), ext, st)
         == Step(TaylorStep(order - 1), ext,
                 Step(DerivativeStep(order - 1, source, gpu), ext, Run(Derivative(order - 1, source, gpu), ext, st)))
  {
    hide Step;
    RunTwo(Derivative(order - 1, source, gpu), DerivativeStep(order - 1, source, gpu), TaylorStep(order - 1), ext, st);
  }

  lemma StepDoes(s: Statement, ext: Assignment, st: State, n: Name, v: seq<nat>)
    requires s.idx == "kp"
    ensures Step(s, ext, st)(n, v) == if n == s.target && |v| == 2 then TermsSum(s.terms, ext, v, st) else st(n, v)
  {
    if |v| == 2 {
      assert s.idx == "kp";
      assert Eval(s, v, ext, st) == EvalTerms(s.terms, "kp", ext, Bind("kp", v), st);
    }
  }

  lemma OneTermSum(t: Term, ext: Assignment, v: seq<nat>, st: State)
    requires |v| == 2
    ensures TermsSum([t], ext, v, st) == TermSum(t, ext, v, st)
  {
    OneTerm(t, "kp", ext, Bind("kp", v), st);
  }

  lemma CopiedSum(n: Name, ext: Assignment, v: seq<nat>, st: State)
    requires |v| == 2
    ensures TermSum(Old(n, "kp"), ext, v, st) == st(n, v)
  {
    CopiedEntry(n, "kp", ext, st, v);
  }

  lemma SumsJoin(t1: seq<Term>, t2: seq<Term>, ext: Assignment, v: seq<nat>, st: State)
    requires |v| == 2
    ensures TermsSum(t1 + t2, ext, v, st) == TermsSum(t1, ext, v, st) + TermsSum(t2, ext, v, st)
  {
    TermsJoin(t1, t2, "kp", ext, Bind("kp", v), st);
  }

  lemma DerivativeStepDoes(i: nat, source: bool, gpu: bool, ext: Assignment, st: State, n: Name, v: seq<nat>)
    requires i > 0
    ensures Step(DerivativeStep(i, source, gpu), ext, st)(n, v)
         == if n == DQ(i) && |v| == 2 then TermsSum(DerivativeTerms(Level(i - 1, gpu), source), ext, v, st) else st(n, v)
  {
    StepDoes(DerivativeStep(i, source, gpu), ext, st, n, v);
    hide DerivativeTerms, Step;
  }

  lemma TaylorStepDoes(i: nat, ext: Assignment, st: State, n: Name, v: seq<nat>)
    ensures Step(TaylorStep(i), ext, st)(n, v)
         == if n == I && |v| == 2 then st(I, v) + TermSum(PowerTerm(i, DQ(i)), ext, v, st) else st(n, v)
  {
    StepDoes(TaylorStep(i), ext, st, n, v);
    hide TermSum, TermsSum, PowerTerm, Old, Step;
    if n == I && |v| == 2 {
      var t := PowerTerm(i, DQ(i));
      OneTermSum(Old(I, "kp"), ext, v, st);
      OneTermSum(t, ext, v, st);
      SumsJoin([Old(I, "kp")], [t], ext, v, st);
      assert [Old(I, "kp")] + [t] == TaylorStep(i).terms;
      CopiedSum(I, ext, v, st);
    }
  }

  lemma RunOne(s: Statement, ext: Assignment, st: State)
    ensures Run([s], ext, st) == Step(s, ext, st)
  {
    assert [s][..0] == [];
  }

  lemma FirstStepsDo(gpu: bool, ext: Assignment, st: State, n: Name, v: seq<nat>)
    ensures Run(FirstSteps(gpu), ext, st)(n, v)
         == if n == I && |v| == 2 then TermSum(PowerTerm(0, Level(0, gpu)), ext, v, st)
            else if n == DQ(0) && |v| == 2 && gpu then st(Q, v)
            else st(n, v)
  {
    var t := PowerTerm(0, Level(0, gpu));
    var s1, s2 := Statement(I, "kp", [t]), Statement(DQ(0), "kp", [Old(Q, "kp")]);
    assert FirstSteps(gpu) == if gpu then [] + [s1, s2] else [s1];
    assert Run([], ext, st) == st;
    hide TermSum, TermsSum, PowerTerm, Old, Step, Run;
    RunTwo([], s1, s2, ext, st);
    RunOne(s1, ext, st);
    StepDoes(s1, ext, st, n, v);
    StepDoes(s1, ext, st, Q, v);
    StepDoes(s2, ext, Step(s1, ext, st), n, v);
    if |v| == 2 {
      OneTermSum(t, ext, v, st);
      OneTermSum(Old(Q, "kp"), ext, v, Step(s1, ext, st));
      CopiedSum(Q, ext, v, Step(s1, ext, st));
    }
  }

  lemma AlikeTermSums(t1: Term, st1: State, t2: Term, st2: State, ext: Assignment, v: seq<nat>)
    requires Alike(t1, st1, t2, st2) && |v| == 2
    ensures TermSum(t1, ext, v, st1) == TermSum(t2, ext, v, st2)
  {
    AlikeContracted(t1, st1, t2, st2, "kp");
    AlikeSums(Contracted(t1, "kp"), ext, Bind("kp", v), t1, st1, t2, st2);
  }

  lemma AlikeTermsSums(ts1: seq<Term>, st1: State, ts2: seq<Term>, st2: State, ext: Assignment, v: seq<nat>)
    requires AllAlike(ts1, st1, ts2, st2) && |v| == 2
    ensures TermsSum(ts1, ext, v, st1) == TermsSum(ts2, ext, v, st2)
  {
    AlikeTerms(ts1, st1, ts2, st2, "kp", ext, Bind("kp", v));
  }

  // ---- what is kept from one degree to the next ----

  // st1 differs from st in I and in the derivative of degree i only.
  ghost predicate OnlyLevel(st1: State, st: State, i: nat) {
    forall n, v | n != I && n != DQ(i) :: st1(n, v) == st(n, v)
  }

  // All tensors but I and the derivatives have the same entries.
  ghost predicate SameInput(st1: State, st: State) {
    forall n, v | n != I && !n.DQ? :: st1(n, v) == st(n, v)
  }

  // Two tensors have the same entries.
  ghost predicate SamePair(prev1: Name, st1: State, prev2: Name, st2: State) {
    forall v: seq<nat> | |v| == 2 :: st1(prev1, v) == st2(prev2, v)
  }

  lemma DegreeKeeps(order: nat, source: bool, gpu: bool, ext: Assignment, st: State)
    requires order > 1
    ensures OnlyLevel(Run(Derivative(order, source, gpu), ext, st), Run(Derivative(order - 1, source, gpu), ext, st), order - 1)
  {
    var k, k0 := Derivative(order, source, gpu), Derivative(order - 1, source, gpu);
    var st0 := Run(k0, ext, st);
    var st1 := Step(DerivativeStep(order - 1, source, gpu), ext, st0);
    RunGrows(order, source, gpu, ext, st);
    hide Run, Derivative, Step, TermSum, TermsSum;
    forall n: Name, v: seq<nat> | n != I && n != DQ(order - 1)
      ensures Step(TaylorStep(order - 1), ext, st1)(n, v) == st0(n, v)
    {
      DerivativeStepDoes(order - 1, source, gpu, ext, st0, n, v);
      TaylorStepDoes(order - 1, ext, st1, n, v);
    }
  }

  lemma StartKeeps(source: bool, gpu: bool, ext: Assignment, st: State)
    ensures SameInput(Run(Derivative(1, source, gpu), ext, st), st)
    ensures SamePair(DQ(0), Run(Derivative(1, source, gpu), ext, st), Level(0, gpu), st)
  {
    assert Derivative(1, source, gpu) == FirstSteps(gpu);
    hide Run, FirstSteps, Derivative, TermSum;
    forall n: Name, v: seq<nat>
      ensures n != I && !n.DQ? ==> Run(FirstSteps(gpu), ext, st)(n, v) == st(n, v)
      ensures n == DQ(0) && |v| == 2 ==> Run(FirstSteps(gpu), ext, st)(n, v) == st(Level(0, gpu), v)
    {
      FirstStepsDo(gpu, ext, st, n, v);
    }
  }

  /** The input is not changed, and degree 0 is the input. */
  lemma {:induction false} InputKept(order: nat, source: bool, gpu: bool, ext: Assignment, st: State)
    requires order > 0
    ensures SameInput(Run(Derivative(order, source, gpu), ext, st), st)
    ensures SamePair(DQ(0), Run(Derivative(order, source, gpu), ext, st), Level(0, gpu), st)
  {
    hide Run, Derivative;
    if order == 1 {
      StartKeeps(source, gpu, ext, st);
    } else {
      InputKept(order - 1, source, gpu, ext, st);
      DegreeKeeps(order, source, gpu, ext, st);
    }
  }

  lemma DimAlike(j: nat, prev1: Name, st1: State, prev2: Name, st2: State)
    requires SameInput(st1, st2) && SamePair(prev1, st1, prev2, st2)
    ensures Alike(DimTerm(j, prev1), st1, DimTerm(j, prev2), st2)
  {}

  lemma SourceAlike(prev1: Name, st1: State, prev2: Name, st2: State)
    requires SameInput(st1, st2) && SamePair(prev1, st1, prev2, st2)
    ensures Alike([Factor(prev1, "kq"), Factor(Source, "qp")], st1, [Factor(prev2, "kq"), Factor(Source, "qp")], st2)
  {}

  lemma DerivativesAlike(prev1: Name, st1: State, prev2: Name, st2: State, source: bool)
    requires SameInput(st1, st2) && SamePair(prev1, st1, prev2, st2)
    ensures AllAlike(DerivativeTerms(prev1, source), st1, DerivativeTerms(prev2, source), st2)
  {
    DimAlike(0, prev1, st1, prev2, st2);
    DimAlike(1, prev1, st1, prev2, st2);
    DimAlike(2, prev1, st1, prev2, st2);
    SourceAlike(prev1, st1, prev2, st2);
    hide Alike, DimTerm;
  }

  lemma LastDegree(order: nat, source: bool, gpu: bool, ext: Assignment, st: State, v: seq<nat>)
    requires order > 1 && |v| == 2
    ensures Run(Derivative(order, source, gpu), ext, st)(DQ(order - 1), v)
         == TermsSum(DerivativeTerms(Level(order - 2, gpu), source), ext, v, Run(Derivative(order - 1, source, gpu), ext, st))
  {
    var st0 := Run(Derivative(order - 1, source, gpu), ext, st);
    RunGrows(order, source, gpu, ext, st);
    DerivativeStepDoes(order - 1, source, gpu, ext, st0, DQ(order - 1), v);
    TaylorStepDoes(order - 1, ext, Step(DerivativeStep(order - 1, source, gpu), ext, st0), DQ(order - 1), v);
  }

  lemma TransitiveInput(st1: State, st2: State, st: State)
    requires SameInput(st1, st) && SameInput(st2, st)
    ensures SameInput(st1, st2)
  {}

  /** Every stored derivative comes from the stored derivative one degree below. */
  lemma {:induction false} DerivativesChain(order: nat, source: bool, gpu: bool, ext: Assignment, st: State, i: nat,
                                            v: seq<nat>)
    requires 0 < i < order && |v| == 2
    ensures Run(Derivative(order, source, gpu), ext, st)(DQ(i), v)
         == TermsSum(DerivativeTerms(DQ(i - 1), source), ext, v, Run(Derivative(order, source, gpu), ext, st))
  {
    hide Run, Derivative, DerivativeTerms, TermsSum, AllAlike;
    var st0, st1 := Run(Derivative(order - 1, source, gpu), ext, st), Run(Derivative(order, source, gpu), ext, st);
    DegreeKeeps(order, source, gpu, ext, st);
    InputKept(order - 1, source, gpu, ext, st);
    InputKept(order, source, gpu, ext, st);
    TransitiveInput(st0, st1, st);
    if i == order - 1 {
      LastDegree(order, source, gpu, ext, st, v);
      DerivativesAlike(Level(i - 1, gpu), st0, DQ(i - 1), st1, source);
      AlikeTermsSums(DerivativeTerms(Level(i - 1, gpu), source), st0, DerivativeTerms(DQ(i - 1), source), st1, ext, v);
    } else {
      DerivativesChain(order - 1, source, gpu, ext, st, i, v);
      DerivativesAlike(DQ(i - 1), st0, DQ(i - 1), st1, source);
      AlikeTermsSums(DerivativeTerms(DQ(i - 1), source), st0, DerivativeTerms(DQ(i - 1), source), st1, ext, v);
    }
  }

  // ---- the interleaved sum is the Taylor sum ----

  lemma TaylorOfOne()
    ensures TaylorTerms(1) == [PowerTerm(0, DQ(0))]
  {}

  lemma FirstPowerAlike(gpu: bool, st: State, st1: State)
    requires SameInput(st1, st) && SamePair(DQ(0), st1, Level(0, gpu), st)
    ensures Alike(PowerTerm(0, Level(0, gpu)), st, PowerTerm(0, DQ(0)), st1)
  {}

  lemma TaylorStarts(source: bool, gpu: bool, ext: Assignment, st: State, v: seq<nat>)
    requires |v| == 2
    ensures Run(Derivative(1, source, gpu), ext, st)(I, v)
         == TermsSum(TaylorTerms(1), ext, v, Run(Derivative(1, source, gpu), ext, st))
  {
    var st1 := Run(Derivative(1, source, gpu), ext, st);
    assert Derivative(1, source, gpu) == FirstSteps(gpu);
    StartKeeps(source, gpu, ext, st);
    FirstStepsDo(gpu, ext, st, I, v);
    hide *;
    TaylorOfOne();
    OneTermSum(PowerTerm(0, DQ(0)), ext, v, st1);
    FirstPowerAlike(gpu, st, st1);
    AlikeTermSums(PowerTerm(0, Level(0, gpu)), st, PowerTerm(0, DQ(0)), st1, ext, v);
  }

  lemma TaylorGrows(n: nat, ext: Assignment, v: seq<nat>, st: State)
    requires |v| == 2
    ensures TermsSum(TaylorTerms(n + 1), ext, v, st)
          == TermsSum(TaylorTerms(n), ext, v, st) + TermSum(PowerTerm(n, DQ(n)), ext, v, st)
  {
    hide TermSum, TermsSum, PowerTerm;
    assert TaylorTerms(n + 1) == TaylorTerms(n) + [PowerTerm(n, DQ(n))];
    SumsJoin(TaylorTerms(n), [PowerTerm(n, DQ(n))], ext, v, st);
    OneTermSum(PowerTerm(n, DQ(n)), ext, v, st);
  }

  lemma TaylorAlike(n: nat, st1: State, st: State)
    requires OnlyLevel(st1, st, n)
    ensures AllAlike(TaylorTerms(n), st1, TaylorTerms(n), st)
  {}

  lemma PowerStays(i: nat, ext: Assignment, st: State, v: seq<nat>)
    requires |v| == 2
    ensures TermSum(PowerTerm(i, DQ(i)), ext, v, Step(TaylorStep(i), ext, st)) == TermSum(PowerTerm(i, DQ(i)), ext, v, st)
  {
    hide Step, TermSum, TermsSum, TaylorStep;
    var st1 := Step(TaylorStep(i), ext, st);
    forall n: Name, w: seq<nat> | n != I
      ensures st1(n, w) == st(n, w)
    {
      TaylorStepDoes(i, ext, st, n, w);
    }
    AlikeTermSums(PowerTerm(i, DQ(i)), st, PowerTerm(i, DQ(i)), st1, ext, v);
  }

  lemma LastPower(order: nat, source: bool, gpu: bool, ext: Assignment, st: State, v: seq<nat>)
    requires order > 1 && |v| == 2
    ensures Run(Derivative(order, source, gpu), ext, st)(I, v)
         == Run(Derivative(order - 1, source, gpu), ext, st)(I, v)
          + TermSum(PowerTerm(order - 1, DQ(order - 1)), ext, v, Run(Derivative(order, source, gpu), ext, st))
  {
    hide *;
    var n := order - 1;
    var st0 := Run(Derivative(n, source, gpu), ext, st);
    var st1 := Step(DerivativeStep(n, source, gpu), ext, st0);
    RunGrows(order, source, gpu, ext, st);
    DerivativeStepDoes(n, source, gpu, ext, st0, I, v);
    TaylorStepDoes(n, ext, st1, I, v);
    PowerStays(n, ext, st1, v);
  }

  lemma {:induction false} TaylorHolds(order: nat, source: bool, gpu: bool, ext: Assignment, st: State, v: seq<nat>)
    requires order > 0 && |v| == 2
    ensures Run(Derivative(order, source, gpu), ext, st)(I, v)
         == TermsSum(TaylorTerms(order), ext, v, Run(Derivative(order, source, gpu), ext, st))
  {
    hide *;
    if order == 1 {
      TaylorStarts(source, gpu, ext, st, v);
    } else {
      var st0, st1 := Run(Derivative(order - 1, source, gpu), ext, st), Run(Derivative(order, source, gpu), ext, st);
      TaylorHolds(order - 1, source, gpu, ext, st, v);
      LastPower(order, source, gpu, ext, st, v);
      DegreeKeeps(order, source, gpu, ext, st);
      TaylorAlike(order - 1, st1, st0);
      AlikeTermsSums(TaylorTerms(order - 1), st1, TaylorTerms(order - 1), st0, ext, v);
      TaylorGrows(order - 1, ext, v, st1);
    }
  }

  /** Running the Taylor expansion after the interleaved kernel changes nothing: the kernel has left the
      Taylor sum of the derivatives it has stored. */
  lemma InterleavedIsTaylor(order: nat, source: bool, gpu: bool, ext: Assignment, st: State, n: Name, v: seq<nat>)
    requires order > 0
    ensures Step(Taylor(order), ext, Run(Derivative(order, source, gpu), ext, st))(n, v)
         == Run(Derivative(order, source, gpu), ext, st)(n, v)
  {
    StepDoes(Taylor(order), ext, Run(Derivative(order, source, gpu), ext, st), n, v);
    hide Step, Run, TermsSum, Derivative;
    if |v| == 2 {
      TaylorHolds(order, source, gpu, ext, st, v);
    }
  }

  // ---- both targets ----

  ghost predicate SameEntries(st1: State, st2: State) {
    forall n, v :: st1(n, v) == st2(n, v)
  }

  ghost predicate StartsFromQ(st: State) {
    SamePair(DQ(0), st, Q, st)
  }

  lemma StartAlike(st: State)
    requires StartsFromQ(st)
    ensures Alike(PowerTerm(0, Q), st, PowerTerm(0, DQ(0)), st)
  {}

  lemma TargetsStartAlike(source: bool, ext: Assignment, st: State)
    requires StartsFromQ(st)
    ensures SameEntries(Run(Derivative(1, source, true), ext, st), Run(Derivative(1, source, false), ext, st))
  {
    assert Derivative(1, source, true) == FirstSteps(true) && Derivative(1, source, false) == FirstSteps(false);
    StartAlike(st);
    hide Run, FirstSteps, Derivative, TermSum, PowerTerm, Alike;
    forall n: Name, v: seq<nat>
      ensures Run(FirstSteps(true), ext, st)(n, v) == Run(FirstSteps(false), ext, st)(n, v)
    {
      FirstStepsDo(true, ext, st, n, v);
      FirstStepsDo(false, ext, st, n, v);
      if |v| == 2 {
        AlikeTermSums(PowerTerm(0, Q), st, PowerTerm(0, DQ(0)), st, ext, v);
      }
    }
  }

  lemma TargetsStepAlike(i: nat, source: bool, ext: Assignment, st1: State, st2: State)
    requires i > 0 && SameEntries(st1, st2) && StartsFromQ(st2)
    ensures SameEntries(Step(DerivativeStep(i, source, true), ext, st1), Step(DerivativeStep(i, source, false), ext, st2))
  {
    DerivativesAlike(Level(i - 1, true), st1, Level(i - 1, false), st2, source);
    hide Step, DerivativeTerms, TermsSum, Level, AllAlike;
    forall n: Name, v: seq<nat>
      ensures Step(DerivativeStep(i, source, true), ext, st1)(n, v)
            == Step(DerivativeStep(i, source, false), ext, st2)(n, v)
    {
      DerivativeStepDoes(i, source, true, ext, st1, n, v);
      DerivativeStepDoes(i, source, false, ext, st2, n, v);
      if |v| == 2 {
        AlikeTermsSums(DerivativeTerms(Level(i - 1, true), source), st1, DerivativeTerms(Level(i - 1, false), source),
                       st2, ext, v);
      }
    }
  }

  lemma TaylorStepAlike(i: nat, ext: Assignment, st1: State, st2: State)
    requires SameEntries(st1, st2)
    ensures SameEntries(Step(TaylorStep(i), ext, st1), Step(TaylorStep(i), ext, st2))
  {
    hide Step, TermSum;
    forall n: Name, v: seq<nat>
      ensures Step(TaylorStep(i), ext, st1)(n, v) == Step(TaylorStep(i), ext, st2)(n, v)
    {
      TaylorStepDoes(i, ext, st1, n, v);
      TaylorStepDoes(i, ext, st2, n, v);
      if |v| == 2 {
        AlikeTermSums(PowerTerm(i, DQ(i)), st1, PowerTerm(i, DQ(i)), st2, ext, v);
      }
    }
  }

  lemma StillFromQ(order: nat, source: bool, ext: Assignment, st: State)
    requires order > 0 && StartsFromQ(st)
    ensures StartsFromQ(Run(Derivative(order, source, false), ext, st))
  {
    InputKept(order, source, false, ext, st);
    hide Run, Derivative;
  }

  /** The kernel that reads Q and stores its copy leaves what the other kernel leaves if degree 0 is Q. */
  lemma {:induction false} TargetsAgree(order: nat, source: bool, ext: Assignment, st: State)
    requires order > 0 && StartsFromQ(st)
    ensures SameEntries(Run(Derivative(order, source, true), ext, st), Run(Derivative(order, source, false), ext, st))
  {
    hide *;
    if order == 1 {
      TargetsStartAlike(source, ext, st);
    } else {
      var st1, st2 := Run(Derivative(order - 1, source, true), ext, st), Run(Derivative(order - 1, source, false), ext, st);
      TargetsAgree(order - 1, source, ext, st);
      StillFromQ(order - 1, source, ext, st);
      RunGrows(order, source, true, ext, st);
      RunGrows(order, source, false, ext, st);
      TargetsStepAlike(order - 1, source, ext, st1, st2);
      TaylorStepAlike(order - 1, ext, Step(DerivativeStep(order - 1, source, true), ext, st1),
                      Step(DerivativeStep(order - 1, source, false), ext, st2));
    }
  }
}
