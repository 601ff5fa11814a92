/** Fused simulations: one more index for some tensors, and all simulations are advanced at once. */
module KernelSlices {
  import opened KernelLanguage

  const SIM: char := 's'

  // The tensors that have one entry for each simulation.
  predicate HasOptDim(n: Name) {
    n.Q? || n.I? || n.INodal? || n.DQ?
  }

  // The matrices that are read transposed if simulations are fused.
  predicate FromDatabase(n: Name) {
    n.KDivM? || n.KDivMT? || n.RDivM? || n.FMrT? || n.FP? || n.RT?
  }

  function Clamped(pos: nat, len: nat): (p: nat)
    ensures p <= len
  {
    if pos <= len then pos else len
  }

  // sliceable[0:pos] + (item,) + sliceable[pos:]
  function InsertOptDim<T>(s: seq<T>, item: T, pos: nat): (r: seq<T>)
    ensures |r| == |s| + 1
  {
    var p := Clamped(pos, |s|);
    s[..p] + [item] + s[p..]
  }

  /** The item stands at pos, or at the end if that is before; what is around it stays in order. */
  lemma InsertedAt<T>(s: seq<T>, item: T, pos: nat)
    ensures var r := InsertOptDim(s, item, pos);
            if pos <= |s| then r[pos] == item && r[..pos] == s[..pos] && r[pos + 1..] == s[pos..] else r == s + [item]
  {
    if pos > |s| {
      assert s[|s|..] == [];
    }
  }

  // x[::-1]
  function Reversed<T>(s: seq<T>): (r: seq<T>)
    ensures |r| == |s| && forall k | 0 <= k < |s| :: r[k] == s[|s| - 1 - k]
  {
    seq(|s|, k requires 0 <= k < |s| => s[|s| - 1 - k])
  }

  function FusedIndex<T>(n: Name, v: seq<T>, item: T, pos: nat): (w: seq<T>) {
    if HasOptDim(n) then InsertOptDim(v, item, pos)
    else if FromDatabase(n) then Reversed(v)
    else v
  }

  function FuseFactor(f: Factor, pos: nat): (r: Factor) {
    Factor(f.name, FusedIndex(f.name, f.idx, SIM, pos))
  }

  function FuseTerm(t: Term, pos: nat): (r: Term)
    ensures |r| == |t| && forall k | 0 <= k < |t| :: r[k] == FuseFactor(t[k], pos)
  {
    seq(|t|, k requires 0 <= k < |t| => FuseFactor(t[k], pos))
  }

  function FuseTerms(terms: seq<Term>, pos: nat): (r: seq<Term>)
    ensures |r| == |terms| && forall k | 0 <= k < |terms| :: r[k] == FuseTerm(terms[k], pos)
  {
    seq(|terms|, k requires 0 <= k < |terms| => FuseTerm(terms[k], pos))
  }

  function FuseStatement(s: Statement, pos: nat): (r: Statement) {
    Statement(s.target, FusedIndex(s.target, s.idx, SIM, pos), FuseTerms(s.terms, pos))
  }

  function FuseKernel(k: Kernel, pos: nat): (r: Kernel)
    ensures |r| == |k| && forall i | 0 <= i < |k| :: r[i] == FuseStatement(k[i], pos)
  {
    seq(|k|, i requires 0 <= i < |k| => FuseStatement(k[i], pos))
  }

  // st is what simulation x sees of the fused tensors.
  ghost predicate IsSlice(st: State, fused: State, x: nat, pos: nat) {
    forall n, v :: st(n, v) == fused(n, FusedIndex(n, v, x, pos))
  }

  predicate Plain(t: Term) {
    forall f | f in t :: SIM !in f.idx
  }

  // No letter of a term's own is the simulation, and what does not depend on the simulation is not
  // computed from something that does.
  predicate FitTerms(terms: seq<Term>, n: Name) {
    && (forall k | 0 <= k < |terms| :: Plain(terms[k]))
    && (HasOptDim(n) || forall k, f | 0 <= k < |terms| && f in terms[k] :: !HasOptDim(f.name))
  }

  predicate Fits(s: Statement) {
    SIM !in s.idx && !FromDatabase(s.target) && FitTerms(s.terms, s.target)
  }

  // ---- index values ----

  // Assignment b is a, with the simulation added.
  ghost predicate Extends(b: Assignment, a: Assignment, x: nat) {
    Get(b, SIM) == x && forall c | c != SIM :: Get(b, c) == Get(a, c)
  }

  lemma ExtendsUpdated(b: Assignment, a: Assignment, x: nat, c: char, n: nat)
    requires Extends(b, a, x) && c != SIM
    ensures Extends(b[c := n], a[c := n], x)
  {
    var b1, a1 := b[c := n], a[c := n];
    forall d: char | d != SIM
      ensures Get(b1, d) == Get(a1, d)
    {
      assert Get(b, d) == Get(a, d);
    }
  }

  lemma SameValues(idx: Indices, a: Assignment, b: Assignment, x: nat)
    requires SIM !in idx && Extends(b, a, x)
    ensures Values(idx, b) == Values(idx, a)
  {
    assert forall k | 0 <= k < |idx| :: idx[k] in idx;
  }

  lemma ValuesJoin(i1: Indices, i2: Indices, b: Assignment)
    ensures Values(i1 + i2, b) == Values(i1, b) + Values(i2, b)
  {}

  lemma ReversedValues(idx: Indices, b: Assignment)
    ensures Values(Reversed(idx), b) == Reversed(Values(idx, b))
  {}

  lemma InsertedValues(idx: Indices, b: Assignment, pos: nat)
    ensures Values(InsertOptDim(idx, SIM, pos), b) == InsertOptDim(Values(idx, b), Get(b, SIM), pos)
  {
    var p := Clamped(pos, |idx|);
    ValuesJoin(idx[..p] + [SIM], idx[p..], b);
    ValuesJoin(idx[..p], [SIM], b);
    ValuesJoin(idx[..p], idx[p..], b);
    assert idx[..p] + idx[p..] == idx;
    assert Values([SIM], b) == [Get(b, SIM)];
  }

  lemma FusedValues(n: Name, idx: Indices, a: Assignment, b: Assignment, x: nat, pos: nat)
    requires SIM !in idx && Extends(b, a, x)
    ensures Values(FusedIndex(n, idx, SIM, pos), b) == FusedIndex(n, Values(idx, a), x, pos)
  {
    hide Values, InsertOptDim, Reversed;
    SameValues(idx, a, b, x);
    ReversedValues(idx, b);
    InsertedValues(idx, b, pos);
  }

  lemma {:induction false} BindFrom(idx: Indices, v: seq<nat>, c: char)
    requires |v| == |idx|
    ensures c in Bind(idx, v) <==> c in idx
  {
    if idx != "" {
      BindFrom(idx[1..], v[1..], c);
      assert idx == [idx[0]] + idx[1..];
    }
  }

  lemma {:induction false} BindInserted(idx: Indices, v: seq<nat>, x: nat, pos: nat, c: char)
    requires |v| == |idx| && SIM !in idx
    ensures Get(Bind(InsertOptDim(idx, SIM, pos), InsertOptDim(v, x, pos)), c)
         == if c == SIM then x else Get(Bind(idx, v), c)
  {
    var idx1, v1 := InsertOptDim(idx, SIM, pos), InsertOptDim(v, x, pos);
    if pos == 0 || idx == "" {
      assert idx1[1..] == idx && v1[1..] == v;
      BindFrom(idx, v, c);
    } else {
      assert idx1[1..] == InsertOptDim(idx[1..], SIM, pos - 1) && v1[1..] == InsertOptDim(v[1..], x, pos - 1);
      assert idx == [idx[0]] + idx[1..];
      BindInserted(idx[1..], v[1..], x, pos - 1, c);
    }
  }

  lemma BindExtends(idx: Indices, v: seq<nat>, x: nat, pos: nat)
    requires |v| == |idx| && SIM !in idx
    ensures Extends(Bind(InsertOptDim(idx, SIM, pos), InsertOptDim(v, x, pos)), Bind(idx, v), x)
  {
    forall c: char
      ensures Get(Bind(InsertOptDim(idx, SIM, pos), InsertOptDim(v, x, pos)), c)
           == if c == SIM then x else Get(Bind(idx, v), c)
    {
      BindInserted(idx, v, x, pos, c);
    }
  }

  // ---- the letters that are summed over ----

  lemma FusedIndexHas(n: Name, idx: Indices, pos: nat, c: char)
    ensures c in idx ==> c in FusedIndex(n, idx, SIM, pos)
    ensures c in FusedIndex(n, idx, SIM, pos) ==> c in idx || (c == SIM && HasOptDim(n))
  {
    if c in idx && FromDatabase(n) {
      var k :| 0 <= k < |idx| && idx[k] == c;
      assert Reversed(idx)[|idx| - 1 - k] == c;
    }
    var p := Clamped(pos, |idx|);
    assert idx == idx[..p] + idx[p..];
  }

  lemma FusedMentions(t: Term, pos: nat, c: char)
    requires c != SIM || forall f | f in t :: !HasOptDim(f.name)
    ensures Mentions(FuseTerm(t, pos), c) <==> Mentions(t, c)
  {
    forall k | 0 <= k < |t|
      ensures c in FuseTerm(t, pos)[k].idx <==> c in t[k].idx
    {
      assert t[k] in t;
      FusedIndexHas(t[k].name, t[k].idx, pos, c);
    }
    MentionsAt(t, c);
    MentionsAt(FuseTerm(t, pos), c);
  }

  lemma MentionsAt(t: Term, c: char)
    ensures Mentions(t, c) <==> exists k :: 0 <= k < |t| && c in t[k].idx
  {
    if Mentions(t, c) {
      var f :| f in t && c in f.idx;
      assert exists k :: 0 <= k < |t| && t[k] == f;
    }
    if k :| 0 <= k < |t| && c in t[k].idx {
      assert t[k] in t;
    }
  }

  lemma SameContracted(t: Term, n: Name, idx: Indices, pos: nat)
    requires SIM !in idx && Plain(t) && (HasOptDim(n) || forall f | f in t :: !HasOptDim(f.name))
    ensures SameLetters(Contracted(t, idx), Contracted(FuseTerm(t, pos), FusedIndex(n, idx, SIM, pos)))
    ensures NoDuplicates(Contracted(t, idx)) && SIM !in Contracted(t, idx)
    ensures NoDuplicates(Contracted(FuseTerm(t, pos), FusedIndex(n, idx, SIM, pos)))
  {
    var idx1 := FusedIndex(n, idx, SIM, pos);
    NewLettersAre(LettersOf(t), Letters(idx));
    NewLettersAre(LettersOf(FuseTerm(t, pos)), Letters(idx1));
    forall c: char
      ensures c in LettersOf(t) && c !in Letters(idx) <==> c in LettersOf(FuseTerm(t, pos)) && c !in Letters(idx1)
      ensures c == SIM ==> c !in LettersOf(t)
    {
      LetterKept(t, n, idx, pos, c);
    }
  }

  lemma LetterKept(t: Term, n: Name, idx: Indices, pos: nat, c: char)
    requires SIM !in idx && Plain(t) && (HasOptDim(n) || forall f | f in t :: !HasOptDim(f.name))
    ensures c in LettersOf(t) && c !in Letters(idx) <==>
              c in LettersOf(FuseTerm(t, pos)) && c !in Letters(FusedIndex(n, idx, SIM, pos))
    ensures c == SIM ==> c !in LettersOf(t)
  {
    LettersAre(t, c);
    LettersAre(FuseTerm(t, pos), c);
    FusedIndexHas(n, idx, pos, c);
    if c == SIM && HasOptDim(n) {
      SimIsInserted(idx, pos);
    } else {
      FusedMentions(t, pos, c);
    }
  }

  lemma SimIsInserted(idx: Indices, pos: nat)
    ensures SIM in InsertOptDim(idx, SIM, pos)
  {
    assert InsertOptDim(idx, SIM, pos)[Clamped(pos, |idx|)] == SIM;
  }

  // ---- slices of sums, statements and kernels ----

  lemma FirstFactorSlice(t: Term, a: Assignment, b: Assignment, st: State, fused: State, x: nat, pos: nat)
    requires t != [] && Plain(t) && Extends(b, a, x) && IsSlice(st, fused, x, pos)
    ensures Plain(t[1..]) && FuseTerm(t, pos) != [] && FuseTerm(t, pos)[1..] == FuseTerm(t[1..], pos)
    ensures fused(FuseTerm(t, pos)[0].name, Values(FuseTerm(t, pos)[0].idx, b)) == st(t[0].name, Values(t[0].idx, a))
  {
    hide Values, FusedIndex, Extends;
    assert t[0] in t;
    FusedValues(t[0].name, t[0].idx, a, b, x, pos);
  }

  lemma {:induction false} ProductSlice(t: Term, a: Assignment, b: Assignment, st: State, fused: State, x: nat, pos: nat)
    requires Plain(t) && Extends(b, a, x) && IsSlice(st, fused, x, pos)
    ensures Product(FuseTerm(t, pos), b, fused) == Product(t, a, st)
  {
    if t != [] {
      hide *;
      FirstFactorSlice(t, a, b, st, fused, x, pos);
      ProductSlice(t[1..], a, b, st, fused, x, pos);
      SameFirstFactor(FuseTerm(t, pos), b, fused, t, a, st);
    }
  }

  lemma {:induction false} SumSlice(letters: string, ext: Assignment, t: Term, a: Assignment, b: Assignment, st: State,
                                    fused: State, x: nat, pos: nat)
    requires SIM !in letters && Plain(t) && Extends(b, a, x) && IsSlice(st, fused, x, pos)
    ensures SumOver(letters, ext, b, FuseTerm(t, pos), fused) == SumOver(letters, ext, a, t, st)
    decreases |letters|, 0
  {
    if letters == "" {
      ProductSlice(t, a, b, st, fused, x, pos);
    } else {
      SumAtSlice(letters, Get(ext, letters[|letters| - 1]), ext, t, a, b, st, fused, x, pos);
    }
  }

  lemma {:induction false} SumAtSlice(letters: string, n: nat, ext: Assignment, t: Term, a: Assignment, b: Assignment,
                                      st: State, fused: State, x: nat, pos: nat)
    requires letters != "" && SIM !in letters && Plain(t) && Extends(b, a, x) && IsSlice(st, fused, x, pos)
    ensures SumAt(letters, n, ext, b, FuseTerm(t, pos), fused) == SumAt(letters, n, ext, a, t, st)
    decreases |letters| - 1, n + 1
  {
    if n > 0 {
      var last := |letters| - 1;
      SumAtSlice(letters, n - 1, ext, t, a, b, st, fused, x, pos);
      assert letters[last] in letters;
      ExtendsUpdated(b, a, x, letters[last], n - 1);
      SumSlice(letters[..last], ext, t, a[letters[last] := n - 1], b[letters[last] := n - 1], st, fused, x, pos);
    }
  }

  lemma TermSlice(t: Term, n: Name, idx: Indices, ext: Assignment, a: Assignment, b: Assignment, st: State, fused: State,
                  x: nat, pos: nat)
    requires SIM !in idx && Plain(t) && (HasOptDim(n) || forall f | f in t :: !HasOptDim(f.name))
    requires Extends(b, a, x) && IsSlice(st, fused, x, pos)
    ensures SumOver(Contracted(FuseTerm(t, pos), FusedIndex(n, idx, SIM, pos)), ext, b, FuseTerm(t, pos), fused)
         == SumOver(Contracted(t, idx), ext, a, t, st)
  {
    hide *;
    var p, q := Contracted(FuseTerm(t, pos), FusedIndex(n, idx, SIM, pos)), Contracted(t, idx);
    SameContracted(t, n, idx, pos);
    SameLettersTurned(q, p);
    SumsPermute(p, q, "", ext, b, FuseTerm(t, pos), fused);
    assert p + "" == p && q + "" == q;
    SumSlice(q, ext, t, a, b, st, fused, x, pos);
  }

  lemma SameLettersTurned(p: string, q: string)
    requires SameLetters(p, q)
    ensures SameLetters(q, p)
  {}

  lemma EarlierTermsFit(terms: seq<Term>, n: Name)
    requires terms != [] && FitTerms(terms, n)
    ensures FitTerms(terms[..|terms| - 1], n) && Plain(terms[|terms| - 1])
    ensures HasOptDim(n) || forall f | f in terms[|terms| - 1] :: !HasOptDim(f.name)
  {}

  lemma EvalGrows(terms: seq<Term>, t: Term, idx: Indices, ext: Assignment, a: Assignment, st: State)
    ensures EvalTerms(terms + [t], idx, ext, a, st)
          == EvalTerms(terms, idx, ext, a, st) + SumOver(Contracted(t, idx), ext, a, t, st)
  {
    TermsJoin(terms, [t], idx, ext, a, st);
    OneTerm(t, idx, ext, a, st);
  }

  lemma FusedTermsGrow(terms: seq<Term>, pos: nat)
    requires terms != []
    ensures terms == terms[..|terms| - 1] + [terms[|terms| - 1]]
    ensures FuseTerms(terms, pos) == FuseTerms(terms[..|terms| - 1], pos) + [FuseTerm(terms[|terms| - 1], pos)]
  {
    hide FuseTerm;
  }

  lemma NoTerms(pos: nat, i1: Indices, i2: Indices, ext: Assignment, a: Assignment, b: Assignment, st1: State, st2: State)
    ensures EvalTerms(FuseTerms([], pos), i1, ext, a, st1) == EvalTerms([], i2, ext, b, st2)
  {
    assert FuseTerms([], pos) == [];
  }

  lemma {:induction false} TermsSlice(terms: seq<Term>, n: Name, idx: Indices, ext: Assignment, a: Assignment,
                                      b: Assignment, st: State, fused: State, x: nat, pos: nat)
    requires SIM !in idx && FitTerms(terms, n) && Extends(b, a, x) && IsSlice(st, fused, x, pos)
    ensures EvalTerms(FuseTerms(terms, pos), FusedIndex(n, idx, SIM, pos), ext, b, fused)
          == EvalTerms(terms, idx, ext, a, st)
  {
    hide *;
    if terms == [] {
      NoTerms(pos, FusedIndex(n, idx, SIM, pos), idx, ext, b, a, fused, st);
    } else {
      var rest, t := terms[..|terms| - 1], terms[|terms| - 1];
      EarlierTermsFit(terms, n);
      FusedTermsGrow(terms, pos);
      TermsSlice(rest, n, idx, ext, a, b, st, fused, x, pos);
      TermSlice(t, n, idx, ext, a, b, st, fused, x, pos);
      EvalGrows(FuseTerms(rest, pos), FuseTerm(t, pos), FusedIndex(n, idx, SIM, pos), ext, b, fused);
      EvalGrows(rest, t, idx, ext, a, st);
    }
  }

  lemma BindFused(n: Name, idx: Indices, v: seq<nat>, x: nat, pos: nat)
    requires |v| == |idx| && SIM !in idx && !FromDatabase(n)
    ensures |FusedIndex(n, v, x, pos)| == |FusedIndex(n, idx, SIM, pos)|
    ensures HasOptDim(n) ==> Extends(Bind(FusedIndex(n, idx, SIM, pos), FusedIndex(n, v, x, pos)), Bind(idx, v), x)
  {
    if HasOptDim(n) {
      BindExtends(idx, v, x, pos);
    }
  }

  /** One statement: every simulation sees what the statement for one simulation computes. */
  lemma StatementSlice(s: Statement, ext: Assignment, st: State, fused: State, x: nat, pos: nat, v: seq<nat>)
    requires Fits(s) && IsSlice(st, fused, x, pos) && |v| == |s.idx|
    ensures |FusedIndex(s.target, v, x, pos)| == |FuseStatement(s, pos).idx|
    ensures Eval(FuseStatement(s, pos), FusedIndex(s.target, v, x, pos), ext, fused) == Eval(s, v, ext, st)
  {
    hide EvalTerms, FusedIndex, Extends, IsSlice, Bind, FuseTerms;
    BindFused(s.target, s.idx, v, x, pos);
    if HasOptDim(s.target) {
      TermsSlice(s.terms, s.target, s.idx, ext, Bind(s.idx, v),
                 Bind(FusedIndex(s.target, s.idx, SIM, pos), FusedIndex(s.target, v, x, pos)), st, fused, x, pos);
    } else {
      PlainStatementSlice(s, ext, st, fused, x, pos, v);
    }
  }

  // A statement without simulations on the left has none on the right either.
  lemma PlainStatementSlice(s: Statement, ext: Assignment, st: State, fused: State, x: nat, pos: nat, v: seq<nat>)
    requires Fits(s) && IsSlice(st, fused, x, pos) && |v| == |s.idx| && !HasOptDim(s.target)
    ensures FusedIndex(s.target, v, x, pos) == v && FusedIndex(s.target, s.idx, SIM, pos) == s.idx
    ensures EvalTerms(FuseTerms(s.terms, pos), s.idx, ext, Bind(s.idx, v), fused)
         == EvalTerms(s.terms, s.idx, ext, Bind(s.idx, v), st)
  {
    var a := Bind(s.idx, v);
    BindFrom(s.idx, v, SIM);
    var first := SliceAt(fused, 0, pos);
    hide Product, EvalTerms;
    TermsSlice(s.terms, s.target, s.idx, ext, a, a, first, fused, 0, pos);
    assert forall k, f | 0 <= k < |s.terms| && 0 <= f < |s.terms[k]| :: s.terms[k][f] in s.terms[k];
    AlikeTerms(s.terms, first, s.terms, st, s.idx, ext, a);
  }

  function SliceAt(fused: State, x: nat, pos: nat): (st: State)
    ensures IsSlice(st, fused, x, pos)
  {
    (n: Name, v: seq<nat>) => fused(n, FusedIndex(n, v, x, pos))
  }

  lemma StepSlice(s: Statement, ext: Assignment, st: State, fused: State, x: nat, pos: nat)
    requires Fits(s) && IsSlice(st, fused, x, pos)
    ensures IsSlice(Step(s, ext, st), Step(FuseStatement(s, pos), ext, fused), x, pos)
  {
    hide Fits, Eval, Step;
    forall n: Name, v: seq<nat>
      ensures Step(s, ext, st)(n, v) == Step(FuseStatement(s, pos), ext, fused)(n, FusedIndex(n, v, x, pos))
    {
      StepEntry(s, ext, st, n, v);
      StepEntry(FuseStatement(s, pos), ext, fused, n, FusedIndex(n, v, x, pos));
      if n == s.target && |v| == |s.idx| {
        StatementSlice(s, ext, st, fused, x, pos, v);
      }
    }
  }

  predicate AllFit(k: Kernel) {
    forall i | 0 <= i < |k| :: Fits(k[i])
  }

  /** Every slice of a fused kernel is the kernel for one simulation. */
  lemma {:induction false} KernelSlice(k: Kernel, ext: Assignment, st: State, fused: State, x: nat, pos: nat)
    requires AllFit(k) && IsSlice(st, fused, x, pos)
    ensures IsSlice(Run(k, ext, st), Run(FuseKernel(k, pos), ext, fused), x, pos)
  {
    if k != [] {
      var last := |k| - 1;
      KernelSlice(k[..last], ext, st, fused, x, pos);
      assert FuseKernel(k, pos)[..last] == FuseKernel(k[..last], pos);
      StepSlice(k[last], ext, Run(k[..last], ext, st), Run(FuseKernel(k[..last], pos), ext, fused), x, pos);
    }
  }
}
