/** The meaning of the assignments a kernel generator emits: sums of products of indexed tensors. */
module KernelLanguage {

  datatype Name =
    | Q | I | INodal | DQ(degree: nat) | QFortran
    | KDivM(dim: nat) | KDivMT(dim: nat) | Star(dim: nat) | Source
    | RDivM(side: nat) | FMrT(side: nat) | FP(turn: nat) | RT(side: nat) | Project2nFaceTo3m(side: nat)
    | AplusT | AplusTAll(side: nat) | AminusT
    | PlusFluxMatrices(side: nat) | MinusFluxMatrices(turn: nat, other: nat, side: nat)
    | Power(degree: nat) | MultSimToFirstSim

  type Indices = string

  datatype Factor = Factor(name: Name, idx: Indices)

  type Term = seq<Factor>

  // target[idx] <= terms[0] + terms[1] + ...
  datatype Statement = Statement(target: Name, idx: Indices, terms: seq<Term>)

  type Kernel = seq<Statement>

  // One entry of a tensor, given the values of its indices.
  type State = (Name, seq<nat>) -> real

  // What the index letters stand for; also, how far they run.
  type Assignment = map<char, nat>

  function Get(a: Assignment, c: char): (n: nat) {
    if c in a then a[c] else 0
  }

  function Values(idx: Indices, a: Assignment): (v: seq<nat>)
    ensures |v| == |idx| && forall k | 0 <= k < |idx| :: v[k] == Get(a, idx[k])
  {
    seq(|idx|, k requires 0 <= k < |idx| => Get(a, idx[k]))
  }

  function Bind(idx: Indices, v: seq<nat>): (a: Assignment)
    requires |v| == |idx|
  {
    if idx == "" then map[] else Bind(idx[1..], v[1..])[idx[0] := v[0]]
  }

  // ---- the summation convention ----

  // The letters that are not seen before, each once, in order of appearance.
  function NewLetters(letters: string, seen: set<char>): (r: string) {
    if letters == "" then ""
    else if letters[0] in seen then NewLetters(letters[1..], seen)
    else [letters[0]] + NewLetters(letters[1..], seen + {letters[0]})
  }

  function LettersOf(t: Term): (r: string) {
    if t == [] then "" else t[0].idx + LettersOf(t[1..])
  }

  function Letters(idx: Indices): (r: set<char>) {
    set c | c in idx
  }

  // All letters of a term that the target does not have are summed over.
  function Contracted(t: Term, idx: Indices): (r: string) {
    NewLetters(LettersOf(t), Letters(idx))
  }

  function EntryProduct(x: real, y: real): (r: real) {
    x * y
  }

  function Product(t: Term, a: Assignment, st: State): (r: real) {
    if t == [] then 1.0 else EntryProduct(st(t[0].name, Values(t[0].idx, a)), Product(t[1..], a, st))
  }

  // The sum over all values of the letters; the last letter runs slowest.
  function SumOver(letters: string, ext: Assignment, a: Assignment, t: Term, st: State): (r: real)
    decreases |letters|, 0
  {
    if letters == "" then Product(t, a, st)
    else SumAt(letters, Get(ext, letters[|letters| - 1]), ext, a, t, st)
  }

  function SumAt(letters: string, n: nat, ext: Assignment, a: Assignment, t: Term, st: State): (r: real)
    requires letters != ""
    decreases |letters| - 1, n + 1
  {
    if n == 0 then 0.0
    else
      var last := |letters| - 1;
      SumAt(letters, n - 1, ext, a, t, st) + SumOver(letters[..last], ext, a[letters[last] := n - 1], t, st)
  }

  function EvalTerms(terms: seq<Term>, idx: Indices, ext: Assignment, a: Assignment, st: State): (r: real) {
    if terms == [] then 0.0
    else
      var last := |terms| - 1;
      EvalTerms(terms[..last], idx, ext, a, st) + SumOver(Contracted(terms[last], idx), ext, a, terms[last], st)
  }

  function Eval(s: Statement, v: seq<nat>, ext: Assignment, st: State): (r: real)
    requires |v| == |s.idx|
  {
    EvalTerms(s.terms, s.idx, ext, Bind(s.idx, v), st)
  }

  function Step(s: Statement, ext: Assignment, st: State): (r: State) {
    (n: Name, v: seq<nat>) => if n == s.target && |v| == |s.idx| then Eval(s, v, ext, st) else st(n, v)
  }

  function Run(k: Kernel, ext: Assignment, st: State): (r: State) {
    if k == [] then st else Step(k[|k| - 1], ext, Run(k[..|k| - 1], ext, st))
  }

  // ---- what an evaluation depends on ----

  // Two terms that read the same entries, maybe from tensors of different names.
  ghost predicate Alike(t1: Term, st1: State, t2: Term, st2: State) {
    && |t1| == |t2|
    && (forall k | 0 <= k < |t1| :: t1[k].idx == t2[k].idx)
    && (forall k, v | 0 <= k < |t1| && |v| == |t1[k].idx| :: st1(t1[k].name, v) == st2(t2[k].name, v))
  }

  lemma {:induction false} AlikeProducts(t1: Term, st1: State, t2: Term, st2: State, a: Assignment)
    requires Alike(t1, st1, t2, st2)
    ensures Product(t1, a, st1) == Product(t2, a, st2)
  {
    if t1 != [] {
      AlikeProducts(t1[1..], st1, t2[1..], st2, a);
    }
  }

  lemma {:induction false} AlikeLetters(t1: Term, st1: State, t2: Term, st2: State)
    requires Alike(t1, st1, t2, st2)
    ensures LettersOf(t1) == LettersOf(t2)
  {
    if t1 != [] {
      AlikeLetters(t1[1..], st1, t2[1..], st2);
    }
  }

  lemma {:induction false} AlikeSums(letters: string, ext: Assignment, a: Assignment, t1: Term, st1: State, t2: Term,
                                     st2: State)
    requires Alike(t1, st1, t2, st2)
    ensures SumOver(letters, ext, a, t1, st1) == SumOver(letters, ext, a, t2, st2)
    decreases |letters|, 0
  {
    if letters == "" {
      AlikeProducts(t1, st1, t2, st2, a);
    } else {
      AlikeSumsAt(letters, Get(ext, letters[|letters| - 1]), ext, a, t1, st1, t2, st2);
    }
  }

  lemma {:induction false} AlikeSumsAt(letters: string, n: nat, ext: Assignment, a: Assignment, t1: Term, st1: State,
                                       t2: Term, st2: State)
    requires letters != "" && Alike(t1, st1, t2, st2)
    ensures SumAt(letters, n, ext, a, t1, st1) == SumAt(letters, n, ext, a, t2, st2)
    decreases |letters| - 1, n + 1
  {
    if n > 0 {
      var last := |letters| - 1;
      AlikeSumsAt(letters, n - 1, ext, a, t1, st1, t2, st2);
      AlikeSums(letters[..last], ext, a[letters[last] := n - 1], t1, st1, t2, st2);
    }
  }

  ghost predicate AllAlike(ts1: seq<Term>, st1: State, ts2: seq<Term>, st2: State) {
    |ts1| == |ts2| && forall k | 0 <= k < |ts1| :: Alike(ts1[k], st1, ts2[k], st2)
  }

  /** An evaluation depends only on the entries it reads. */
  lemma {:induction false} AlikeTerms(ts1: seq<Term>, st1: State, ts2: seq<Term>, st2: State, idx: Indices, ext: Assignment,
                                      a: Assignment)
    requires AllAlike(ts1, st1, ts2, st2)
    ensures EvalTerms(ts1, idx, ext, a, st1) == EvalTerms(ts2, idx, ext, a, st2)
  {
    if ts1 != [] {
      var last := |ts1| - 1;
      AlikeTerms(ts1[..last], st1, ts2[..last], st2, idx, ext, a);
      AlikeLetters(ts1[last], st1, ts2[last], st2);
      AlikeSums(Contracted(ts1[last], idx), ext, a, ts1[last], st1, ts2[last], st2);
    }
  }

  lemma OneTerm(t: Term, idx: Indices, ext: Assignment, a: Assignment, st: State)
    ensures EvalTerms([t], idx, ext, a, st) == SumOver(Contracted(t, idx), ext, a, t, st)
  {
    assert [t][..0] == [];
    assert EvalTerms([], idx, ext, a, st) == 0.0;
  }

  lemma {:induction false} TermsJoin(t1: seq<Term>, t2: seq<Term>, idx: Indices, ext: Assignment, a: Assignment, st: State)
    ensures EvalTerms(t1 + t2, idx, ext, a, st) == EvalTerms(t1, idx, ext, a, st) + EvalTerms(t2, idx, ext, a, st)
  {
    if t2 == [] {
      assert t1 + t2 == t1;
    } else {
      var last := |t2| - 1;
      TermsJoin(t1, t2[..last], idx, ext, a, st);
      assert (t1 + t2)[..|t1 + t2| - 1] == t1 + t2[..last];
    }
  }

  // ---- products of sums ----

  predicate Mentions(t: Term, c: char) {
    exists f | f in t :: c in f.idx
  }

  lemma SameFirstFactor(t1: Term, a: Assignment, st1: State, t2: Term, b: Assignment, st2: State)
    requires t1 != [] && t2 != []
    requires st1(t1[0].name, Values(t1[0].idx, a)) == st2(t2[0].name, Values(t2[0].idx, b))
    requires Product(t1[1..], a, st1) == Product(t2[1..], b, st2)
    ensures Product(t1, a, st1) == Product(t2, b, st2)
  {
    hide Values, EntryProduct;
  }

  lemma Regrouped(x: real, p: real, q: real, r: real)
    requires r == p * q
    ensures EntryProduct(x, r) == EntryProduct(x, p) * q
  {}

  lemma FirstFactor(t: Term, a: Assignment, st: State)
    requires t != []
    ensures Product(t, a, st) == EntryProduct(st(t[0].name, Values(t[0].idx, a)), Product(t[1..], a, st))
  {
    hide Values, EntryProduct;
  }

  lemma JoinedStart(t1: Term, t2: Term)
    ensures t1 == [] ==> t1 + t2 == t2
    ensures t1 != [] ==> (t1 + t2)[0] == t1[0] && (t1 + t2)[1..] == t1[1..] + t2
  {}

  lemma NoFactors(a: Assignment, st: State, x: real)
    ensures x == Product([], a, st) * x
  {}

  lemma {:induction false} ProductJoin(t1: Term, t2: Term, a: Assignment, st: State)
    ensures Product(t1 + t2, a, st) == Product(t1, a, st) * Product(t2, a, st)
  {
    hide *;
    JoinedStart(t1, t2);
    if t1 == [] {
      NoFactors(a, st, Product(t2, a, st));
    } else {
      ProductJoin(t1[1..], t2, a, st);
      FirstFactor(t1 + t2, a, st);
      FirstFactor(t1, a, st);
      Regrouped(st(t1[0].name, Values(t1[0].idx, a)), Product(t1[1..], a, st), Product(t2, a, st),
                Product((t1 + t2)[1..], a, st));
    }
  }

  lemma {:induction false} ProductIgnores(t: Term, a: Assignment, c: char, n: nat, st: State)
    requires !Mentions(t, c)
    ensures Product(t, a[c := n], st) == Product(t, a, st)
  {
    if t != [] {
      assert t[0] in t;
      assert Values(t[0].idx, a[c := n]) == Values(t[0].idx, a);
      ProductIgnores(t[1..], a, c, n, st);
    }
  }

  ghost predicate SameElsewhere(a: Assignment, b: Assignment, t: Term, letters: string) {
    forall c | Mentions(t, c) && c !in letters :: Get(a, c) == Get(b, c)
  }

  lemma {:induction false} ProductDepends(t: Term, a: Assignment, b: Assignment, st: State)
    requires SameElsewhere(a, b, t, "")
    ensures Product(t, a, st) == Product(t, b, st)
  {
    if t != [] {
      assert t[0] in t;
      assert forall k | 0 <= k < |t[0].idx| :: Mentions(t, t[0].idx[k]);
      assert Values(t[0].idx, a) == Values(t[0].idx, b);
      ProductDepends(t[1..], a, b, st);
    }
  }

  lemma FirstLettersElsewhere(letters: string, a: Assignment, b: Assignment, n: nat, t: Term)
    requires letters != "" && SameElsewhere(a, b, t, letters)
    ensures SameElsewhere(a[letters[|letters| - 1] := n], b[letters[|letters| - 1] := n], t, letters[..|letters| - 1])
  {
    assert letters == letters[..|letters| - 1] + [letters[|letters| - 1]];
  }

  /** A sum depends only on the letters it does not run over. */
  lemma {:induction false} SumDepends(letters: string, ext: Assignment, a: Assignment, b: Assignment, t: Term, st: State)
    requires SameElsewhere(a, b, t, letters)
    ensures SumOver(letters, ext, a, t, st) == SumOver(letters, ext, b, t, st)
    decreases |letters|, 0
  {
    if letters == "" {
      ProductDepends(t, a, b, st);
    } else {
      SumAtDepends(letters, Get(ext, letters[|letters| - 1]), ext, a, b, t, st);
    }
  }

  lemma {:induction false} SumAtDepends(letters: string, n: nat, ext: Assignment, a: Assignment, b: Assignment, t: Term,
                                        st: State)
    requires letters != "" && SameElsewhere(a, b, t, letters)
    ensures SumAt(letters, n, ext, a, t, st) == SumAt(letters, n, ext, b, t, st)
    decreases |letters| - 1, n + 1
  {
    if n > 0 {
      var last := |letters| - 1;
      SumAtDepends(letters, n - 1, ext, a, b, t, st);
      FirstLettersElsewhere(letters, a, b, n - 1, t);
      SumDepends(letters[..last], ext, a[letters[last] := n - 1], b[letters[last] := n - 1], t, st);
    }
  }

  ghost predicate MentionsNone(t: Term, letters: string) {
    forall c | c in letters :: !Mentions(t, c)
  }

  lemma FewerLetters(t: Term, letters: string)
    requires letters != "" && MentionsNone(t, letters)
    ensures MentionsNone(t, letters[..|letters| - 1]) && !Mentions(t, letters[|letters| - 1])
  {}

  /** Factors without the summed letters come out of the sum. */
  lemma {:induction false} FactorsComeOut(letters: string, ext: Assignment, a: Assignment, t1: Term, t2: Term, st: State)
    requires MentionsNone(t2, letters)
    ensures SumOver(letters, ext, a, t1 + t2, st) == SumOver(letters, ext, a, t1, st) * Product(t2, a, st)
    decreases |letters|, 0
  {
    if letters == "" {
      ProductJoin(t1, t2, a, st);
    } else {
      FactorsComeOutAt(letters, Get(ext, letters[|letters| - 1]), ext, a, t1, t2, st);
    }
  }

  lemma Distribute(x: real, y: real, p: real, s: real, z: real)
    requires s == x * p && z == y * p
    ensures s + z == (x + y) * p
  {}

  lemma SumAtGrows(letters: string, n: nat, ext: Assignment, a: Assignment, t: Term, st: State)
    requires letters != "" && n > 0
    ensures var last := |letters| - 1;
            (SumAt(letters, n, ext, a, t, st)
             == SumAt(letters, n - 1, ext, a, t, st) + SumOver(letters[..last], ext, a[letters[last] := n - 1], t, st))
  {
    hide SumOver;
  }

  lemma NothingToAdd(letters: string, ext: Assignment, a: Assignment, t: Term, st: State)
    requires letters != ""
    ensures SumAt(letters, 0, ext, a, t, st) == 0.0
  {}

  lemma {:induction false} FactorsComeOutAt(letters: string, n: nat, ext: Assignment, a: Assignment, t1: Term, t2: Term,
                                            st: State)
    requires letters != "" && MentionsNone(t2, letters)
    ensures SumAt(letters, n, ext, a, t1 + t2, st) == SumAt(letters, n, ext, a, t1, st) * Product(t2, a, st)
    decreases |letters| - 1, n + 1
  {
    hide *;
    if n == 0 {
      NothingToAdd(letters, ext, a, t1, st);
      NothingToAdd(letters, ext, a, t1 + t2, st);
    } else {
      var last := |letters| - 1;
      FewerLetters(t2, letters);
      var b := a[letters[last] := n - 1];
      FactorsComeOutAt(letters, n - 1, ext, a, t1, t2, st);
      FactorsComeOut(letters[..last], ext, b, t1, t2, st);
      ProductIgnores(t2, a, letters[last], n - 1, st);
      SumAtGrows(letters, n, ext, a, t1, st);
      SumAtGrows(letters, n, ext, a, t1 + t2, st);
      Distribute(SumAt(letters, n - 1, ext, a, t1, st), SumOver(letters[..last], ext, b, t1, st), Product(t2, a, st),
                 SumAt(letters, n - 1, ext, a, t1 + t2, st), SumOver(letters[..last], ext, b, t1 + t2, st));
    }
  }

  // Tensor p holds the contraction of t over the letters.
  ghost predicate Holds(p: Factor, letters: string, t: Term, ext: Assignment, st: State) {
    forall a: Assignment :: st(p.name, Values(p.idx, a)) == SumOver(letters, ext, a, t, st)
  }

  /** The first factors of a product may be contracted beforehand. */
  lemma {:induction false} Premultiply(inner: string, outer: string, ext: Assignment, a: Assignment,
                                       p: Factor, t1: Term, t2: Term, st: State)
    requires MentionsNone(t2, inner) && Holds(p, inner, t1, ext, st)
    ensures SumOver(inner + outer, ext, a, t1 + t2, st) == SumOver(outer, ext, a, [p] + t2, st)
    decreases |outer|, 0
  {
    if outer == "" {
      assert inner + outer == inner && ([p] + t2)[1..] == t2;
      FactorsComeOut(inner, ext, a, t1, t2, st);
    } else {
      var last := |outer| - 1;
      assert (inner + outer)[|inner + outer| - 1] == outer[last];
      PremultiplyAt(inner, outer, Get(ext, outer[last]), ext, a, p, t1, t2, st);
    }
  }

  lemma {:induction false} PremultiplyAt(inner: string, outer: string, n: nat, ext: Assignment, a: Assignment,
                                         p: Factor, t1: Term, t2: Term, st: State)
    requires outer != "" && MentionsNone(t2, inner) && Holds(p, inner, t1, ext, st)
    ensures SumAt(inner + outer, n, ext, a, t1 + t2, st) == SumAt(outer, n, ext, a, [p] + t2, st)
    decreases |outer| - 1, n + 1
  {
    if n > 0 {
      var last := |outer| - 1;
      var letters := inner + outer;
      assert letters[|letters| - 1] == outer[last] && letters[..|letters| - 1] == inner + outer[..last];
      PremultiplyAt(inner, outer, n - 1, ext, a, p, t1, t2, st);
      Premultiply(inner, outer[..last], ext, a[outer[last] := n - 1], p, t1, t2, st);
    }
  }

  // ---- the order of summation does not matter ----

  // All values of c below m and of d below n, d runs slowest.
  function SumOfSums(l: string, c: char, d: char, m: nat, n: nat, ext: Assignment, a: Assignment, t: Term,
                     st: State): (r: real) {
    if n == 0 then 0.0
    else SumOfSums(l, c, d, m, n - 1, ext, a, t, st) + SumAt(l + [c], m, ext, a[d := n - 1], t, st)
  }

  lemma {:induction false} SumsGrow(l: string, c: char, d: char, m: nat, n: nat, ext: Assignment, a: Assignment,
                                    t: Term, st: State)
    requires c != d
    ensures SumOfSums(l, d, c, n + 1, m, ext, a, t, st)
         == SumOfSums(l, d, c, n, m, ext, a, t, st) + SumAt(l + [c], m, ext, a[d := n], t, st)
  {
    if m > 0 {
      SumsGrow(l, c, d, m - 1, n, ext, a, t, st);
      assert (l + [c])[..|l|] == l && (l + [d])[..|l|] == l;
      assert a[c := m - 1][d := n] == a[d := n][c := m - 1];
    }
  }

  lemma {:induction false} NothingToSum(l: string, c: char, d: char, m: nat, ext: Assignment, a: Assignment, t: Term,
                                        st: State)
    ensures SumOfSums(l, d, c, 0, m, ext, a, t, st) == 0.0
  {
    if m > 0 {
      NothingToSum(l, c, d, m - 1, ext, a, t, st);
    }
  }

  lemma {:induction false} SumsExchange(l: string, c: char, d: char, m: nat, n: nat, ext: Assignment, a: Assignment,
                                        t: Term, st: State)
    requires c != d
    ensures SumOfSums(l, c, d, m, n, ext, a, t, st) == SumOfSums(l, d, c, n, m, ext, a, t, st)
  {
    if n == 0 {
      NothingToSum(l, c, d, m, ext, a, t, st);
    } else {
      SumsExchange(l, c, d, m, n - 1, ext, a, t, st);
      SumsGrow(l, c, d, m, n - 1, ext, a, t, st);
    }
  }

  lemma {:induction false} SumOfSumsIsSum(l: string, c: char, d: char, n: nat, ext: Assignment, a: Assignment,
                                          t: Term, st: State)
    requires c != d
    ensures SumAt(l + [c, d], n, ext, a, t, st) == SumOfSums(l, c, d, Get(ext, c), n, ext, a, t, st)
  {
    if n > 0 {
      SumOfSumsIsSum(l, c, d, n - 1, ext, a, t, st);
      assert (l + [c, d])[..|l| + 1] == l + [c];
    }
  }

  /** The order in which the letters are summed over does not matter: any two neighbours may trade places. */
  lemma {:induction false} LettersTrade(l: string, c: char, d: char, outer: string, ext: Assignment, a: Assignment,
                                        t: Term, st: State)
    requires c != d
    ensures SumOver(l + [c, d] + outer, ext, a, t, st) == SumOver(l + [d, c] + outer, ext, a, t, st)
    decreases |outer|, 0
  {
    if outer == "" {
      assert l + [c, d] + outer == l + [c, d] && l + [d, c] + outer == l + [d, c];
      SumOfSumsIsSum(l, c, d, Get(ext, d), ext, a, t, st);
      SumOfSumsIsSum(l, d, c, Get(ext, c), ext, a, t, st);
      SumsExchange(l, c, d, Get(ext, c), Get(ext, d), ext, a, t, st);
    } else {
      LettersTradeAt(l, c, d, outer, Get(ext, outer[|outer| - 1]), ext, a, t, st);
    }
  }

  lemma {:induction false} LettersTradeAt(l: string, c: char, d: char, outer: string, n: nat, ext: Assignment,
                                          a: Assignment, t: Term, st: State)
    requires c != d && outer != ""
    ensures SumAt(l + [c, d] + outer, n, ext, a, t, st) == SumAt(l + [d, c] + outer, n, ext, a, t, st)
    decreases |outer| - 1, n + 1
  {
    if n > 0 {
      var last := |outer| - 1;
      LettersTradeAt(l, c, d, outer, n - 1, ext, a, t, st);
      LettersTrade(l, c, d, outer[..last], ext, a[outer[last] := n - 1], t, st);
      assert (l + [c, d] + outer)[..|l| + 2 + last] == l + [c, d] + outer[..last];
      assert (l + [d, c] + outer)[..|l| + 2 + last] == l + [d, c] + outer[..last];
    }
  }

  predicate NoDuplicates(l: string) {
    forall i, j | 0 <= i < j < |l| :: l[i] != l[j]
  }

  ghost predicate SameLetters(p: string, q: string) {
    forall c :: c in p <==> c in q
  }

  // Letter c moves behind the letters of r.
  lemma {:induction false} LetterMoves(l: string, c: char, r: string, outer: string, ext: Assignment, a: Assignment,
                                       t: Term, st: State)
    requires c !in r
    ensures SumOver(l + [c] + r + outer, ext, a, t, st) == SumOver(l + r + [c] + outer, ext, a, t, st)
    decreases |r|
  {
    if r == "" {
      assert l + [c] + r == l + r + [c];
    } else {
      assert l + [c] + r + outer == l + [c, r[0]] + (r[1..] + outer);
      LettersTrade(l, c, r[0], r[1..] + outer, ext, a, t, st);
      assert l + [r[0], c] + (r[1..] + outer) == (l + [r[0]]) + [c] + r[1..] + outer;
      LetterMoves(l + [r[0]], c, r[1..], outer, ext, a, t, st);
      assert (l + [r[0]]) + r[1..] == l + r;
    }
  }

  /** Sums may be taken in any order. */
  lemma {:induction false} SumsPermute(p: string, q: string, outer: string, ext: Assignment, a: Assignment, t: Term,
                                       st: State)
    requires NoDuplicates(p) && NoDuplicates(q) && SameLetters(p, q)
    ensures SumOver(p + outer, ext, a, t, st) == SumOver(q + outer, ext, a, t, st)
    decreases |q|
  {
    if q == "" {
      FirstLetter(p);
    } else {
      var last := |q| - 1;
      var c := q[last];
      assert c in p;
      var i :| 0 <= i < |p| && p[i] == c;
      var l, r := p[..i], p[i + 1..];
      WithoutLetter(p, i, q);
      assert p == l + [c] + r;
      LetterMoves(l, c, r, outer, ext, a, t, st);
      SumsPermute(l + r, q[..last], [c] + outer, ext, a, t, st);
      assert (l + r) + ([c] + outer) == l + r + [c] + outer;
      assert q[..last] + ([c] + outer) == q + outer;
    }
  }

  lemma FirstLetter(p: string)
    ensures p != "" ==> exists c :: c in p
  {
    assert p != "" ==> p[0] in p;
  }

  lemma DistinctJoin(p: string, q: string)
    requires NoDuplicates(p) && NoDuplicates(q) && forall c | c in q :: c !in p
    ensures NoDuplicates(p + q)
  {
    assert forall i | 0 <= i < |q| :: q[i] in q;
  }

  function Dropped(p: string, i: nat): (r: string)
    requires i < |p|
  {
    p[..i] + p[i + 1..]
  }

  lemma DroppedHas(p: string, i: nat, c: char)
    requires NoDuplicates(p) && i < |p|
    ensures c in Dropped(p, i) <==> c in p && c != p[i]
  {
    if c in p && c != p[i] {
      var j :| 0 <= j < |p| && p[j] == c;
      assert Dropped(p, i)[if j < i then j else j - 1] == c;
    }
  }

  lemma DroppedIsDistinct(p: string, i: nat)
    requires NoDuplicates(p) && i < |p|
    ensures NoDuplicates(Dropped(p, i)) && p[i] !in p[i + 1..]
  {}

  lemma WithoutLetter(p: string, i: nat, q: string)
    requires NoDuplicates(p) && NoDuplicates(q) && SameLetters(p, q)
    requires q != "" && i < |p| && p[i] == q[|q| - 1]
    ensures NoDuplicates(p[..i] + p[i + 1..]) && NoDuplicates(q[..|q| - 1]) && p[i] !in p[i + 1..]
    ensures SameLetters(p[..i] + p[i + 1..], q[..|q| - 1])
  {
    assert Dropped(q, |q| - 1) == q[..|q| - 1];
    DroppedIsDistinct(p, i);
    DroppedIsDistinct(q, |q| - 1);
    forall c: char
      ensures c in Dropped(p, i) <==> c in Dropped(q, |q| - 1)
    {
      DroppedHas(p, i, c);
      DroppedHas(q, |q| - 1, c);
    }
  }

  /** The new letters: every letter that is not seen before, once. */
  lemma {:induction false} NewLettersAre(letters: string, seen: set<char>)
    ensures NoDuplicates(NewLetters(letters, seen))
    ensures forall c :: c in NewLetters(letters, seen) <==> c in letters && c !in seen
  {
    if letters != "" {
      NewLettersAre(letters[1..], seen);
      NewLettersAre(letters[1..], seen + {letters[0]});
      assert letters == [letters[0]] + letters[1..];
    }
  }

  lemma {:induction false} LettersAre(t: Term, c: char)
    ensures c in LettersOf(t) <==> Mentions(t, c)
  {
    if t != [] {
      LettersAre(t[1..], c);
      assert t == [t[0]] + t[1..];
      assert Mentions(t, c) <==> c in t[0].idx || Mentions(t[1..], c);
    }
  }

  // ---- kernels ----

  lemma StepEntry(s: Statement, ext: Assignment, st: State, n: Name, v: seq<nat>)
    ensures n == s.target && |v| == |s.idx| ==> Step(s, ext, st)(n, v) == Eval(s, v, ext, st)
    ensures !(n == s.target && |v| == |s.idx|) ==> Step(s, ext, st)(n, v) == st(n, v)
  {}

  lemma {:induction false} RunJoin(k1: Kernel, k2: Kernel, ext: Assignment, st: State)
    ensures Run(k1 + k2, ext, st) == Run(k2, ext, Run(k1, ext, st))
  {
    if k2 == [] {
      assert k1 + k2 == k1;
    } else {
      RunJoin(k1, k2[..|k2| - 1], ext, st);
      assert (k1 + k2)[..|k1 + k2| - 1] == k1 + k2[..|k2| - 1];
    }
  }
}
