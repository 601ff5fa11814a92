/** Lazy ranges, zips and filters: what a loop from begin to end sees of them, stated in terms of
    plain sequences. */
module Iterators {

  // ---- ranges ----

  // start, start + step, ... below stop
  function Steps(start: int, stop: int, step: int): (s: seq<int>)
    requires step > 0
    decreases if start < stop then stop - start else 0
  {
    if start >= stop then [] else [start] + Steps(start + step, stop, step)
  }

  lemma {:induction false} StepsAre(start: int, stop: int, step: int)
    requires step > 0
    ensures forall x :: x in Steps(start, stop, step) ==> start <= x < stop
    ensures forall k | 0 <= k < |Steps(start, stop, step)| :: Steps(start, stop, step)[k] == start + k * step
    ensures start + |Steps(start, stop, step)| * step >= stop
    decreases if start < stop then stop - start else 0
  {
    if start < stop {
      var rest := Steps(start + step, stop, step);
      StepsAre(start + step, stop, step);
      forall k | 0 <= k < |rest| + 1
        ensures ([start] + rest)[k] == start + k * step
      {
        if k > 0 {
          assert rest[k - 1] == start + step + (k - 1) * step;
        }
      }
    }
  }

  class RangeIterator {
    var value: int
    var step: int
    var end: int

    // The comparison looks at the parameter, and so does the assignment: the member stays.
    constructor (value: int, step: int, end: int)
      ensures this.value == value && this.step == step && this.end == end
    {
      var clamped := value;
      this.value, this.step, this.end := value, step, end;
      if clamped > end {
        clamped := end;
      }
    }

    method Next()
      modifies this
      ensures value == (if old(value) + step > end then end else old(value) + step)
      ensures step == old(step) && end == old(end)
    {
      value := value + step;
      if value > end {
        value := end;
      }
    }

    predicate Equals(other: RangeIterator)
      reads this, other
    {
      value == other.value && step == other.step && end == other.end
    }
  }

  // The value behind one step of the iterator.
  function NextValue(v: int, stop: int, step: int): (r: int) {
    if v + step > stop then stop else v + step
  }

  function ValueAfter(start: int, stop: int, step: int, n: nat): (r: int) {
    if n == 0 then start else NextValue(ValueAfter(start, stop, step, n - 1), stop, step)
  }

  /** The iterator meets the end: from below with a positive step, from above if the first step does not
      jump over it. */
  predicate MeetsEnd(start: int, stop: int, step: int) {
    if start < stop then step > 0 else start == stop || start + step >= stop
  }

  /** What a loop over range(start, stop, step) sees. */
  function Yielded(start: int, stop: int, step: int): (s: seq<int>)
    requires MeetsEnd(start, stop, step)
  {
    if start > stop then [start] else if start == stop then [] else Steps(start, stop, step)
  }

  lemma AfterStep(v: int, stop: int, step: int)
    requires MeetsEnd(v, stop, step) && v != stop
    ensures MeetsEnd(NextValue(v, stop, step), stop, step)
    ensures Yielded(v, stop, step) == [v] + Yielded(NextValue(v, stop, step), stop, step)
  {
    if v > stop {
      assert NextValue(v, stop, step) == stop && [v] + [] == [v];
    } else if v + step >= stop {
      assert Steps(v + step, stop, step) == [];
    }
  }

  lemma NothingAtEnd(stop: int, step: int)
    ensures MeetsEnd(stop, stop, step) && Yielded(stop, stop, step) == []
  {}

  // A loop that meets the end does so after a number of steps, and any other never.
  lemma {:induction false} NeverMeets(start: int, stop: int, step: int, n: nat)
    requires !MeetsEnd(start, stop, step)
    ensures ValueAfter(start, stop, step, n) != stop
    ensures n > 0 || start < stop ==> ValueAfter(start, stop, step, n) < stop
  {
    if n > 0 {
      NeverMeets(start, stop, step, n - 1);
    }
  }

  lemma {:induction false} Meets(start: int, stop: int, step: int) returns (n: nat)
    requires MeetsEnd(start, stop, step)
    ensures ValueAfter(start, stop, step, n) == stop
    decreases if start > stop then 1 else 0, if start < stop then stop - start else 0
  {
    if start == stop {
      n := 0;
    } else {
      var m := Meets(NextValue(start, stop, step), stop, step);
      FirstStepFirst(start, stop, step, m);
      n := m + 1;
    }
  }

  lemma {:induction false} FirstStepFirst(start: int, stop: int, step: int, n: nat)
    ensures ValueAfter(start, stop, step, n + 1) == ValueAfter(NextValue(start, stop, step), stop, step, n)
  {
    if n > 0 {
      FirstStepFirst(start, stop, step, n - 1);
    }
  }

  /** A loop over a range ends exactly if it meets the end. */
  lemma RangeEndsIff(start: int, stop: int, step: int)
    ensures MeetsEnd(start, stop, step) <==> exists n: nat :: ValueAfter(start, stop, step, n) == stop
  {
    if MeetsEnd(start, stop, step) {
      var n := Meets(start, stop, step);
    } else {
      forall n: nat
        ensures ValueAfter(start, stop, step, n) != stop
      {
        NeverMeets(start, stop, step, n);
      }
    }
  }

  lemma YieldedIffOrdered(start: int, stop: int, step: int)
    requires MeetsEnd(start, stop, step) && step > 0
    ensures Yielded(start, stop, step) == Steps(start, stop, step) <==> start <= stop
  {}

  /** A loop over a range that meets its end. A range that starts behind its end is not empty: with a
      positive step, the loop sees the documented steps exactly if the range does not. */
  method RunRange(start: int, stop: int, step: int) returns (out: seq<int>)
    requires MeetsEnd(start, stop, step)
    ensures start < stop ==> step > 0 && out == Steps(start, stop, step)
    ensures start == stop ==> out == []
    ensures start > stop ==> out == [start]
    ensures step > 0 ==> (out == Steps(start, stop, step) <==> start <= stop)
  {
    hide Yielded, MeetsEnd, NextValue;
    var it := new RangeIterator(start, step, stop);
    var end := new RangeIterator(stop, step, stop);
    out := [];
    NothingAtEnd(stop, step);
    while !it.Equals(end)
      invariant it != end && it.step == end.step == step && it.end == end.end == end.value == stop
      invariant MeetsEnd(it.value, stop, step)
      invariant out + Yielded(it.value, stop, step) == Yielded(start, stop, step)
      decreases if it.value > stop then 1 else 0, stop - it.value
    {
      ghost var v, out0 := it.value, out;
      out := out + [it.value];
      it.Next();
      NextIs(v, stop, step);
      AfterStep(v, stop, step);
      assert out + Yielded(it.value, stop, step) == out0 + ([v] + Yielded(it.value, stop, step));
    }
    assert out + [] == out;
    YieldedIs(start, stop, step);
    if step > 0 {
      YieldedIffOrdered(start, stop, step);
    }
  }

  lemma NextIs(v: int, stop: int, step: int)
    requires MeetsEnd(v, stop, step)
    ensures NextValue(v, stop, step) == if v + step > stop then stop else v + step
    ensures v > stop ==> NextValue(v, stop, step) == stop
    ensures v < stop ==> v < NextValue(v, stop, step) <= stop
  {}

  lemma YieldedIs(start: int, stop: int, step: int)
    requires MeetsEnd(start, stop, step)
    ensures start > stop ==> Yielded(start, stop, step) == [start]
    ensures start == stop ==> Yielded(start, stop, step) == []
    ensures start < stop ==> step > 0 && Yielded(start, stop, step) == Steps(start, stop, step)
  {}

  // ---- zip ----

  function Least(ns: seq<nat>): (m: nat)
    requires ns != []
    ensures m in ns && forall k | 0 <= k < |ns| :: m <= ns[k]
  {
    if |ns| == 1 then ns[0]
    else
      var rest := Least(ns[1..]);
      if ns[0] <= rest then ns[0] else rest
  }

  function Lengths<T>(ranges: seq<seq<T>>): (ns: seq<nat>)
    ensures |ns| == |ranges| && forall k | 0 <= k < |ns| :: ns[k] == |ranges[k]|
  {
    seq(|ranges|, k requires 0 <= k < |ranges| => |ranges[k]|)
  }

  // The i-th elements of all ranges.
  function Column<T>(ranges: seq<seq<T>>, i: nat): (c: seq<T>)
    requires forall r | 0 <= r < |ranges| :: i < |ranges[r]|
    ensures |c| == |ranges| && forall r | 0 <= r < |ranges| :: c[r] == ranges[r][i]
  {
    seq(|ranges|, r requires 0 <= r < |ranges| && i < |ranges[r]| => ranges[r][i])
  }

  function Columns<T>(ranges: seq<seq<T>>, n: nat): (cs: seq<seq<T>>)
    requires forall r | 0 <= r < |ranges| :: n <= |ranges[r]|
    ensures |cs| == n && forall i | 0 <= i < n :: cs[i] == Column(ranges, i)
  {
    seq(n, i requires 0 <= i < n && (forall r | 0 <= r < |ranges| :: i < |ranges[r]|) => Column(ranges, i))
  }

  predicate AnyEqual(a: seq<nat>, b: seq<nat>)
    requires |a| == |b|
  {
    exists k | 0 <= k < |a| :: a[k] == b[k]
  }

  lemma AnyEqualAt(a: seq<nat>, b: seq<nat>, k: nat)
    requires k < |a| == |b| && a[k] == b[k]
    ensures AnyEqual(a, b)
  {}

  lemma ColumnsGrow<T>(ranges: seq<seq<T>>, i: nat)
    requires ranges != [] && i < Least(Lengths(ranges))
    ensures forall r | 0 <= r < |ranges| :: i < |ranges[r]|
    ensures Columns(ranges, i + 1) == Columns(ranges, i) + [Column(ranges, i)]
  {
    assert forall r | 0 <= r < |ranges| :: i < Lengths(ranges)[r];
  }

  class ZipIterator {
    var iterators: seq<nat>
    var iteratorEnds: seq<nat>
    var ended: bool
    var lenient: bool

    constructor (lenient: bool, iterators: seq<nat>, iteratorEnds: seq<nat>)
      requires |iterators| == |iteratorEnds|
      ensures this.lenient == lenient && this.iterators == iterators && this.iteratorEnds == iteratorEnds
      ensures ended == AnyEqual(iterators, iteratorEnds)
    {
      this.lenient, this.iterators, this.iteratorEnds := lenient, iterators, iteratorEnds;
      ended := AnyEqual(iterators, iteratorEnds);
    }

    // Where the exception is raised.
    predicate Fails()
      reads this
    {
      !lenient && ended && iterators != iteratorEnds
    }

    method Next()
      requires |iterators| == |iteratorEnds|
      modifies this
      ensures |iterators| == |old(iterators)| && forall k | 0 <= k < |iterators| :: iterators[k] == old(iterators[k]) + 1
      ensures iteratorEnds == old(iteratorEnds) && lenient == old(lenient) && ended == AnyEqual(iterators, iteratorEnds)
    {
      iterators := seq(|iterators|, k requires 0 <= k < |iterators| reads this => iterators[k] + 1);
      ended := AnyEqual(iterators, iteratorEnds);
    }

    predicate Equals(other: ZipIterator)
      reads this, other
    {
      (ended && other.ended) || (!ended && !other.ended && iterators == other.iterators)
    }
  }

  function Repeated(n: nat, count: nat): (s: seq<nat>)
    ensures |s| == count && forall k | 0 <= k < count :: s[k] == n
  {
    seq(count, k => n)
  }

  predicate SameLengths<T>(ranges: seq<seq<T>>) {
    forall r, q | 0 <= r < |ranges| && 0 <= q < |ranges| :: |ranges[r]| == |ranges[q]|
  }

  lemma EndsAtLeast<T>(ranges: seq<seq<T>>, i: nat)
    requires ranges != [] && i <= Least(Lengths(ranges))
    ensures AnyEqual(Repeated(i, |ranges|), Lengths(ranges)) <==> i == Least(Lengths(ranges))
    ensures i == Least(Lengths(ranges)) ==> (Repeated(i, |ranges|) == Lengths(ranges) <==> SameLengths(ranges))
  {
    var ns := Lengths(ranges);
    var k :| 0 <= k < |ns| && ns[k] == Least(ns);
    if i == Least(ns) {
      assert Repeated(i, |ranges|)[k] == ns[k];
      if SameLengths(ranges) {
        assert forall r | 0 <= r < |ranges| :: |ranges[r]| == |ranges[k]|;
      } else {
        var r, q :| 0 <= r < |ranges| && 0 <= q < |ranges| && |ranges[r]| != |ranges[q]|;
        assert ns[r] != ns[q];
      }
    }
  }

  /** A loop over zip: the columns up to the shortest range; a strict zip then fails exactly if the
      lengths differ. */
  method RunZip<T>(lenient: bool, ranges: seq<seq<T>>) returns (out: seq<seq<T>>, thrown: bool)
    requires ranges != []
    ensures out == Columns(ranges, Least(Lengths(ranges)))
    ensures thrown <==> !lenient && !SameLengths(ranges)
  {
    hide Least, SameLengths;
    var ends := Lengths(ranges);
    var it := new ZipIterator(lenient, Repeated(0, |ranges|), ends);
    var end := new ZipIterator(lenient, ends, ends);
    AnyEqualAt(ends, ends, 0);
    out := [];
    EndsAtLeast(ranges, 0);
    if it.Fails() {
      return [], true;
    }
    ghost var i := 0;
    while !it.Equals(end)
      invariant it != end && it.lenient == lenient && it.iteratorEnds == ends && end.ended
      invariant i <= Least(ends) && it.iterators == Repeated(i, |ranges|) && it.ended == AnyEqual(it.iterators, ends)
      invariant out == Columns(ranges, i) && !it.Fails()
      decreases Least(ends) - i
    {
      EndsAtLeast(ranges, i);
      ColumnsGrow(ranges, i);
      var column := seq(|ranges|, r requires 0 <= r < |ranges| && r < |it.iterators| && it.iterators[r] < |ranges[r]|
                                    reads it => ranges[r][it.iterators[r]]);
      assert column == Column(ranges, i);
      out := out + [column];
      it.Next();
      i := i + 1;
      EndsAtLeast(ranges, i);
      assert it.iterators == Repeated(i, |ranges|);
      if it.Fails() {
        return out, true;
      }
    }
    EndsAtLeast(ranges, i);
    thrown := false;
  }

  // ---- enumerate ----

  datatype Cell<T> = Index(n: nat) | Value(x: T)

  function Indices<T>(n: nat): (s: seq<Cell<T>>)
    ensures |s| == n && forall k | 0 <= k < n :: s[k] == Index(k)
  {
    seq(n, k requires 0 <= k => Index(k))
  }

  function Cells<T>(s: seq<T>): (c: seq<Cell<T>>)
    ensures |c| == |s| && forall k | 0 <= k < |s| :: c[k] == Value(s[k])
  {
    seq(|s|, k requires 0 <= k < |s| => Value(s[k]))
  }

  /** Zipped leniently with a range that is long enough, every element comes with its index. */
  lemma EnumerateIs<T>(s: seq<T>, max: nat)
    requires |s| <= max
    ensures Least(Lengths([Indices<T>(max), Cells(s)])) == |s|
    ensures forall i | 0 <= i < |s| :: Columns([Indices<T>(max), Cells(s)], |s|)[i] == [Index(i), Value(s[i])]
  {
    var ranges := [Indices<T>(max), Cells(s)];
    assert Lengths(ranges) == [max, |s|];
    assert forall i | 0 <= i < |s| :: Column(ranges, i) == [Index(i), Value(s[i])];
  }

  // The largest value of the counter that enumerate zips with.
  const SIZE_MAX: nat := 0xFFFF_FFFF_FFFF_FFFF

  /** A loop over enumerate sees every element with its index, in order. */
  method RunEnumerate<T>(s: seq<T>) returns (out: seq<seq<Cell<T>>>)
    requires |s| <= SIZE_MAX
    ensures |out| == |s| && forall i | 0 <= i < |s| :: out[i] == [Index(i), Value(s[i])]
  {
    hide Least;
    EnumerateIs(s, SIZE_MAX);
    var thrown;
    out, thrown := RunZip(true, [Indices<T>(SIZE_MAX), Cells(s)]);
  }

  // ---- filter ----

  function Kept<T>(s: seq<T>, filter: T -> bool): (r: seq<T>)
  {
    if s == [] then [] else (if filter(s[0]) then [s[0]] else []) + Kept(s[1..], filter)
  }

  class FilteredIterator<T> {
    var base: nat
    const range: seq<T>
    const filter: T -> bool

    ghost predicate Valid()
      reads this
    {
      base <= |range| && (base < |range| ==> filter(range[base]))
    }

    constructor (range: seq<T>, base: nat, filter: T -> bool)
      requires base <= |range|
      ensures this.range == range && this.filter == filter && Valid() && base <= this.base
      ensures Kept(range[this.base..], filter) == Kept(range[base..], filter)
    {
      this.range, this.filter, this.base := range, filter, base;
      new;
      while this.base != |range| && !filter(range[this.base])
        invariant base <= this.base <= |range|
        invariant Kept(range[this.base..], filter) == Kept(range[base..], filter)
        decreases |range| - this.base
      {
        assert range[this.base..][1..] == range[this.base + 1..];
        this.base := this.base + 1;
      }
    }

    method Next()
      requires Valid() && base < |range|
      modifies this
      ensures Valid() && old(base) < base
      ensures Kept(range[old(base)..], filter) == [range[old(base)]] + Kept(range[base..], filter)
    {
      ghost var first := base;
      assert range[base..][1..] == range[base + 1..];
      base := base + 1;
      while base != |range| && !filter(range[base])
        invariant first < base <= |range|
        invariant Kept(range[first..], filter) == [range[first]] + Kept(range[base..], filter)
        decreases |range| - base
      {
        assert range[base..][1..] == range[base + 1..];
        base := base + 1;
      }
    }
  }

  /** A loop over a filtered range sees what is kept, in order. */
  method RunFilter<T>(range: seq<T>, filter: T -> bool) returns (out: seq<T>)
    ensures out == Kept(range, filter)
  {
    var it := new FilteredIterator(range, 0, filter);
    var end := new FilteredIterator(range, |range|, filter);
    assert range[0..] == range;
    out := [];
    while it.base != end.base
      invariant it != end && it.Valid() && it.range == range && it.filter == filter && end.base == |range|
      invariant out + Kept(range[it.base..], filter) == Kept(range, filter)
      decreases |range| - it.base
    {
      ghost var out0, b := out, it.base;
      out := out + [range[it.base]];
      it.Next();
      assert out + Kept(range[it.base..], filter) == out0 + ([range[b]] + Kept(range[it.base..], filter));
    }
  }

  lemma KeptOpens<T>(s: seq<T>, filter: T -> bool)
    ensures s == [] ==> Kept(s, filter) == []
    ensures s != [] ==> Kept(s, filter) == (if filter(s[0]) then [s[0]] else []) + Kept(s[1..], filter)
  {}

  lemma JoinOpens<T>(a: seq<T>, b: seq<T>)
    ensures a == [] ==> a + b == b
    ensures a != [] ==> (a + b)[0] == a[0] && (a + b)[1..] == a[1..] + b
  {}

  /** What is kept stays in order: it is kept piece by piece. */
  lemma {:induction false} KeptJoins<T>(a: seq<T>, b: seq<T>, filter: T -> bool)
    ensures Kept(a + b, filter) == Kept(a, filter) + Kept(b, filter)
  {
    hide *;
    JoinOpens(a, b);
    KeptOpens(a, filter);
    if a != [] {
      KeptOpens(a + b, filter);
      KeptJoins(a[1..], b, filter);
    }
  }

  /** What is kept: exactly the elements that pass, as often as they occur. */
  lemma {:induction false} KeptCounts<T>(s: seq<T>, filter: T -> bool, x: T)
    ensures multiset(Kept(s, filter))[x] == if filter(x) then multiset(s)[x] else 0
  {
    if s != [] {
      KeptCounts(s[1..], filter, x);
      assert s == [s[0]] + s[1..];
    }
  }
}
