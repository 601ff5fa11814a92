/** Real vectors and matrices of any size: products, linearity, and what it means that one matrix
    inverts another. */
module Vectors {

  type Vector = seq<real>
  type Matrix = seq<seq<real>>

  ghost predicate Shape(m: Matrix, rows: nat, cols: nat) {
    |m| == rows && forall i | 0 <= i < rows :: |m[i]| == cols
  }

  function Dot(x: Vector, y: Vector): (r: real)
    requires |x| == |y|
  {
    if x == [] then 0.0 else x[0] * y[0] + Dot(x[1..], y[1..])
  }

  function Plus(x: Vector, y: Vector): (r: Vector)
    requires |x| == |y|
    ensures |r| == |x| && forall k | 0 <= k < |x| :: r[k] == x[k] + y[k]
  {
    seq(|x|, k requires 0 <= k < |x| => x[k] + y[k])
  }

  function Minus(x: Vector, y: Vector): (r: Vector)
    requires |x| == |y|
    ensures |r| == |x| && forall k | 0 <= k < |x| :: r[k] == x[k] - y[k]
  {
    seq(|x|, k requires 0 <= k < |x| => x[k] - y[k])
  }

  function Product(s: real, x: real): (r: real) {
    s * x
  }

  function Scaled(s: real, x: Vector): (r: Vector)
    ensures |r| == |x| && forall k | 0 <= k < |x| :: r[k] == Product(s, x[k])
  {
    seq(|x|, k requires 0 <= k < |x| => Product(s, x[k]))
  }

  lemma ScaledRest(s: real, x: Vector)
    requires x != []
    ensures Scaled(s, x)[1..] == Scaled(s, x[1..])
  {
    hide Product;
  }

  function Unit(n: nat, i: nat): (r: Vector)
    ensures |r| == n && forall k | 0 <= k < n :: r[k] == if k == i then 1.0 else 0.0
  {
    seq(n, k => if k == i then 1.0 else 0.0)
  }

  function Apply(m: Matrix, x: Vector): (r: Vector)
    requires Shape(m, |m|, |x|)
    ensures |r| == |m| && forall i | 0 <= i < |m| :: r[i] == Dot(m[i], x)
  {
    seq(|m|, i requires 0 <= i < |m| => Dot(m[i], x))
  }

  // The row x times the matrix b of n columns.
  function RowTimes(x: Vector, b: Matrix, n: nat): (r: Vector)
    requires Shape(b, |x|, n)
    ensures |r| == n
  {
    if x == [] then Scaled(0.0, Unit(n, 0)) else Plus(Scaled(x[0], b[0]), RowTimes(x[1..], b[1..], n))
  }

  ghost predicate Inverts(a: Matrix, b: Matrix, n: nat)
    requires Shape(a, n, n) && Shape(b, n, n)
  {
    forall i | 0 <= i < n :: RowTimes(a[i], b, n) == Unit(n, i)
  }

  lemma {:induction false} DotPlus(x: Vector, y: Vector, z: Vector)
    requires |x| == |y| == |z|
    ensures Dot(Plus(x, y), z) == Dot(x, z) + Dot(y, z)
  {
    if x != [] {
      DotPlus(x[1..], y[1..], z[1..]);
      assert Plus(x, y)[1..] == Plus(x[1..], y[1..]);
    }
  }

  lemma {:induction false} DotMinus(x: Vector, y: Vector, z: Vector)
    requires |x| == |y| == |z|
    ensures Dot(z, Minus(x, y)) == Dot(z, x) - Dot(z, y)
  {
    if x != [] {
      DotMinus(x[1..], y[1..], z[1..]);
      assert Minus(x, y)[1..] == Minus(x[1..], y[1..]);
    }
  }

  lemma {:induction false} DotScaled(s: real, x: Vector, y: Vector)
    requires |x| == |y|
    ensures Dot(Scaled(s, x), y) == s * Dot(x, y)
  {
    if x != [] {
      DotScaled(s, x[1..], y[1..]);
      ScaledRest(s, x);
      Associate(s, x[0], y[0], Dot(x[1..], y[1..]));
    }
  }

  lemma Associate(s: real, x: real, y: real, d: real)
    ensures (s * x) * y + s * d == s * (x * y + d)
  {}

  lemma {:induction false} DotZero(x: Vector, y: Vector)
    requires |x| == |y| && forall k | 0 <= k < |x| :: x[k] == 0.0
    ensures Dot(x, y) == 0.0
  {
    if x != [] {
      DotZero(x[1..], y[1..]);
    }
  }

  /** A unit vector picks one entry. */
  lemma {:induction false} DotUnit(x: Vector, i: nat, y: Vector)
    requires |x| == |y| && i < |x| && forall k | 0 <= k < |x| :: x[k] == if k == i then 1.0 else 0.0
    ensures Dot(x, y) == y[i]
  {
    if i == 0 {
      DotZero(x[1..], y[1..]);
    } else {
      DotUnit(x[1..], i - 1, y[1..]);
    }
  }

  /** (x b) . y == x . (b y) */
  lemma FirstOfDot(x: Vector, y: Vector, z: real)
    requires |x| == |y| > 0 && y[0] == z
    ensures Dot(x, y) == Product(x[0], z) + Dot(x[1..], y[1..])
  {}

  lemma FirstOfRows(x: Vector, b: Matrix, n: nat, y: Vector)
    requires x != [] && Shape(b, |x|, n) && |y| == n
    ensures Dot(RowTimes(x, b, n), y) == Product(x[0], Dot(b[0], y)) + Dot(RowTimes(x[1..], b[1..], n), y)
  {
    hide Dot, Scaled, Unit;
    DotPlus(Scaled(x[0], b[0]), RowTimes(x[1..], b[1..], n), y);
    DotScaled(x[0], b[0], y);
  }

  lemma FirstApplied(b: Matrix, n: nat, y: Vector)
    requires b != [] && Shape(b, |b|, n) && |y| == n
    ensures Apply(b, y)[0] == Dot(b[0], y) && Apply(b, y)[1..] == Apply(b[1..], y)
  {
    hide Dot;
  }

  lemma {:induction false} RowTimesDot(x: Vector, b: Matrix, n: nat, y: Vector)
    requires Shape(b, |x|, n) && |y| == n
    ensures Dot(RowTimes(x, b, n), y) == Dot(x, Apply(b, y))
  {
    if x == [] {
      DotZero(Scaled(0.0, Unit(n, 0)), y);
    } else {
      hide Dot, RowTimes, Apply, Product;
      RowTimesDot(x[1..], b[1..], n, y);
      FirstOfRows(x, b, n, y);
      FirstApplied(b, n, y);
      FirstOfDot(x, Apply(b, y), Dot(b[0], y));
    }
  }

  /** An inverse undoes: a (b y) == y. */
  lemma InverseUndoes(a: Matrix, b: Matrix, n: nat, y: Vector)
    requires Shape(a, n, n) && Shape(b, n, n) && Inverts(a, b, n) && |y| == n
    ensures Apply(a, Apply(b, y)) == y
  {
    forall i | 0 <= i < n
      ensures Dot(a[i], Apply(b, y)) == y[i]
    {
      RowTimesDot(a[i], b, n, y);
      DotUnit(Unit(n, i), i, y);
    }
  }

  function PlusMatrix(a: Matrix, b: Matrix): (r: Matrix)
    requires |a| == |b| && forall i | 0 <= i < |a| :: |a[i]| == |b[i]|
    ensures |r| == |a| && forall i | 0 <= i < |a| :: r[i] == Plus(a[i], b[i])
  {
    seq(|a|, i requires 0 <= i < |a| && |a[i]| == |b[i]| => Plus(a[i], b[i]))
  }

  lemma ApplyPlusMatrix(a: Matrix, b: Matrix, n: nat, y: Vector)
    requires Shape(a, n, n) && Shape(b, n, n) && |y| == n
    ensures Shape(PlusMatrix(a, b), n, n) && Apply(PlusMatrix(a, b), y) == Plus(Apply(a, y), Apply(b, y))
  {
    forall i | 0 <= i < n
      ensures Dot(PlusMatrix(a, b)[i], y) == Dot(a[i], y) + Dot(b[i], y)
    {
      DotPlus(a[i], b[i], y);
    }
  }

  lemma ApplyPlus(m: Matrix, n: nat, x: Vector, y: Vector)
    requires Shape(m, n, n) && |x| == |y| == n
    ensures Apply(m, Plus(x, y)) == Plus(Apply(m, x), Apply(m, y))
  {
    forall i | 0 <= i < n
      ensures Dot(m[i], Plus(x, y)) == Dot(m[i], x) + Dot(m[i], y)
    {
      DotMinus(Plus(x, y), y, m[i]);
      assert Minus(Plus(x, y), y) == x;
    }
  }

  lemma JumpRegrouped(vm: Vector, vp: Vector, mTheta: Vector, m: Vector, p: Vector, pTheta: Vector)
    requires |vm| == |vp| == |mTheta| == |m| == |p| == |pTheta|
    ensures Minus(Plus(Minus(vm, mTheta), m), Plus(Minus(vp, p), pTheta))
         == Minus(Plus(Plus(Minus(vm, vp), p), m), Plus(pTheta, mTheta))
  {}

  lemma SameDifference(m: Vector, p: Vector, b: Vector, a: Vector)
    requires |m| == |p| == |b| == |a| && Minus(m, p) == Minus(b, a)
    ensures m == p <==> a == b
  {
    assert forall k | 0 <= k < |m| :: Minus(m, p)[k] == m[k] - p[k] && Minus(b, a)[k] == b[k] - a[k];
  }

  lemma ApplyZero(m: Matrix, n: nat, x: Vector)
    requires Shape(m, n, n) && |x| == n && forall k | 0 <= k < n :: x[k] == 0.0
    ensures forall i | 0 <= i < n :: Apply(m, x)[i] == 0.0
  {
    forall i | 0 <= i < n
      ensures Dot(m[i], x) == 0.0
    {
      DotMinus(x, x, m[i]);
      assert Minus(x, x) == x;
    }
  }

  function Zeros(n: nat): (r: Vector)
    ensures |r| == n && forall k | 0 <= k < n :: r[k] == 0.0
  {
    seq(n, k => 0.0)
  }

  lemma {:induction false} DotUnitRight(x: Vector, i: nat, y: Vector)
    requires |x| == |y| && i < |x| && y == Unit(|x|, i)
    ensures Dot(x, y) == x[i]
  {
    DotTurned(x, y);
    DotUnit(y, i, x);
  }

  lemma {:induction false} DotTurned(x: Vector, y: Vector)
    requires |x| == |y|
    ensures Dot(x, y) == Dot(y, x)
  {
    if x != [] {
      DotTurned(x[1..], y[1..]);
    }
  }

  lemma UndoneUnitsInvert(a: Matrix, b: Matrix, n: nat)
    requires Shape(a, n, n) && Shape(b, n, n)
    requires forall j | 0 <= j < n :: Apply(a, Apply(b, Unit(n, j))) == Unit(n, j)
    ensures Inverts(a, b, n)
  {
    forall i, j | 0 <= i < n && 0 <= j < n
      ensures RowTimes(a[i], b, n)[j] == Unit(n, i)[j]
    {
      RowTimesDot(a[i], b, n, Unit(n, j));
      DotUnitRight(RowTimes(a[i], b, n), j, Unit(n, j));
      assert Apply(a, Apply(b, Unit(n, j)))[i] == Unit(n, j)[i];
    }
    assert forall i | 0 <= i < n :: RowTimes(a[i], b, n) == Unit(n, i);
  }

  lemma WeightedDifference(m: real, p: real, u: real, w: real, vm: real, vp: real, d: real)
    requires m - p == u && vm - vp == d
    ensures (m + w * vm) - (p + w * vp) == u + w * d
  {}

  lemma MinusAt(x: Vector, y: Vector, b: Vector, a: Vector, l: nat)
    requires |x| == |y| == |b| == |a| && l < |x| && Minus(x, y) == Minus(b, a)
    ensures x[l] - y[l] == b[l] - a[l]
  {
    assert Minus(x, y)[l] == Minus(b, a)[l];
  }
}
