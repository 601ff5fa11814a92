/** The imposed states in closed form: what every entry is after a list of time points. */
module ImposedStates {
  import opened Vectors
  import opened DynamicRupture

  // How far the imposed traction is from the one of the side.
  function Excess(sel: Selection, q: Vector, theta: Vector): (e: Vector)
    requires |q| == sel.quantities && |theta| == |sel.tractions|
    requires forall l | 0 <= l < |sel.tractions| :: sel.tractions[l] < sel.quantities
    ensures |e| == |theta| && forall l | 0 <= l < |e| :: e[l] == theta[l] - q[sel.tractions[l]]
  {
    seq(|theta|, l requires 0 <= l < |theta| => theta[l] - q[sel.tractions[l]])
  }

  // What the minus side answers to an imposed traction in direction l.
  function AnswerM(z: Interface, sel: Selection, q: Vector, theta: Vector, l: nat): (v: real)
    requires Fits(z, sel) && |q| == sel.quantities && |theta| == |sel.tractions| && l < |theta|
  {
    q[sel.velocities[l]] - Dot(z.zMinus[l], Excess(sel, q, theta))
  }

  function AnswerP(z: Interface, sel: Selection, q: Vector, theta: Vector, l: nat): (v: real)
    requires Fits(z, sel) && |q| == sel.quantities && |theta| == |sel.tractions| && l < |theta|
  {
    q[sel.velocities[l]] + Dot(z.zPlus[l], Excess(sel, q, theta))
  }

  lemma ExcessIs(sel: Selection, q: Vector, theta: Vector)
    requires Valid(sel) && |q| == sel.quantities && |theta| == |sel.tractions|
    ensures Minus(theta, Tractions(sel, q)) == Excess(sel, q, theta)
  {
    forall l | 0 <= l < |theta|
      ensures Tractions(sel, q)[l] == q[sel.tractions[l]]
    {
      PickedVelocity(sel, q, l);
    }
    hide Tractions, Valid;
  }

  lemma AppliedDifference(m: Matrix, n: nat, x: Vector, y: Vector, l: nat)
    requires Shape(m, n, n) && |x| == |y| == n && l < n
    ensures Dot(m[l], Minus(x, y)) == Dot(m[l], x) - Dot(m[l], y)
  {
    DotMinus(x, y, m[l]);
  }

  /** The minus side moves against the excess of traction over its own, the plus side with it, each
      scaled by its impedance; without excess both keep their velocity. */
  lemma VelocitiesAre(z: Interface, sel: Selection, qPlus: Vector, qMinus: Vector, theta: Vector, l: nat)
    requires Fits(z, sel) && |qPlus| == |qMinus| == sel.quantities && |theta| == |sel.tractions| && l < |theta|
    ensures VelocityM(z, sel, qMinus, theta)[l] == AnswerM(z, sel, qMinus, theta, l)
    ensures VelocityP(z, sel, qPlus, theta)[l] == AnswerP(z, sel, qPlus, theta, l)
  {
    hide Dot, Tractions, Velocities;
    PickedVelocity(sel, qMinus, l);
    PickedVelocity(sel, qPlus, l);
    ExcessIs(sel, qMinus, theta);
    ExcessIs(sel, qPlus, theta);
    AppliedDifference(z.zMinus, |theta|, theta, Tractions(sel, qMinus), l);
    AppliedDifference(z.zPlus, |theta|, theta, Tractions(sel, qPlus), l);
  }

  // ---- sums over the time points ----

  // The weighted sum of the tractions in direction l.
  function TractionSum(ps: seq<TimePoint>, points: nat, sel: Selection, i: nat, l: nat): (r: real)
    requires AllMeasured(ps, points, sel) && i < points && l < |sel.tractions|
  {
    if ps == [] then 0.0
    else
      var p := ps[|ps| - 1];
      TractionSum(ps[..|ps| - 1], points, sel, i, l) + p.weight * p.theta[i][l]
  }

  // The weighted sum of the velocities of the minus side in direction l.
  function VelocitySumM(ps: seq<TimePoint>, points: nat, z: Interface, sel: Selection, i: nat, l: nat): (r: real)
    requires Fits(z, sel) && AllMeasured(ps, points, sel) && i < points && l < |sel.tractions|
  {
    if ps == [] then 0.0
    else
      var p := ps[|ps| - 1];
      VelocitySumM(ps[..|ps| - 1], points, z, sel, i, l)
      + p.weight * AnswerM(z, sel, p.qMinus[i], p.theta[i], l)
  }

  function VelocitySumP(ps: seq<TimePoint>, points: nat, z: Interface, sel: Selection, i: nat, l: nat): (r: real)
    requires Fits(z, sel) && AllMeasured(ps, points, sel) && i < points && l < |sel.tractions|
  {
    if ps == [] then 0.0
    else
      var p := ps[|ps| - 1];
      VelocitySumP(ps[..|ps| - 1], points, z, sel, i, l)
      + p.weight * AnswerP(z, sel, p.qPlus[i], p.theta[i], l)
  }

  lemma TractionSumGrows(ps: seq<TimePoint>, points: nat, sel: Selection, i: nat, l: nat)
    requires AllMeasured(ps, points, sel) && i < points && l < |sel.tractions|
    ensures ps == [] ==> TractionSum(ps, points, sel, i, l) == 0.0
    ensures ps != [] ==>
              var p := ps[|ps| - 1];
              && AllMeasured(ps[..|ps| - 1], points, sel) && Measured(p, points, sel)
              && TractionSum(ps, points, sel, i, l)
              == TractionSum(ps[..|ps| - 1], points, sel, i, l) + p.weight * p.theta[i][l]
  {}

  lemma VelocitySumMGrows(ps: seq<TimePoint>, points: nat, z: Interface, sel: Selection, i: nat, l: nat)
    requires Fits(z, sel) && AllMeasured(ps, points, sel) && i < points && l < |sel.tractions|
    ensures ps == [] ==> VelocitySumM(ps, points, z, sel, i, l) == 0.0
    ensures ps != [] ==>
              var p := ps[|ps| - 1];
              && AllMeasured(ps[..|ps| - 1], points, sel) && Measured(p, points, sel)
              && VelocitySumM(ps, points, z, sel, i, l)
              == VelocitySumM(ps[..|ps| - 1], points, z, sel, i, l) + p.weight * AnswerM(z, sel, p.qMinus[i], p.theta[i], l)
  {
    hide AnswerM;
  }

  lemma VelocitySumPGrows(ps: seq<TimePoint>, points: nat, z: Interface, sel: Selection, i: nat, l: nat)
    requires Fits(z, sel) && AllMeasured(ps, points, sel) && i < points && l < |sel.tractions|
    ensures ps == [] ==> VelocitySumP(ps, points, z, sel, i, l) == 0.0
    ensures ps != [] ==>
              var p := ps[|ps| - 1];
              && AllMeasured(ps[..|ps| - 1], points, sel) && Measured(p, points, sel)
              && VelocitySumP(ps, points, z, sel, i, l)
              == VelocitySumP(ps[..|ps| - 1], points, z, sel, i, l) + p.weight * AnswerP(z, sel, p.qPlus[i], p.theta[i], l)
  {
    hide AnswerP;
  }

  /** The imposed tractions are the weighted sums of theta, on both sides. */
  lemma {:induction false} ImposedTractions(ps: seq<TimePoint>, points: nat, z: Interface, sel: Selection, i: nat, l: nat)
    requires Fits(z, sel) && AllMeasured(ps, points, sel) && i < points && l < |sel.tractions|
    ensures ImposedM(ps, points, z, sel, i, sel.tractions[l]) == TractionSum(ps, points, sel, i, l)
    ensures ImposedP(ps, points, z, sel, i, sel.tractions[l]) == TractionSum(ps, points, sel, i, l)
  {
    hide *;
    SelectedInside(z, sel, l);
    var k := sel.tractions[l];
    TractionSumGrows(ps, points, sel, i, l);
    if ps == [] {
      ImposedStarts(points, z, sel, i, k);
    } else {
      var last := |ps| - 1;
      var p := ps[last];
      Earlier(ps, points, sel, i);
      ImposedTractions(ps[..last], points, z, sel, i, l);
      ImposedGrows(ps, points, z, sel, i, k);
      ImposedTraction(ImposedM(ps[..last], points, z, sel, i, k), p.weight, sel,
                      VelocityM(z, sel, p.qMinus[i], p.theta[i]), p.theta[i], l);
      ImposedTraction(ImposedP(ps[..last], points, z, sel, i, k), p.weight, sel,
                      VelocityP(z, sel, p.qPlus[i], p.theta[i]), p.theta[i], l);
    }
  }

  /** The imposed velocities are the weighted sums of what each side answers to theta. */
  lemma {:induction false} ImposedVelocities(ps: seq<TimePoint>, points: nat, z: Interface, sel: Selection, i: nat, l: nat)
    requires Fits(z, sel) && AllMeasured(ps, points, sel) && i < points && l < |sel.tractions|
    ensures l < |sel.velocities| && sel.velocities[l] < sel.quantities
    ensures ImposedM(ps, points, z, sel, i, sel.velocities[l]) == VelocitySumM(ps, points, z, sel, i, l)
    ensures ImposedP(ps, points, z, sel, i, sel.velocities[l]) == VelocitySumP(ps, points, z, sel, i, l)
  {
    hide *;
    SelectedInside(z, sel, l);
    var k := sel.velocities[l];
    VelocitySumMGrows(ps, points, z, sel, i, l);
    VelocitySumPGrows(ps, points, z, sel, i, l);
    if ps == [] {
      ImposedStarts(points, z, sel, i, k);
    } else {
      var last := |ps| - 1;
      var p := ps[last];
      Earlier(ps, points, sel, i);
      var vm, vp := VelocityM(z, sel, p.qMinus[i], p.theta[i]), VelocityP(z, sel, p.qPlus[i], p.theta[i]);
      ImposedVelocities(ps[..last], points, z, sel, i, l);
      ImposedGrows(ps, points, z, sel, i, k);
      ImposedVelocity(ImposedM(ps[..last], points, z, sel, i, k), p.weight, sel, vm, p.theta[i], l);
      ImposedVelocity(ImposedP(ps[..last], points, z, sel, i, k), p.weight, sel, vp, p.theta[i], l);
      VelocitiesAre(z, sel, p.qPlus[i], p.qMinus[i], p.theta[i], l);
    }
  }

  lemma ImposedElsewhere(old0: real, weight: real, sel: Selection, velocity: Vector, theta: Vector, k: nat)
    requires Valid(sel) && |velocity| == |sel.velocities| && |theta| == |sel.tractions| && k < sel.quantities
    requires k !in sel.velocities && k !in sel.tractions
    ensures Imposed(old0, weight, sel, velocity, theta, k) == old0
  {
    hide Imposed;
    ImposedAt(old0, weight, sel, velocity, theta, k);
  }

  /** All other quantities stay zero. */
  lemma {:induction false} OthersAreZero(ps: seq<TimePoint>, points: nat, z: Interface, sel: Selection, i: nat, k: nat)
    requires Fits(z, sel) && AllMeasured(ps, points, sel) && i < points && k < sel.quantities
    requires k !in sel.velocities && k !in sel.tractions
    ensures ImposedM(ps, points, z, sel, i, k) == 0.0 && ImposedP(ps, points, z, sel, i, k) == 0.0
  {
    hide Imposed, VelocityM, VelocityP, ImposedM, ImposedP;
    if ps == [] {
      ImposedStarts(points, z, sel, i, k);
    } else {
      var last := |ps| - 1;
      var p := ps[last];
      Earlier(ps, points, sel, i);
      OthersAreZero(ps[..last], points, z, sel, i, k);
      ImposedGrows(ps, points, z, sel, i, k);
      ImposedElsewhere(0.0, p.weight, sel, VelocityM(z, sel, p.qMinus[i], p.theta[i]), p.theta[i], k);
      ImposedElsewhere(0.0, p.weight, sel, VelocityP(z, sel, p.qPlus[i], p.theta[i]), p.theta[i], k);
    }
  }
}
