/** The Godunov state at a fault: both sides of the interface get the same velocity and traction. */
module DynamicRupture {
  import opened Vectors

  // ---- velocities and tractions of a state ----

  /** The quantities that are velocities, and those that are tractions. */
  datatype Selection = Selection(velocities: seq<nat>, tractions: seq<nat>, quantities: nat)

  const ELASTIC := Selection([6, 7, 8], [0, 3, 5], 9)

  // No quantity is selected twice.
  ghost predicate Valid(sel: Selection) {
    && |sel.velocities| == |sel.tractions|
    && (forall l | 0 <= l < |sel.velocities| :: sel.velocities[l] < sel.quantities && sel.tractions[l] < sel.quantities)
    && (forall l, m | 0 <= l < m < |sel.velocities| :: sel.velocities[l] != sel.velocities[m])
    && (forall l, m | 0 <= l < m < |sel.tractions| :: sel.tractions[l] != sel.tractions[m])
    && (forall l, m | 0 <= l < |sel.velocities| && 0 <= m < |sel.tractions| :: sel.velocities[l] != sel.tractions[m])
  }

  lemma ElasticIsValid()
    ensures Valid(ELASTIC)
    ensures ELASTIC.quantities == 9 && ELASTIC.velocities == [6, 7, 8] && ELASTIC.tractions == [0, 3, 5]
  {
    var v, t := ELASTIC.velocities, ELASTIC.tractions;
    assert v == [6, 7, 8] && t == [0, 3, 5];
    assert forall l | 0 <= l < 3 :: v[l] == 6 + l;
    assert forall l | 0 <= l < 3 :: t[l] < 6;
    assert forall l, m | 0 <= l < m < 3 :: t[l] < t[m];
  }

  // One row for each selected quantity: a one in its column.
  function Extract(chosen: seq<nat>, n: nat): (m: Matrix)
    ensures |m| == |chosen| && forall l | 0 <= l < |chosen| :: m[l] == Unit(n, chosen[l])
  {
    seq(|chosen|, l requires 0 <= l < |chosen| => Unit(n, chosen[l]))
  }

  // Extract(...).T
  function MapTo(chosen: seq<nat>, n: nat): (m: Matrix)
    ensures |m| == n && forall k | 0 <= k < n :: |m[k]| == |chosen|
    ensures forall k, l | 0 <= k < n && 0 <= l < |chosen| :: m[k][l] == Extract(chosen, n)[l][k]
  {
    seq(n, k requires 0 <= k < n => MapRow(chosen, n, k))
  }

  function MapRow(chosen: seq<nat>, n: nat, k: nat): (r: Vector)
    requires k < n
    ensures |r| == |chosen| && forall l | 0 <= l < |chosen| :: r[l] == Extract(chosen, n)[l][k]
  {
    seq(|chosen|, l requires 0 <= l < |chosen| => Extract(chosen, n)[l][k])
  }

  /** Extraction picks the selected quantities. */
  lemma ExtractPicks(chosen: seq<nat>, q: Vector, l: nat)
    requires l < |chosen| && chosen[l] < |q|
    ensures Apply(Extract(chosen, |q|), q)[l] == q[chosen[l]]
  {
    DotUnit(Unit(|q|, chosen[l]), chosen[l], q);
  }

  /** Mapping puts a selected quantity back where it was, and zero elsewhere. */
  lemma MapPuts(chosen: seq<nat>, n: nat, x: Vector, k: nat)
    requires |x| == |chosen| && k < n
    requires forall l, m | 0 <= l < m < |chosen| :: chosen[l] != chosen[m]
    ensures forall l | 0 <= l < |chosen| && chosen[l] == k :: Dot(MapTo(chosen, n)[k], x) == x[l]
    ensures k !in chosen ==> Dot(MapTo(chosen, n)[k], x) == 0.0
  {
    forall l | 0 <= l < |chosen| && chosen[l] == k
      ensures Dot(MapTo(chosen, n)[k], x) == x[l]
    {
      DotUnit(MapTo(chosen, n)[k], l, x);
    }
    if k !in chosen {
      DotZero(MapTo(chosen, n)[k], x);
    }
  }

  function Velocities(sel: Selection, q: Vector): (v: Vector)
    requires |q| == sel.quantities
    ensures |v| == |sel.velocities|
  {
    Apply(Extract(sel.velocities, |q|), q)
  }

  function Tractions(sel: Selection, q: Vector): (t: Vector)
    requires |q| == sel.quantities
    ensures |t| == |sel.tractions|
  {
    Apply(Extract(sel.tractions, |q|), q)
  }

  /** The impedances of both sides and the matrix between them. */
  datatype Interface = Interface(zPlus: Matrix, zMinus: Matrix, eta: Matrix)

  ghost predicate Fits(z: Interface, sel: Selection) {
    && Valid(sel)
    && Shape(z.zPlus, |sel.tractions|, |sel.tractions|)
    && Shape(z.zMinus, |sel.tractions|, |sel.tractions|)
    && Shape(z.eta, |sel.tractions|, |sel.tractions|)
  }

  // What is driven through the interface: the velocity jump and the scaled tractions.
  function Drive(z: Interface, sel: Selection, qPlus: Vector, qMinus: Vector): (b: Vector)
    requires Fits(z, sel) && |qPlus| == |qMinus| == sel.quantities
    ensures |b| == |sel.tractions|
  {
    Plus(Plus(Minus(Velocities(sel, qMinus), Velocities(sel, qPlus)), Apply(z.zPlus, Tractions(sel, qPlus))),
         Apply(z.zMinus, Tractions(sel, qMinus)))
  }

  // computeTheta at one point, summed term by term
  function Theta(z: Interface, sel: Selection, qPlus: Vector, qMinus: Vector): (theta: Vector)
    requires Fits(z, sel) && |qPlus| == |qMinus| == sel.quantities
    ensures |theta| == |sel.tractions|
  {
    Plus(Plus(Apply(z.eta, Minus(Velocities(sel, qMinus), Velocities(sel, qPlus))),
              Apply(z.eta, Apply(z.zPlus, Tractions(sel, qPlus)))),
         Apply(z.eta, Apply(z.zMinus, Tractions(sel, qMinus))))
  }

  function VelocityM(z: Interface, sel: Selection, qMinus: Vector, theta: Vector): (v: Vector)
    requires Fits(z, sel) && |qMinus| == sel.quantities && |theta| == |sel.tractions|
    ensures |v| == |sel.tractions|
  {
    Plus(Minus(Velocities(sel, qMinus), Apply(z.zMinus, theta)), Apply(z.zMinus, Tractions(sel, qMinus)))
  }

  function VelocityP(z: Interface, sel: Selection, qPlus: Vector, theta: Vector): (v: Vector)
    requires Fits(z, sel) && |qPlus| == sel.quantities && |theta| == |sel.tractions|
    ensures |v| == |sel.tractions|
  {
    Plus(Minus(Velocities(sel, qPlus), Apply(z.zPlus, Tractions(sel, qPlus))), Apply(z.zPlus, theta))
  }

  // ---- one time point ----

  lemma ThetaIsDriven(z: Interface, sel: Selection, qPlus: Vector, qMinus: Vector)
    requires Fits(z, sel) && |qPlus| == |qMinus| == sel.quantities
    ensures Theta(z, sel, qPlus, qMinus) == Apply(z.eta, Drive(z, sel, qPlus, qMinus))
  {
    var n := |sel.tractions|;
    var jump := Minus(Velocities(sel, qMinus), Velocities(sel, qPlus));
    var a, b := Apply(z.zPlus, Tractions(sel, qPlus)), Apply(z.zMinus, Tractions(sel, qMinus));
    hide Apply, Tractions, Velocities;
    ApplyPlus(z.eta, n, Plus(jump, a), b);
    ApplyPlus(z.eta, n, jump, a);
  }

  /** Whatever theta is imposed, the two velocities differ by what it fails to balance. */
  lemma VelocityJump(z: Interface, sel: Selection, qPlus: Vector, qMinus: Vector, theta: Vector)
    requires Fits(z, sel) && |qPlus| == |qMinus| == sel.quantities && |theta| == |sel.tractions|
    ensures Shape(PlusMatrix(z.zPlus, z.zMinus), |theta|, |theta|)
    ensures Minus(VelocityM(z, sel, qMinus, theta), VelocityP(z, sel, qPlus, theta))
         == Minus(Drive(z, sel, qPlus, qMinus), Apply(PlusMatrix(z.zPlus, z.zMinus), theta))
  {
    ApplyPlusMatrix(z.zPlus, z.zMinus, |theta|, theta);
    var tp, tm := Tractions(sel, qPlus), Tractions(sel, qMinus);
    JumpRegrouped(Velocities(sel, qMinus), Velocities(sel, qPlus), Apply(z.zMinus, theta), Apply(z.zMinus, tm),
                  Apply(z.zPlus, tp), Apply(z.zPlus, theta));
    hide Apply, Tractions, Velocities, PlusMatrix, Plus, Minus, Shape, Valid;
  }

  // eta inverts the sum of the impedances.
  ghost predicate Matched(z: Interface, n: nat)
    requires Shape(z.zPlus, n, n) && Shape(z.zMinus, n, n) && Shape(z.eta, n, n)
  {
    Inverts(PlusMatrix(z.zPlus, z.zMinus), z.eta, n)
  }

  ghost predicate Continuous(z: Interface, sel: Selection, qPlus: Vector, qMinus: Vector)
    requires Fits(z, sel) && |qPlus| == |qMinus| == sel.quantities
  {
    VelocityM(z, sel, qMinus, Theta(z, sel, qPlus, qMinus)) == VelocityP(z, sel, qPlus, Theta(z, sel, qPlus, qMinus))
  }

  lemma ContinuousMeans(z: Interface, sel: Selection, qPlus: Vector, qMinus: Vector)
    requires Fits(z, sel) && |qPlus| == |qMinus| == sel.quantities
    ensures var theta := Theta(z, sel, qPlus, qMinus);
            Continuous(z, sel, qPlus, qMinus) <==> VelocityM(z, sel, qMinus, theta) == VelocityP(z, sel, qPlus, theta)
  {}

  lemma ContinuousIfBalanced(z: Interface, sel: Selection, qPlus: Vector, qMinus: Vector)
    requires Fits(z, sel) && |qPlus| == |qMinus| == sel.quantities
    ensures Shape(PlusMatrix(z.zPlus, z.zMinus), |sel.tractions|, |sel.tractions|)
    ensures var b := Drive(z, sel, qPlus, qMinus);
            Continuous(z, sel, qPlus, qMinus) <==> Apply(PlusMatrix(z.zPlus, z.zMinus), Apply(z.eta, b)) == b
  {
    var theta := Theta(z, sel, qPlus, qMinus);
    var m, p := VelocityM(z, sel, qMinus, theta), VelocityP(z, sel, qPlus, theta);
    var b, a := Drive(z, sel, qPlus, qMinus), Apply(PlusMatrix(z.zPlus, z.zMinus), theta);
    VelocityJump(z, sel, qPlus, qMinus, theta);
    ThetaIsDriven(z, sel, qPlus, qMinus);
    hide *;
    SameDifference(m, p, b, a);
    ContinuousMeans(z, sel, qPlus, qMinus);
  }

  /** With a matched interface both sides move alike. */
  lemma MatchedIsContinuous(z: Interface, sel: Selection, qPlus: Vector, qMinus: Vector)
    requires Fits(z, sel) && |qPlus| == |qMinus| == sel.quantities && Matched(z, |sel.tractions|)
    ensures Continuous(z, sel, qPlus, qMinus)
  {
    ContinuousIfBalanced(z, sel, qPlus, qMinus);
    InverseUndoes(PlusMatrix(z.zPlus, z.zMinus), z.eta, |sel.tractions|, Drive(z, sel, qPlus, qMinus));
  }

  // ---- only a matched interface is continuous ----

  lemma PickedVelocity(sel: Selection, q: Vector, l: nat)
    requires Valid(sel) && |q| == sel.quantities && l < |sel.velocities|
    ensures Velocities(sel, q)[l] == q[sel.velocities[l]] && Tractions(sel, q)[l] == q[sel.tractions[l]]
  {
    ExtractPicks(sel.velocities, q, l);
    ExtractPicks(sel.tractions, q, l);
  }

  lemma RestHasNoTraction(sel: Selection, j: nat)
    requires Valid(sel) && j < |sel.velocities|
    ensures Velocities(sel, Unit(sel.quantities, sel.velocities[j])) == Unit(|sel.velocities|, j)
    ensures Tractions(sel, Unit(sel.quantities, sel.velocities[j])) == Zeros(|sel.tractions|)
    ensures Velocities(sel, Zeros(sel.quantities)) == Zeros(|sel.velocities|)
    ensures Tractions(sel, Zeros(sel.quantities)) == Zeros(|sel.tractions|)
  {
    var q := Unit(sel.quantities, sel.velocities[j]);
    forall l | 0 <= l < |sel.velocities|
      ensures Velocities(sel, q)[l] == Unit(|sel.velocities|, j)[l] && Tractions(sel, q)[l] == 0.0
      ensures Velocities(sel, Zeros(sel.quantities))[l] == 0.0 && Tractions(sel, Zeros(sel.quantities))[l] == 0.0
    {
      PickedVelocity(sel, q, l);
      PickedVelocity(sel, Zeros(sel.quantities), l);
    }
  }

  // One side at rest, the other moving in direction j without traction.
  lemma DriveOfUnit(z: Interface, sel: Selection, j: nat)
    requires Fits(z, sel) && j < |sel.velocities|
    ensures Drive(z, sel, Zeros(sel.quantities), Unit(sel.quantities, sel.velocities[j])) == Unit(|sel.tractions|, j)
  {
    RestHasNoTraction(sel, j);
    ApplyZero(z.zPlus, |sel.tractions|, Zeros(|sel.tractions|));
    ApplyZero(z.zMinus, |sel.tractions|, Zeros(|sel.tractions|));
    hide Apply, Velocities, Tractions, Valid, Shape;
  }

  ghost predicate AlwaysContinuous(z: Interface, sel: Selection)
    requires Fits(z, sel)
  {
    forall qPlus: Vector, qMinus: Vector | |qPlus| == |qMinus| == sel.quantities :: Continuous(z, sel, qPlus, qMinus)
  }

  lemma UnitBalanced(z: Interface, sel: Selection, j: nat)
    requires Fits(z, sel) && j < |sel.tractions| && AlwaysContinuous(z, sel)
    ensures Shape(PlusMatrix(z.zPlus, z.zMinus), |sel.tractions|, |sel.tractions|)
    ensures var e := Unit(|sel.tractions|, j); Apply(PlusMatrix(z.zPlus, z.zMinus), Apply(z.eta, e)) == e
  {
    var qPlus, qMinus := Zeros(sel.quantities), Unit(sel.quantities, sel.velocities[j]);
    assert Continuous(z, sel, qPlus, qMinus);
    ContinuousIfBalanced(z, sel, qPlus, qMinus);
    DriveOfUnit(z, sel, j);
  }

  /** Both sides always move alike exactly when eta inverts the sum of the impedances. */
  lemma ContinuousIffMatched(z: Interface, sel: Selection)
    requires Fits(z, sel)
    ensures AlwaysContinuous(z, sel) <==> Matched(z, |sel.tractions|)
  {
    var n := |sel.tractions|;
    var sum := PlusMatrix(z.zPlus, z.zMinus);
    if Matched(z, n) {
      forall qPlus: Vector, qMinus: Vector | |qPlus| == |qMinus| == sel.quantities
        ensures Continuous(z, sel, qPlus, qMinus)
      {
        MatchedIsContinuous(z, sel, qPlus, qMinus);
      }
    }
    if AlwaysContinuous(z, sel) {
      forall j | 0 <= j < n
        ensures Apply(sum, Apply(z.eta, Unit(n, j))) == Unit(n, j)
      {
        UnitBalanced(z, sel, j);
      }
      UndoneUnitsInvert(sum, z.eta, n);
    }
  }

  // ---- the kernels, point by point ----

  type Rows = seq<Vector>

  ghost predicate AllOf(rows: Rows, points: nat, n: nat) {
    |rows| == points && forall i | 0 <= i < points :: |rows[i]| == n
  }

  // imposedState["ik"] + weight * mapToVelocities["kl"] * velocity["il"] + weight * mapToTractions["kl"] * theta["il"]
  function Imposed(old0: real, weight: real, sel: Selection, velocity: Vector, theta: Vector, k: nat): (r: real)
    requires |velocity| == |sel.velocities| && |theta| == |sel.tractions| && k < sel.quantities
  {
    old0 + weight * Dot(MapTo(sel.velocities, sel.quantities)[k], velocity)
         + weight * Dot(MapTo(sel.tractions, sel.quantities)[k], theta)
  }

  lemma ImposedParts(old0: real, weight: real, sel: Selection, velocity: Vector, theta: Vector, k: nat, v: real, t: real)
    requires |velocity| == |sel.velocities| && |theta| == |sel.tractions| && k < sel.quantities
    requires Dot(MapTo(sel.velocities, sel.quantities)[k], velocity) == v
    requires Dot(MapTo(sel.tractions, sel.quantities)[k], theta) == t
    ensures Imposed(old0, weight, sel, velocity, theta, k) == old0 + weight * v + weight * t
  {
    hide Dot, MapTo;
  }

  /** Only the selected quantities are imposed. */
  lemma ImposedAt(old0: real, weight: real, sel: Selection, velocity: Vector, theta: Vector, k: nat)
    requires Valid(sel) && |velocity| == |sel.velocities| && |theta| == |sel.tractions| && k < sel.quantities
    ensures forall l | 0 <= l < |velocity| && sel.velocities[l] == k ::
              Imposed(old0, weight, sel, velocity, theta, k) == old0 + weight * velocity[l]
    ensures forall l | 0 <= l < |theta| && sel.tractions[l] == k ::
              Imposed(old0, weight, sel, velocity, theta, k) == old0 + weight * theta[l]
    ensures k !in sel.velocities && k !in sel.tractions ==> Imposed(old0, weight, sel, velocity, theta, k) == old0
  {
    hide Imposed, Dot, MapTo;
    MapPuts(sel.velocities, sel.quantities, velocity, k);
    MapPuts(sel.tractions, sel.quantities, theta, k);
    ImposedParts(old0, weight, sel, velocity, theta, k, Dot(MapTo(sel.velocities, sel.quantities)[k], velocity),
                 Dot(MapTo(sel.tractions, sel.quantities)[k], theta));
  }

  method ComputeTheta(z: Interface, sel: Selection, qPlus: Rows, qMinus: Rows) returns (theta: Rows)
    requires Fits(z, sel) && AllOf(qPlus, |qPlus|, sel.quantities) && AllOf(qMinus, |qPlus|, sel.quantities)
    ensures AllOf(theta, |qPlus|, |sel.tractions|)
    ensures forall i | 0 <= i < |qPlus| :: theta[i] == Apply(z.eta, Drive(z, sel, qPlus[i], qMinus[i]))
  {
    hide Valid, Drive, Theta, Apply;
    theta := [];
    for i := 0 to |qPlus|
      invariant AllOf(theta, i, |sel.tractions|)
      invariant forall p | 0 <= p < i :: theta[p] == Theta(z, sel, qPlus[p], qMinus[p])
    {
      theta := theta + [Theta(z, sel, qPlus[i], qMinus[i])];
    }
    forall i | 0 <= i < |qPlus|
      ensures theta[i] == Apply(z.eta, Drive(z, sel, qPlus[i], qMinus[i]))
    {
      ThetaIsDriven(z, sel, qPlus[i], qMinus[i]);
    }
  }

  // Everything one call of the two kernels reads.
  datatype TimePoint = TimePoint(weight: real, qPlus: Rows, qMinus: Rows, theta: Rows)

  ghost predicate Measured(p: TimePoint, points: nat, sel: Selection) {
    && AllOf(p.qPlus, points, sel.quantities) && AllOf(p.qMinus, points, sel.quantities)
    && AllOf(p.theta, points, |sel.tractions|)
  }

  ghost predicate AllMeasured(ps: seq<TimePoint>, points: nat, sel: Selection) {
    forall o | 0 <= o < |ps| :: Measured(ps[o], points, sel)
  }

  /** The minus state after a list of time points, from zero. */
  function ImposedM(ps: seq<TimePoint>, points: nat, z: Interface, sel: Selection, i: nat, k: nat): (r: real)
    requires Fits(z, sel) && AllMeasured(ps, points, sel) && i < points && k < sel.quantities
  {
    if ps == [] then 0.0
    else
      var p := ps[|ps| - 1];
      Imposed(ImposedM(ps[..|ps| - 1], points, z, sel, i, k), p.weight, sel, VelocityM(z, sel, p.qMinus[i], p.theta[i]),
              p.theta[i], k)
  }

  /** The plus state after a list of time points, from zero. */
  function ImposedP(ps: seq<TimePoint>, points: nat, z: Interface, sel: Selection, i: nat, k: nat): (r: real)
    requires Fits(z, sel) && AllMeasured(ps, points, sel) && i < points && k < sel.quantities
  {
    if ps == [] then 0.0
    else
      var p := ps[|ps| - 1];
      Imposed(ImposedP(ps[..|ps| - 1], points, z, sel, i, k), p.weight, sel, VelocityP(z, sel, p.qPlus[i], p.theta[i]),
              p.theta[i], k)
  }

  method AddRow(imposed: array2<real>, i: nat, weight: real, sel: Selection, velocity: Vector, theta: Vector)
    requires i < imposed.Length0 && imposed.Length1 == sel.quantities
    requires |velocity| == |sel.velocities| && |theta| == |sel.tractions|
    modifies imposed
    ensures forall p, k | 0 <= p < imposed.Length0 && 0 <= k < sel.quantities ::
              imposed[p, k] == if p == i then Imposed(old(imposed[p, k]), weight, sel, velocity, theta, k)
                               else old(imposed[p, k])
  {
    hide Imposed;
    for k := 0 to sel.quantities
      invariant forall p, m | 0 <= p < imposed.Length0 && 0 <= m < sel.quantities ::
                  imposed[p, m] == if p == i && m < k then Imposed(old(imposed[p, m]), weight, sel, velocity, theta, m)
                                   else old(imposed[p, m])
    {
      imposed[i, k] := Imposed(imposed[i, k], weight, sel, velocity, theta, k);
    }
  }

  method ComputeImposedStateM(imposed: array2<real>, weight: real, z: Interface, sel: Selection, qMinus: Rows, theta: Rows)
    requires Fits(z, sel) && AllOf(qMinus, imposed.Length0, sel.quantities)
    requires AllOf(theta, imposed.Length0, |sel.tractions|)
    requires imposed.Length1 == sel.quantities
    modifies imposed
    ensures forall i, k | 0 <= i < imposed.Length0 && 0 <= k < sel.quantities ::
              imposed[i, k] == Imposed(old(imposed[i, k]), weight, sel, VelocityM(z, sel, qMinus[i], theta[i]), theta[i], k)
  {
    hide Imposed, VelocityM;
    for i := 0 to imposed.Length0
      invariant forall p, k | 0 <= p < imposed.Length0 && 0 <= k < sel.quantities ::
                  imposed[p, k] == if p < i
                                   then Imposed(old(imposed[p, k]), weight, sel, VelocityM(z, sel, qMinus[p], theta[p]), theta[p], k)
                                   else old(imposed[p, k])
    {
      AddRow(imposed, i, weight, sel, VelocityM(z, sel, qMinus[i], theta[i]), theta[i]);
    }
  }

  method ComputeImposedStateP(imposed: array2<real>, weight: real, z: Interface, sel: Selection, qPlus: Rows, theta: Rows)
    requires Fits(z, sel) && AllOf(qPlus, imposed.Length0, sel.quantities) && AllOf(theta, imposed.Length0, |sel.tractions|)
    requires imposed.Length1 == sel.quantities
    modifies imposed
    ensures forall i, k | 0 <= i < imposed.Length0 && 0 <= k < sel.quantities ::
              imposed[i, k] == Imposed(old(imposed[i, k]), weight, sel, VelocityP(z, sel, qPlus[i], theta[i]), theta[i], k)
  {
    hide Imposed, VelocityP;
    for i := 0 to imposed.Length0
      invariant forall p, k | 0 <= p < imposed.Length0 && 0 <= k < sel.quantities ::
                  imposed[p, k] == if p < i
                                   then Imposed(old(imposed[p, k]), weight, sel, VelocityP(z, sel, qPlus[p], theta[p]), theta[p], k)
                                   else old(imposed[p, k])
    {
      AddRow(imposed, i, weight, sel, VelocityP(z, sel, qPlus[i], theta[i]), theta[i]);
    }
  }

  method ClearState(imposed: array2<real>)
    modifies imposed
    ensures forall i, k | 0 <= i < imposed.Length0 && 0 <= k < imposed.Length1 :: imposed[i, k] == 0.0
  {
    for i := 0 to imposed.Length0
      invariant forall p, k | 0 <= p < i && 0 <= k < imposed.Length1 :: imposed[p, k] == 0.0
    {
      for m := 0 to imposed.Length1
        invariant forall p, k | 0 <= p < i && 0 <= k < imposed.Length1 :: imposed[p, k] == 0.0
        invariant forall k | 0 <= k < m :: imposed[i, k] == 0.0
      {
        imposed[i, m] := 0.0;
      }
    }
  }

  ghost predicate HoldsM(imposed: array2<real>, ps: seq<TimePoint>, points: nat, z: Interface, sel: Selection)
    reads imposed
    requires Fits(z, sel) && AllMeasured(ps, points, sel)
  {
    && imposed.Length0 == points && imposed.Length1 == sel.quantities
    && forall i, k | 0 <= i < points && 0 <= k < sel.quantities :: imposed[i, k] == ImposedM(ps, points, z, sel, i, k)
  }

  ghost predicate HoldsP(imposed: array2<real>, ps: seq<TimePoint>, points: nat, z: Interface, sel: Selection)
    reads imposed
    requires Fits(z, sel) && AllMeasured(ps, points, sel)
  {
    && imposed.Length0 == points && imposed.Length1 == sel.quantities
    && forall i, k | 0 <= i < points && 0 <= k < sel.quantities :: imposed[i, k] == ImposedP(ps, points, z, sel, i, k)
  }

  /** postcomputeImposedStateFromNewStress: both states from zero, time point by time point. */
  method PostcomputeImposedState(imposedM: array2<real>, imposedP: array2<real>, ps: seq<TimePoint>, z: Interface,
                                 sel: Selection)
    requires imposedM != imposedP && Fits(z, sel) && AllMeasured(ps, imposedM.Length0, sel)
    requires imposedM.Length0 == imposedP.Length0 && imposedM.Length1 == imposedP.Length1 == sel.quantities
    modifies imposedM, imposedP
    ensures HoldsM(imposedM, ps, imposedM.Length0, z, sel) && HoldsP(imposedP, ps, imposedM.Length0, z, sel)
  {
    hide Imposed, VelocityM, VelocityP, Fits;
    ClearState(imposedM);
    ClearState(imposedP);
    for o := 0 to |ps|
      invariant HoldsM(imposedM, ps[..o], imposedM.Length0, z, sel)
      invariant HoldsP(imposedP, ps[..o], imposedM.Length0, z, sel)
    {
      assert ps[..o + 1][..o] == ps[..o];
      ComputeImposedStateM(imposedM, ps[o].weight, z, sel, ps[o].qMinus, ps[o].theta);
      ComputeImposedStateP(imposedP, ps[o].weight, z, sel, ps[o].qPlus, ps[o].theta);
    }
    assert ps[..|ps|] == ps;
  }

  // ---- continuity over a whole run ----

  lemma ImposedVelocity(old0: real, weight: real, sel: Selection, velocity: Vector, theta: Vector, l: nat)
    requires Valid(sel) && |velocity| == |sel.velocities| && |theta| == |sel.tractions| && l < |velocity|
    ensures sel.velocities[l] < sel.quantities
    ensures Imposed(old0, weight, sel, velocity, theta, sel.velocities[l]) == old0 + weight * velocity[l]
  {
    ImposedAt(old0, weight, sel, velocity, theta, sel.velocities[l]);
  }

  lemma ImposedTraction(old0: real, weight: real, sel: Selection, velocity: Vector, theta: Vector, l: nat)
    requires Valid(sel) && |velocity| == |sel.velocities| && |theta| == |sel.tractions| && l < |theta|
    ensures sel.tractions[l] < sel.quantities
    ensures Imposed(old0, weight, sel, velocity, theta, sel.tractions[l]) == old0 + weight * theta[l]
  {
    ImposedAt(old0, weight, sel, velocity, theta, sel.tractions[l]);
  }

  lemma SelectedInside(z: Interface, sel: Selection, l: nat)
    requires Fits(z, sel) && (l < |sel.tractions| || l < |sel.velocities|)
    ensures Valid(sel) && |sel.velocities| == |sel.tractions|
    ensures sel.velocities[l] < sel.quantities && sel.tractions[l] < sel.quantities
  {}

  lemma Earlier(ps: seq<TimePoint>, points: nat, sel: Selection, i: nat)
    requires AllMeasured(ps, points, sel) && ps != [] && i < points
    ensures AllMeasured(ps[..|ps| - 1], points, sel) && Measured(ps[|ps| - 1], points, sel)
    ensures var p := ps[|ps| - 1];
            && |p.qMinus| == |p.qPlus| == |p.theta| == points
            && |p.qMinus[i]| == |p.qPlus[i]| == sel.quantities && |p.theta[i]| == |sel.tractions|
  {}

  lemma ImposedStarts(points: nat, z: Interface, sel: Selection, i: nat, k: nat)
    requires Fits(z, sel) && AllMeasured([], points, sel) && i < points && k < sel.quantities
    ensures ImposedM([], points, z, sel, i, k) == 0.0 && ImposedP([], points, z, sel, i, k) == 0.0
  {}

  lemma ImposedGrows(ps: seq<TimePoint>, points: nat, z: Interface, sel: Selection, i: nat, k: nat)
    requires Fits(z, sel) && AllMeasured(ps, points, sel) && i < points && k < sel.quantities && ps != []
    ensures AllMeasured(ps[..|ps| - 1], points, sel) && Measured(ps[|ps| - 1], points, sel)
    ensures var p := ps[|ps| - 1];
            && ImposedM(ps, points, z, sel, i, k)
            == Imposed(ImposedM(ps[..|ps| - 1], points, z, sel, i, k), p.weight, sel,
                       VelocityM(z, sel, p.qMinus[i], p.theta[i]), p.theta[i], k)
            && ImposedP(ps, points, z, sel, i, k)
            == Imposed(ImposedP(ps[..|ps| - 1], points, z, sel, i, k), p.weight, sel,
                       VelocityP(z, sel, p.qPlus[i], p.theta[i]), p.theta[i], k)
  {
    hide Imposed, VelocityM, VelocityP;
  }

  /** The tractions of both sides agree, whatever traction is imposed. */
  lemma {:induction false} TractionsAgree(ps: seq<TimePoint>, points: nat, z: Interface, sel: Selection, i: nat, l: nat)
    requires Fits(z, sel) && AllMeasured(ps, points, sel) && i < points && l < |sel.tractions|
    ensures ImposedM(ps, points, z, sel, i, sel.tractions[l]) == ImposedP(ps, points, z, sel, i, sel.tractions[l])
  {
    hide *;
    SelectedInside(z, sel, l);
    var k := sel.tractions[l];
    if ps == [] {
      ImposedStarts(points, z, sel, i, k);
    } else {
      var last := |ps| - 1;
      var p := ps[last];
      Earlier(ps, points, sel, i);
      TractionsAgree(ps[..last], points, z, sel, i, l);
      ImposedGrows(ps, points, z, sel, i, k);
      ImposedTraction(ImposedM(ps[..last], points, z, sel, i, k), p.weight, sel,
                      VelocityM(z, sel, p.qMinus[i], p.theta[i]), p.theta[i], l);
      ImposedTraction(ImposedP(ps[..last], points, z, sel, i, k), p.weight, sel,
                      VelocityP(z, sel, p.qPlus[i], p.theta[i]), p.theta[i], l);
    }
  }

  // The imposed traction is the one that was computed.
  ghost predicate Locked(p: TimePoint, points: nat, z: Interface, sel: Selection)
    requires Fits(z, sel) && Measured(p, points, sel)
  {
    forall i | 0 <= i < points :: p.theta[i] == Theta(z, sel, p.qPlus[i], p.qMinus[i])
  }

  /** If the computed traction is imposed and the interface is matched, the velocities agree too. */
  lemma {:induction false} VelocitiesAgree(ps: seq<TimePoint>, points: nat, z: Interface, sel: Selection, i: nat, l: nat)
    requires Fits(z, sel) && AllMeasured(ps, points, sel) && i < points && l < |sel.velocities|
    requires Matched(z, |sel.tractions|) && forall o | 0 <= o < |ps| :: Locked(ps[o], points, z, sel)
    ensures ImposedM(ps, points, z, sel, i, sel.velocities[l]) == ImposedP(ps, points, z, sel, i, sel.velocities[l])
  {
    if ps != [] {
      var last := |ps| - 1;
      var p := ps[last];
      var k := sel.velocities[l];
      VelocitiesAgree(ps[..last], points, z, sel, i, l);
      MatchedIsContinuous(z, sel, p.qPlus[i], p.qMinus[i]);
      hide VelocityM, VelocityP, Imposed, Theta, Matched;
      assert Locked(p, points, z, sel);
      ImposedVelocity(ImposedM(ps[..last], points, z, sel, i, k), p.weight, sel,
                      VelocityM(z, sel, p.qMinus[i], p.theta[i]), p.theta[i], l);
      ImposedVelocity(ImposedP(ps[..last], points, z, sel, i, k), p.weight, sel,
                      VelocityP(z, sel, p.qPlus[i], p.theta[i]), p.theta[i], l);
    }
  }

  /** The sum over all time points of what the imposed traction fails to balance. */
  function Unbalanced(ps: seq<TimePoint>, points: nat, z: Interface, sel: Selection, i: nat, l: nat): (r: real)
    requires Fits(z, sel) && AllMeasured(ps, points, sel) && i < points && l < |sel.velocities|
    requires Shape(PlusMatrix(z.zPlus, z.zMinus), |sel.tractions|, |sel.tractions|)
  {
    if ps == [] then 0.0
    else
      var p := ps[|ps| - 1];
      Unbalanced(ps[..|ps| - 1], points, z, sel, i, l)
      + p.weight * (Drive(z, sel, p.qPlus[i], p.qMinus[i])[l] - Apply(PlusMatrix(z.zPlus, z.zMinus), p.theta[i])[l])
  }

  lemma UnbalancedStarts(points: nat, z: Interface, sel: Selection, i: nat, l: nat)
    requires Fits(z, sel) && AllMeasured([], points, sel) && i < points && l < |sel.velocities|
    requires Shape(PlusMatrix(z.zPlus, z.zMinus), |sel.tractions|, |sel.tractions|)
    ensures Unbalanced([], points, z, sel, i, l) == 0.0
  {}

  lemma UnbalancedGrows(ps: seq<TimePoint>, points: nat, z: Interface, sel: Selection, i: nat, l: nat)
    requires Fits(z, sel) && AllMeasured(ps, points, sel) && i < points && l < |sel.velocities| && ps != []
    requires Shape(PlusMatrix(z.zPlus, z.zMinus), |sel.tractions|, |sel.tractions|)
    ensures AllMeasured(ps[..|ps| - 1], points, sel) && Measured(ps[|ps| - 1], points, sel)
    ensures var p := ps[|ps| - 1];
            (Unbalanced(ps, points, z, sel, i, l)
             == Unbalanced(ps[..|ps| - 1], points, z, sel, i, l)
                + p.weight * (Drive(z, sel, p.qPlus[i], p.qMinus[i])[l] - Apply(PlusMatrix(z.zPlus, z.zMinus), p.theta[i])[l]))
  {
    hide Drive, Apply, PlusMatrix;
  }

  lemma JumpSizes(z: Interface, sel: Selection, qPlus: Vector, qMinus: Vector, theta: Vector)
    requires Fits(z, sel) && |qPlus| == |qMinus| == sel.quantities && |theta| == |sel.tractions|
    requires Shape(PlusMatrix(z.zPlus, z.zMinus), |theta|, |theta|)
    ensures |VelocityM(z, sel, qMinus, theta)| == |VelocityP(z, sel, qPlus, theta)| == |theta|
    ensures |Drive(z, sel, qPlus, qMinus)| == |Apply(PlusMatrix(z.zPlus, z.zMinus), theta)| == |theta|
  {
    hide PlusMatrix;
  }

  lemma TimePointSlip(m0: real, p0: real, w: real, z: Interface, sel: Selection, qPlus: Vector, qMinus: Vector,
                      theta: Vector, l: nat)
    requires Fits(z, sel) && |qPlus| == |qMinus| == sel.quantities && |theta| == |sel.tractions| && l < |theta|
    ensures Shape(PlusMatrix(z.zPlus, z.zMinus), |theta|, |theta|)
    ensures Imposed(m0, w, sel, VelocityM(z, sel, qMinus, theta), theta, sel.velocities[l])
          - Imposed(p0, w, sel, VelocityP(z, sel, qPlus, theta), theta, sel.velocities[l])
         == (m0 - p0) + w * (Drive(z, sel, qPlus, qMinus)[l] - Apply(PlusMatrix(z.zPlus, z.zMinus), theta)[l])
  {
    hide VelocityM, VelocityP, Imposed, Drive, Apply, PlusMatrix, Minus;
    VelocityJump(z, sel, qPlus, qMinus, theta);
    JumpSizes(z, sel, qPlus, qMinus, theta);
    var vm, vp := VelocityM(z, sel, qMinus, theta), VelocityP(z, sel, qPlus, theta);
    var b, a := Drive(z, sel, qPlus, qMinus), Apply(PlusMatrix(z.zPlus, z.zMinus), theta);
    MinusAt(vm, vp, b, a, l);
    ImposedVelocity(m0, w, sel, vm, theta, l);
    ImposedVelocity(p0, w, sel, vp, theta, l);
    WeightedDifference(m0, p0, m0 - p0, w, vm[l], vp[l], b[l] - a[l]);
  }

  lemma SumShape(z: Interface, sel: Selection)
    requires Fits(z, sel)
    ensures Shape(PlusMatrix(z.zPlus, z.zMinus), |sel.tractions|, |sel.tractions|)
  {}

  /** With any imposed traction, the velocities of both sides drift apart by exactly that sum. */
  lemma {:induction false} SlipIsUnbalanced(ps: seq<TimePoint>, points: nat, z: Interface, sel: Selection, i: nat, l: nat)
    requires Fits(z, sel) && AllMeasured(ps, points, sel) && i < points && l < |sel.velocities|
    ensures Shape(PlusMatrix(z.zPlus, z.zMinus), |sel.tractions|, |sel.tractions|)
    ensures ImposedM(ps, points, z, sel, i, sel.velocities[l]) - ImposedP(ps, points, z, sel, i, sel.velocities[l])
         == Unbalanced(ps, points, z, sel, i, l)
  {
    hide *;
    SumShape(z, sel);
    SelectedInside(z, sel, l);
    var k := sel.velocities[l];
    if ps == [] {
      ImposedStarts(points, z, sel, i, k);
      UnbalancedStarts(points, z, sel, i, l);
    } else {
      var last := |ps| - 1;
      var p := ps[last];
      Earlier(ps, points, sel, i);
      SlipIsUnbalanced(ps[..last], points, z, sel, i, l);
      ImposedGrows(ps, points, z, sel, i, k);
      UnbalancedGrows(ps, points, z, sel, i, l);
      TimePointSlip(ImposedM(ps[..last], points, z, sel, i, k), ImposedP(ps[..last], points, z, sel, i, k), p.weight, z, sel,
                    p.qPlus[i], p.qMinus[i], p.theta[i], l);
    }
  }
}
