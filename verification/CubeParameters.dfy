/** Which parameters the generator accepts. */
module CubeParameters {
  import opened CubeLayout
  import opened Wrappers

  datatype ParameterError =
    | TooFewCubes(dim: nat)
    | NotDistributable(dim: nat)
    | OddPartition(dim: nat)
    | WrongRankCount

  // The check of one direction, in the order of the source.
  function CheckDim(cubes: nat, parts: nat, dim: nat): (r: Option<ParameterError>)
    requires parts > 0
  {
    if cubes < 2 then Some(TooFewCubes(dim))
    else if cubes % parts != 0 then Some(NotDistributable(dim))
    else if (cubes / parts) % 2 != 0 then Some(OddPartition(dim))
    else None
  }

  predicate DimAccepted(cubes: nat, parts: nat)
    requires parts > 0
  {
    cubes >= 2 && cubes % parts == 0 && (cubes / parts) % 2 == 0
  }

  /** The cubes of one partition, or the first complaint. */
  method CheckParameters(cubes: seq<nat>, parts: seq<nat>, nProcs: nat) returns (r: Result<Dims, ParameterError>)
    requires |cubes| == 3 && |parts| == 3 && parts[0] > 0 && parts[1] > 0 && parts[2] > 0
    ensures r.Ok? <==> && (forall i | 0 <= i < 3 ::
                              cubes[i] >= 2 && cubes[i] % parts[i] == 0 && (cubes[i] / parts[i]) % 2 == 0)
                       && parts[0] * parts[1] * parts[2] == nProcs
    ensures r.Ok? ==> r.value == Dims(cubes[0] / parts[0], cubes[1] / parts[1], cubes[2] / parts[2])
    ensures r.Err? && r.error != WrongRankCount ==>
              r.error.dim < 3 && forall k | 0 <= k < r.error.dim :: DimAccepted(cubes[k], parts[k])
    ensures r.Err? ==>
              match r.error
              case TooFewCubes(i) => cubes[i] < 2
              case NotDistributable(i) => cubes[i] >= 2 && cubes[i] % parts[i] != 0
              case OddPartition(i) => cubes[i] >= 2 && cubes[i] % parts[i] == 0 && (cubes[i] / parts[i]) % 2 != 0
              case WrongRankCount => && (forall k | 0 <= k < 3 :: DimAccepted(cubes[k], parts[k]))
                                     && parts[0] * parts[1] * parts[2] != nProcs
  {
    for i := 0 to 3
      invariant forall k | 0 <= k < i :: DimAccepted(cubes[k], parts[k])
    {
      var found := CheckDim(cubes[i], parts[i], i);
      if found.Some? {
        return Err(found.value);
      }
    }
    if parts[0] * parts[1] * parts[2] != nProcs {
      return Err(WrongRankCount);
    }
    return Ok(Dims(cubes[0] / parts[0], cubes[1] / parts[1], cubes[2] / parts[2]));
  }

  /** What is accepted is what the loops rely on: at least two cubes in each direction of each
      partition, and an even number of them. */
  lemma AcceptedIsValid(nx: nat, ny: nat, nz: nat, px: nat)
    requires px > 0 && DimAccepted(nx, px) && DimAccepted(ny, 1) && DimAccepted(nz, 1)
    ensures Valid(Dims(nx / px, ny, nz)) && (nx / px) * px == nx
  {
    assert nx == (nx / px) * px + nx % px;
  }

  // Position x = rank is one of the partitions along x.
  predicate IsPartition(rank: nat, px: nat) {
    rank < px
  }

  /** Every rank finds a partition of its own at position x = rank exactly when the box is only
      divided along x; the parameter reader fixes the other two counts to one. */
  lemma RankIsPartitionIffOneRow(px: nat, py: nat, pz: nat)
    requires px > 0 && py > 0 && pz > 0
    ensures (forall rank: nat | rank < px * py * pz :: IsPartition(rank, px)) <==> py == 1 && pz == 1
  {
    if py == 1 && pz == 1 {
      assert px * py * pz == px;
    } else {
      RowProduct(px, py, pz);
      assert !IsPartition(px, px);
    }
  }

  lemma RowProduct(px: nat, py: nat, pz: nat)
    requires px > 0 && py > 0 && pz > 0 && !(py == 1 && pz == 1)
    ensures px < px * py * pz
  {
    ProductGrows(py, pz);
    ProductGrows(px, py * pz);
    Regrouped(px, py, pz);
  }

  lemma {:induction false} ProductGrows(a: nat, b: nat)
    requires a > 0 && b > 0
    ensures if b == 1 then a * b == a else a * b > a
  {
    if b > 1 {
      ProductGrows(a, b - 1);
      OneMore(a, b - 1);
    }
  }

  lemma OneMore(a: nat, b: nat)
    ensures a * (b + 1) == a * b + a
  {}

  lemma Regrouped(a: nat, b: nat, c: nat)
    ensures a * b * c == a * (b * c)
  {}
}
