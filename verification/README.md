# Verified models of SeisSol's index arithmetic and state machines

A Dafny 4.11 project about those parts of SeisSol in which correctness rests on discrete reasoning: the
structured tetrahedral mesh generator, and around it a test runner's re-entry protocol, a glob matcher, a
tolerance sort, the code generators of the element kernels, the Godunov state at a fault, a mask parser and
the lazy iterators. `dafny verify dfyconfig.toml` checks everything.

**The mesh generator** (`Cube*.dfy`). A box of nx by ny by nz cubes, all three even, is cut into five
tetrahedra a cube, along different diagonals in even and odd cubes. `CubeTables` holds the constant tables,
`CubeLayout` the correspondence between flat array slots and (cube, tetrahedron, side), `CubeMesh` what each
array means, side by side. `CubeFill`, `CubeVertices`, `CubeIncidence` and `CubeExchange` are the loops of the
generator over real arrays, each proved to leave its array in exactly that meaning; `CubeGenerator` is the
class whose constructor runs them all. The results are about that meaning or about the built objects
(`CubeTheorems`, `CubeBorderArrays`, `CubePositions`): the mesh is conforming with the stored orientations
(across a periodic wrap the points are one box size apart in the direction of the plane), following a neighbor
twice leads back exactly if the periodic tags come in pairs, no shared triangle is missing from the arrays,
two ranks agree on every triangle between them, the tetrahedra tile the box, vertices are numbered one to one
and lie where the scales put them, and tags, ranks and sentinels stand at the sides their coordinates say. The
box sizes, the number of ranks along x, the tags and the coordinates are arbitrary.

**The test runner** (`Subcases`, `SubcaseRuns`, `Wildcard`). A test case is a tree of subcases with
signatures. The class `Context` runs it as the source does, pass by pass; a value-level specification of one
pass carries the proof that the n-th pass runs the n-th leaf, and `SubcaseRuns` says for every tree, with
equal siblings or not, which leaves a whole run executes. `WildCmp` keeps the source's four positions and is
proved against the recursive meaning of `*` and `?`.

**Comparing two meshes** (`FuzzySort`, `SortedGeometry`). Points are columns of real coordinate rows. The
exact coordinates are a ghost argument: the sort never sees them, and its contract says when it finds their
order all the same.

**Kernels** (`KernelLanguage`, `KernelMatrices`, `LinearKernels`, `TimeKernels`, `KernelSlices`,
`FusedKernels`, `FusedForms`). An emitted kernel is a list of assignments `target[idx] <= sum of products`;
its meaning is the summation convention over real tensors of any size. The order in which letters are summed
is proved irrelevant. `AddTime` builds the time kernels in its loop as the generator does; the flux kernels
are expressions as in the source. `DynamicRupture`, on top of the linear algebra in `Vectors`, has the
interface kernels over arrays, for any number of quantities and any selection of velocities and tractions, and
`ImposedStates` their results in closed form.

**Mask and iterators** (`MaskRegex`, `MaskParser`, `MaskAcceptance`, `MaskRoundTrip`, `Iterators`). The
regular expression is a value with a language; searching is proved to find exactly its matches. Exceptions are
results (`Wrappers`), and `MaskAcceptance` says of every text when there is none and which one there is. The
iterators are classes run by the loop a range-based `for` stands for.

Where the code does not do what its documentation or its shape suggests, the code is modelled and the exact
condition is proved:

- Following neighbor and side twice returns to the start if and only if periodic tags come in min/max pairs
  (`InvolutionIffPaired`); the code accepts unpaired tags.
- With two ranks and periodic x borders both exchange lists go to the same rank, and the second replaces the
  first in the map of neighbors (`ListsKeptIff`).
- A subcase with the signature of an earlier sibling is never entered. A run executes exactly the leaves that
  are not below such a subcase, in order and once each (`RunExecutes`), which are all leaves if and only if
  siblings have distinct signatures (`RunsEachLeafOnceIff`).
- `fuzzysort` of no point or one point raises an error, although a sorted list of one point is obvious
  (`FuzzySort`).
- The expression of the mask accepts items that then fail. Parsing succeeds if and only if no number of an item
  exceeds the largest `int`, no list has a comma before its closing brace, on which `stoi` fails
  (`TrailingCommaFails`), and no range ends at the largest `int`, where its loop counter overflows
  (`ItemOutcome` for every accepted item, `SucceedsIffItemsFit` for every text).
- `Range` with `start > stop` yields `start` instead of nothing, because the constructor clamps its parameter
  and not the member; with a positive step the loop yields the documented steps if and only if `start <= stop`
  (`RunRange`). With a step of zero or less it may miss its end: exactly when it ends is `RangeEndsIff`.

## Model

| member | source | states |
|---|---|---|
| CubeTables.TablesLeadBack | src/Geometry/CubeGenerator.cpp:55-62 | the side behind a side, looked up from there, is the first side again, with the same orientation, in all 40 rows |
| CubeTables.TableCornersMeet | src/Geometry/CubeGenerator.cpp:42-62 | corner k of a side and corner (h - k) mod 3 of the side the table names are the same lattice point, one cube further if the side is on the cube's surface |
| CubeLayout.CellIsSourceIndex | src/Geometry/CubeGenerator.cpp:262 | the layout's number of a cube is the index the loops compute |
| CubeLayout.SlotOf | src/Geometry/CubeGenerator.cpp:258-277 | slots and (cube, tetrahedron, entry) correspond one to one |
| CubeConformity.StoredIsMate | src/Geometry/CubeGenerator.cpp:295-459 | whatever the arrays name as neighbor and side of a side is the side geometrically behind it |
| CubeConformity.NeighborIsStored | src/Geometry/CubeGenerator.cpp:337-459 | a side has a neighbor in the array if and only if the arrays name the element and side geometrically behind it; otherwise the sentinel stands there |
| CubeConformity.SidesConform | src/Geometry/CubeGenerator.cpp:42-62 | a stored neighbor side has the same three corners, corner k meeting corner (h - k) mod 3 of the stored orientation h; across a periodic wrap they are exactly one box size apart in the direction of that plane and equal in the others |
| CubeConformity.StoredBack | src/Geometry/CubeGenerator.cpp:295-459 | the neighbor of a stored neighbor is the first side with the same orientation, except where one plane is periodic and the opposite one is not |
| CubeConformity.UnpairedBreaks | src/Geometry/CubeGenerator.cpp:351-456 | where a plane is periodic and the one facing it is not, the mate of the first side of the plane is stored and does not name that side in turn |
| CubeConformity.InvolutionIffPaired | src/Geometry/CubeGenerator.cpp:337-459 | following neighbor and side twice returns to the same element and side everywhere, if and only if periodic tags come in pairs |
| CubeSharedTriangles.SharedTrianglesAreStored | src/Geometry/CubeGenerator.cpp:295-459 | two different sides inside the box have the same corners if and only if each array entry names the other: no shared triangle is missing |
| CubeBorder.OnBorderIffLiesIn | src/Geometry/CubeGenerator.cpp:463-612 | the sides the border loops patch are exactly those whose three corners lie in the border plane |
| CubeBorder.SideKinds | src/Geometry/CubeGenerator.cpp:338-1102 | without periodic tags every side is exactly one of local interior, rank border, domain border with the tag of its plane and side and orientation 0, decided by where its corners lie |
| CubeBorderArrays.BoundaryIs | src/Geometry/CubeGenerator.cpp:461-621 | for any tags: a side whose corners lie in a plane of the whole box has the tag of the plane, every other side 0 |
| CubeBorderArrays.NeighborRankIs | src/Geometry/CubeGenerator.cpp:925-1102 | for any tags: the rank behind the plane if it is shared, the own rank otherwise |
| CubeBorderArrays.BorderTags | src/Geometry/CubeGenerator.cpp:461-621 | in the built object, in coordinates: the six tags at x = 0 of the first rank, x = nx of the last, and the four other planes, periodic or not; 0 at all other sides |
| CubeBorderArrays.BorderRanks | src/Geometry/CubeGenerator.cpp:925-1102 | in the built object: the rank before or after at the x planes, around the box exactly with tag 6, the own rank at all other sides |
| CubeBorderArrays.BorderSentinel | src/Geometry/CubeGenerator.cpp:337-459 | in the built object: the number 5 nx ny nz stands exactly at the sides in planes without tag 6, and in the x planes if there are several ranks |
| CubeBorderArrays.BorderSides | src/Geometry/CubeGenerator.cpp:623-921 | in the built object: side and orientation are 0 in the planes of the box without tag 6, rows of the tables elsewhere |
| CubeBorderArrays.BorderPlaces | src/Geometry/CubeGenerator.cpp:1196-1276 | in the built object: the places in an exchange list run row by row, two a cube, tetrahedron 0 first at x = 0 and tetrahedron 1 first at x = nx |
| CubeCount.NoNeighborIffOpen | src/Geometry/CubeGenerator.cpp:351-456 | the sentinel stands exactly at the sides in planes that are not wrapped |
| CubeCount.OpenSidesTotal | src/Geometry/CubeGenerator.cpp:337-459 | there are 4(nx ny + ny nz + nx nz) sides without a neighbor |
| CubeTiling.NoOverlap | src/Geometry/CubeGenerator.cpp:42-53 | no real point is interior to two tetrahedra |
| CubeTiling.BoxCovered | src/Geometry/CubeGenerator.cpp:42-53 | every real point of the box lies in some tetrahedron |
| CubeTiling.Volumes | src/Geometry/CubeGenerator.cpp:42-53 | every tetrahedron is positively oriented: six times its volume is 1, or 2 for the middle one |
| CubeTiling.TotalVolume | src/Geometry/CubeGenerator.cpp:258-277 | six times the volumes add up to 6 nx ny nz |
| CubeParameters.CheckParameters | src/Geometry/CubeGenerator.cpp:133-158 | accepts exactly at least two cubes, divisible, an even number per partition in each direction, and the matching number of ranks; otherwise the first complaint, which is true of its direction |
| CubeParameters.AcceptedIsValid | src/Geometry/CubeGenerator.cpp:133-158 | what is accepted is what the border loops rely on |
| CubeFill.FillMinX | src/Geometry/CubeGenerator.cpp:469-488 | exactly the sides in the plane x = 0 get the value, everything else is kept |
| CubeFill.FillMaxX | src/Geometry/CubeGenerator.cpp:489-516 | exactly the sides in the last x plane get the value, although parity is taken from y and z alone |
| CubeFill.FillMinY | src/Geometry/CubeGenerator.cpp:517-536 | exactly the sides in the plane y = 0 get the value |
| CubeFill.FillMaxY | src/Geometry/CubeGenerator.cpp:537-564 | exactly the sides in the last y plane get the value |
| CubeFill.FillMinZ | src/Geometry/CubeGenerator.cpp:565-582 | exactly the sides in the plane z = 0 get the value |
| CubeFill.FillMaxZ | src/Geometry/CubeGenerator.cpp:583-612 | exactly the sides in the last z plane get the value |
| CubeFill.ComputeBoundaries | src/Geometry/CubeGenerator.cpp:461-621 | every slot holds the tag of the box plane its side lies on, periodic or not, 0 elsewhere |
| CubeFill.ComputeNeighborSides | src/Geometry/CubeGenerator.cpp:623-790 | every slot holds the side behind, and 0 in box planes that are not periodic |
| CubeFill.NoTurnInY | src/Geometry/CubeGenerator.cpp:865-868 | sides in the y planes have orientation 0 anyway, so their loops may be missing |
| CubeFill.ComputeSideOrientations | src/Geometry/CubeGenerator.cpp:794-921 | every slot holds the orientation, and 0 in all box planes that are not periodic |
| CubeFill.ComputeNeighborRanks | src/Geometry/CubeGenerator.cpp:925-1102 | every slot holds the rank behind its side |
| CubeFill.OffsetIsStep | src/Geometry/CubeGenerator.cpp:295-335 | the offset table is the step to the cube behind a side and the tetrahedron there |
| CubeFill.PatchX | src/Geometry/CubeGenerator.cpp:351-387 | the patch at the x planes wraps or sets the sentinel at exactly the sides there |
| CubeFill.PatchY | src/Geometry/CubeGenerator.cpp:388-424 | the same at the y planes |
| CubeFill.PatchZ | src/Geometry/CubeGenerator.cpp:425-456 | the same at the z planes |
| CubeFill.PatchedIsNeighbor | src/Geometry/CubeGenerator.cpp:345-456 | offset and patch together name the element behind the side, around the box where the plane is periodic |
| CubeFill.ComputeNeighbors | src/Geometry/CubeGenerator.cpp:337-459 | every slot holds the element behind its side or the sentinel |
| CubeVertices.ComputeCorners | src/Geometry/CubeGenerator.cpp:255-277 | every slot holds its corner's lattice point |
| CubeVertices.NumberVertices | src/Geometry/CubeGenerator.cpp:279-292 | the loop numbers the points it meets one to one from 0, and writes each point's number |
| CubeVertices.FlipMap | src/Geometry/CubeGenerator.cpp:1421-1426 | the flipped map is the exact inverse, defined for every number |
| CubeVertices.CornersAreLattice | src/Geometry/CubeGenerator.cpp:42-53 | the corners of all tetrahedra are exactly the lattice points of the partition box |
| CubeVertices.SameIdIffSamePoint | src/Geometry/CubeGenerator.cpp:279-292 | two corners have one vertex number if and only if they are one point |
| CubeIncidence.FindElementsPerVertex | src/Geometry/CubeGenerator.cpp:1516-1524 | each vertex list is the specified list of incident elements |
| CubeIncidence.IncidentIffCorner | src/Geometry/CubeGenerator.cpp:1516-1524 | an element is in a vertex's list if and only if the vertex is one of its corners |
| CubeIncidence.IncidentIncreases | src/Geometry/CubeGenerator.cpp:1516-1524 | every list is strictly increasing |
| CubeIncidence.LengthsAddUp | src/Geometry/CubeGenerator.cpp:1516-1524 | the lengths of all lists add up to the number of corners |
| CubeExchange.BuildMinXList | src/Geometry/CubeGenerator.cpp:1196-1219 | list entry and index array agree side by side, 2 ny nz entries, other indices kept, no write outside |
| CubeExchange.BuildMaxXList | src/Geometry/CubeGenerator.cpp:1234-1276 | the same for the last x plane |
| CubeExchange.PlacesDiffer | src/Geometry/CubeGenerator.cpp:1196-1276 | no two sides of a plane share a place |
| CubeExchange.PlacesTaken | src/Geometry/CubeGenerator.cpp:1196-1276 | every place is taken |
| CubeExchange.SamePlaceIffMate | src/Geometry/CubeGenerator.cpp:1196-1276 | a side of the last plane and one of the first plane have the same place if and only if they are the two sides of one triangle |
| CubeExchange.RanksAgree | src/Geometry/CubeGenerator.cpp:623-1102 | sides at the same place name each other's rank and side, with equal orientation, and their corners meet one partition further |
| CubeExchange.SharedCoordinate | src/Geometry/CubeGenerator.cpp:1443-1446 | both ranks compute the same coordinate for a shared point |
| CubeGenerator.ComputeExchange | src/Geometry/CubeGenerator.cpp:1114-1394 | the lists of a rank, in order, with the ranks they go to |
| CubeGenerator.ComputeCoords | src/Geometry/CubeGenerator.cpp:1428-1463 | every vertex has the position of its lattice point, which `CubePositions` pins down |
| CubeGenerator.CubeGenerator.AddMPINeighbor | src/Geometry/CubeGenerator.cpp:1526-1541 | the neighbor's entry is replaced |
| CubeGenerator.CubeGenerator.RegisterNeighbors | src/Geometry/CubeGenerator.cpp:1467-1493 | all lists are entered in order |
| CubeGenerator.CubeGenerator.constructor | src/Geometry/CubeGenerator.cpp:198-1512 | all arrays hold what the mesh has in their slots |
| CubeTheorems.NeighborsShareVertices | src/Geometry/CubeGenerator.cpp:279-459 | in the built object, the vertex numbers on a side and on its stored neighbor side agree corner by corner under the stored orientation |
| CubeTheorems.CornerPosition | src/Geometry/CubeGenerator.cpp:1421-1463 | every corner's number has the position of its lattice point |
| CubePositions.BoxStarts | src/Geometry/CubeGenerator.cpp:1428-1457 | in the built object of the first rank, the lattice point (0, 0, 0) is at (tx - scaleX / 2, ty - scaleY / 2, tz - scaleZ / 2) |
| CubePositions.BoxEnds | src/Geometry/CubeGenerator.cpp:1428-1457 | in that of the last rank, (nx, ny, nz) is at (tx + scaleX / 2, ty + scaleY / 2, tz + scaleZ / 2) |
| CubePositions.StepsAreEven | src/Geometry/CubeGenerator.cpp:1440-1457 | in any of them, a step of the lattice moves a vertex by scale / cubes in its own direction and by nothing in the others |
| CubePositions.EndsAreCorners | src/Geometry/CubeGenerator.cpp:42-53 | both ends of the box are corners of elements |
| CubeTheorems.ExchangeFits | src/Geometry/CubeGenerator.cpp:1196-1290 | in the objects of two neighboring ranks, equal MPI indices belong to one triangle, ranks, sides and orientations match, and the corners are at equal points of space |
| CubeTheorems.ListsPairUp | src/Geometry/CubeGenerator.cpp:1196-1290 | the k-th entries of the two lists are the two elements of one triangle, and the lists have the same length 2 ny nz |
| CubeTheorems.ListsKeptIff | src/Geometry/CubeGenerator.cpp:1475-1541 | every exchange list survives registration if and only if not both go to the same rank |
| CubeTheorems.VertexCount | src/Geometry/CubeGenerator.cpp:1428 | there are (nx + 1)(ny + 1)(nz + 1) vertices |
| CubeTheorems.VertexElements | src/Geometry/CubeGenerator.cpp:1516-1524 | the built lists name exactly the incident elements, increasing, four entries per element in all |
| Wildcard.LaterStarSuffices | external/doctest.h:3695-3710 | if an earlier star could still lead to a match, the later star can: backtracking to the last star loses nothing |
| Wildcard.StarFreeMatches | external/doctest.h:3686-3705 | without a star, a match is character by character: a question mark, the same character, or, if cases do not matter, the other case of one of 26 letters |
| Wildcard.StarMeaning | external/doctest.h:3695-3700 | a star matches exactly if the rest of the pattern matches some ending of the text |
| Wildcard.WildCmp | external/doctest.h:3682-3716 | terminates and returns 1 if and only if the text matches under the recursive meaning of star and question mark, 0 otherwise |
| Subcases.Context.EnterSubcase | external/doctest.h:3740-3771 | the new state and the answer of the subcase constructor |
| Subcases.Context.LeaveSubcase | external/doctest.h:3777-3782 | the new state of the subcase destructor |
| Subcases.Context.RunBody | external/doctest.h:3740-3799 | a body with its subcases runs as specified |
| Subcases.Context.RunPass | external/doctest.h:6469-6488 | one turn of the loop runs as specified |
| Subcases.Context.RunTest | external/doctest.h:6450-6511 | terminates for every test; with distinct siblings the leaves run once each, from left to right, in as many passes as there are leaves |
| Subcases.LaterSiblingsWait | external/doctest.h:3752-3756 | once a subcase of a level was entered, later siblings only ask for another pass |
| Subcases.PassProgress | external/doctest.h:3777-3782 | every pass that asks for another one has recorded something new |
| Subcases.PassRunsLeaf | external/doctest.h:6469-6511 | the n-th pass enters exactly the way to the n-th leaf, runs it, and asks for more if and only if leaves are left |
| Subcases.RunGoesThroughLeaves | external/doctest.h:6450-6511 | the whole run goes through the leaves from left to right |
| Subcases.DuplicateNeverRuns | external/doctest.h:3758-3765 | nothing below a subcase with the signature of an earlier sibling ever runs |
| Subcases.RunsEachLeafOnceIff | external/doctest.h:6450-6511 | every leaf runs exactly once over the whole run if and only if no two siblings have the same signature |
| SubcaseRuns.RunExecutes | external/doctest.h:6450-6511 | for every test, the whole run executes the leaves that are not below a later sibling of equal signature, from left to right, and nothing else |
| SubcaseRuns.FirstPlacesDiffer | external/doctest.h:3758-3765 | these leaves are all different, so each is executed once |
| FuzzySort.Sorted | postprocessing/science/compute_diff_seissol_data.py:36 | a sorted permutation |
| FuzzySort.SortedIsStable | postprocessing/science/compute_diff_seissol_data.py:36 | points with equal keys keep their order, as the sort that is asked for promises |
| FuzzySort.PerturbedIsSeparated | postprocessing/science/compute_diff_seissol_data.py:29-34 | perturbations of at most eps, distances 0 or at least D, 2 eps < tol and D - 2 eps >= tol separate the points |
| FuzzySort.StepTest | postprocessing/science/compute_diff_seissol_data.py:39-40 | along the measured order, the step test tells exactly whether the exact coordinate has moved on |
| FuzzySort.GroupTellable | postprocessing/science/compute_diff_seissol_data.py:41-42 | points that agree in one dimension can be told apart by the dimensions left |
| FuzzySort.GroupsInOrder | postprocessing/science/compute_diff_seissol_data.py:36-48 | for any points: no point comes before one that is smaller by the tolerance or more in the first dimension, although later dimensions rearrange every group |
| FuzzySort.FuzzySort | postprocessing/science/compute_diff_seissol_data.py:29-48 | two or more points: the groups of points closer than the tolerance to the first of their group, each sorted by the next dimension, in order up to the tolerance; for separated points the exact lexicographic order; none or one: the error raised |
| SortedGeometry.SortedListUnique | postprocessing/science/compute_diff_seissol_data.py:29-48 | a set of points has only one sorted list |
| SortedGeometry.OrderIsCanonical | postprocessing/science/compute_diff_seissol_data.py:51-56 | two numberings of the same points are sorted into the same order |
| SortedGeometry.LookupSortedGeom | postprocessing/science/compute_diff_seissol_data.py:51-62 | a numbering and its exact inverse table |
| SortedGeometry.ReindexKeepsPoints | postprocessing/science/compute_diff_seissol_data.py:92-94 | every corner of a reindexed triangle is where it was |
| SortedGeometry.SortRow | postprocessing/science/compute_diff_seissol_data.py:96 | an ascending permutation of the row |
| SortedGeometry.SameRowIffSameTriangle | postprocessing/science/compute_diff_seissol_data.py:92-97 | triangles of two numberings get the same row if and only if they have the same three corners |
| SortedGeometry.ReturnSortedGeomConnect | postprocessing/science/compute_diff_seissol_data.py:92-97 | points reordered by a numbering, triangles reindexed by its inverse and sorted; in exact order for separated points |
| SortedGeometry.OneMeshOneForm | postprocessing/science/compute_diff_seissol_data.py:69-97 | two numberings of one mesh end with lists of points that agree exactly in the exact coordinates and within 2 eps in the measured ones that are returned, and with equal rows if and only if equal triangles |
| KernelLanguage.LettersTrade | codegen/kernels/aderdg.py:368-375 | two neighboring summation letters may trade places |
| KernelLanguage.SumsPermute | codegen/kernels/aderdg.py:368-375 | sums over index letters may be taken in any order |
| KernelLanguage.FactorsComeOut | codegen/kernels/aderdg.py:388-397 | factors without the summed letters come out of the sum |
| KernelLanguage.Premultiply | codegen/kernels/aderdg.py:391-399 | the first factors of a product may be contracted beforehand, for any tensors and letters |
| KernelMatrices.ChainGrows | codegen/kernels/aderdg.py:368-375 | a chain of factors is the product of their matrices |
| KernelMatrices.LocalFluxIsProduct | codegen/kernels/aderdg.py:368-375 | the local flux adds rDivM fMrT I AplusT |
| KernelMatrices.NodalFluxIsProduct | codegen/kernels/aderdg.py:350-356 | the flux through the nodes of a face adds project2nFaceTo3m INodal AminusT |
| KernelMatrices.NeighboringFluxIsProduct | codegen/kernels/aderdg.py:426-435 | the neighboring flux adds rDivM fP rT I AminusT |
| KernelMatrices.VolumeIsProduct | codegen/kernels/aderdg.py:335-348 | the volume kernel adds the sum of kDivM I star over the dimensions, and I times the source if there is one |
| KernelMatrices.DerivativeIsProduct | codegen/kernels/aderdg.py:507-519 | a derivative is the sum of kDivMT dQ star over the dimensions, and dQ times the source if there is one |
| KernelMatrices.TaylorIsPowerSum | codegen/kernels/aderdg.py:541-549 | the Taylor kernel leaves in I the sum of all powers times their derivatives |
| KernelMatrices.DerivativeIsPowerSum | codegen/kernels/aderdg.py:498-540 | the derivative kernel leaves the same sum of the derivatives it has stored, for every order on both targets |
| LinearKernels.LocalFluxForms | codegen/kernels/aderdg.py:368-411 | the flux kernels with and without premultiplied matrices leave the same tensors |
| LinearKernels.NeighboringFluxForms | codegen/kernels/aderdg.py:426-473 | the same for the neighboring flux |
| LinearKernels.SidesInTurnAdd | codegen/kernels/aderdg.py:368-375 | any number of sides one after the other, each with its own solver, changes Q by the sum of their fluxes |
| LinearKernels.FusedSides | codegen/kernels/aderdg.py:387-424 | four sides in turn leave the same Q as the one fused update, with and without premultiplication |
| TimeKernels.AddTime | codegen/kernels/aderdg.py:475-549 | the loop builds the specified derivative kernel, Taylor kernel and list of derivative tensors for every order |
| TimeKernels.InputKept | codegen/kernels/aderdg.py:498-505 | the derivative kernel changes nothing but I and the derivatives, and degree 0 is the input |
| TimeKernels.DerivativesChain | codegen/kernels/aderdg.py:507-540 | after the run every stored derivative is the procedure applied to the stored derivative one degree below |
| TimeKernels.InterleavedIsTaylor | codegen/kernels/aderdg.py:498-549 | running the Taylor expansion after the interleaved kernel changes nothing, for every order, on both targets |
| TimeKernels.TargetsAgree | codegen/kernels/aderdg.py:494-505 | if dQ(0) is Q, both targets leave the same entries in every tensor |
| KernelSlices.StatementSlice | codegen/kernels/multsim.py:36-43 | in one fused statement every simulation sees what the plain statement computes |
| KernelSlices.KernelSlice | codegen/kernels/multsim.py:36-43 | every slice of a run of a fused kernel is the run of the plain kernel on that slice, for every kernel that fits, every position of the index and transposed matrices |
| KernelSlices.InsertedAt | codegen/kernels/multsim.py:36-39 | the item stands at the position, or at the end if there are fewer, and what is around it stays in order |
| FusedForms.KindsAre | codegen/kernels/aderdg.py:34-65 | exactly Q, I, INodal and the derivatives have simulations, exactly the six families of stored matrices are read transposed |
| FusedForms.SliceEntries | codegen/kernels/aderdg.py:33-65 | simulation x sees Q[x, k, p] as Q[k, p], likewise the other simulated tensors; stored matrices turned back, everything else as it is |
| FusedForms.FusedLocalFlux | codegen/kernels/aderdg.py:368-375 | the fused statement, letter by letter |
| FusedForms.FusedNeighboringFlux | codegen/kernels/aderdg.py:426-435 | the fused statement, letter by letter |
| FusedForms.FusedNodalFlux | codegen/kernels/aderdg.py:350-356 | the fused statement, letter by letter; the projection is not transposed |
| FusedForms.FusedVolume | codegen/kernels/aderdg.py:335-348 | the fused statement, letter by letter, with and without source |
| FusedForms.FusedDerivativeStep | codegen/kernels/aderdg.py:507-540 | the fused statement, letter by letter, for every degree on both targets |
| FusedForms.FusedTaylorStep | codegen/kernels/aderdg.py:536-540 | the fused statement, letter by letter |
| FusedKernels.FusedDerivative | codegen/kernels/aderdg.py:475-540 | the derivative kernel, fused, gives every simulation its own derivatives and sum, for every order on both targets |
| FusedKernels.FusedTaylor | codegen/kernels/aderdg.py:541-549 | the Taylor expansion, fused, gives every simulation the sum of its own derivatives |
| FusedKernels.FusedUpdate | codegen/kernels/aderdg.py:335-473 | volume, nodal, local and neighboring kernels, fused, update every simulation for itself |
| FusedKernels.CopyIsFirst | codegen/kernels/aderdg.py:248-260 | the copy for one simulation is simulation 0 of Q |
| DynamicRupture.ElasticIsValid | codegen/kernels/aderdg.py:185-203 | the velocities are 6, 7, 8 and the tractions 0, 3, 5 of nine quantities, a selection without repetition |
| DynamicRupture.ExtractPicks | codegen/kernels/aderdg.py:185-203 | extraction picks the selected quantities |
| DynamicRupture.MapPuts | codegen/kernels/aderdg.py:192-203 | mapping puts a quantity back at its index, and zero elsewhere |
| DynamicRupture.ThetaIsDriven | codegen/kernels/dynamic_rupture.py:249-260 | the three terms of theta are eta times velocity jump and scaled tractions |
| DynamicRupture.ComputeTheta | codegen/kernels/dynamic_rupture.py:249-260 | theta at every point |
| DynamicRupture.ComputeImposedStateM | codegen/kernels/dynamic_rupture.py:279-290 | the minus state at every point and quantity |
| DynamicRupture.ComputeImposedStateP | codegen/kernels/dynamic_rupture.py:291-302 | the plus state at every point and quantity |
| DynamicRupture.ImposedAt | codegen/kernels/dynamic_rupture.py:279-302 | only the selected velocities and tractions are imposed, every other quantity is kept |
| DynamicRupture.PostcomputeImposedState | src/DynamicRupture/FrictionLaws/FrictionSolverCommon.h:288-408 | both states after any list of time points, from zero |
| DynamicRupture.VelocityJump | codegen/kernels/dynamic_rupture.py:279-302 | for any theta, the two velocities differ by what theta fails to balance |
| DynamicRupture.ContinuousIffMatched | codegen/kernels/dynamic_rupture.py:249-302 | both sides get equal velocities for all states if and only if (Zplus + Zminus) eta is the identity |
| DynamicRupture.TractionsAgree | codegen/kernels/dynamic_rupture.py:279-302 | after any list of weighted time points both states have equal tractions, whatever theta is |
| DynamicRupture.VelocitiesAgree | codegen/kernels/dynamic_rupture.py:249-302 | after any list of weighted time points with the computed theta, a matched interface has equal velocities |
| DynamicRupture.SlipIsUnbalanced | codegen/kernels/dynamic_rupture.py:249-302 | with any theta the velocities drift apart by exactly the weighted sum of what it fails to balance |
| ImposedStates.VelocitiesAre | codegen/kernels/dynamic_rupture.py:279-302 | the minus side loses, the plus side gains its impedance times the excess of theta over its own traction |
| ImposedStates.ImposedTractions | src/DynamicRupture/FrictionLaws/FrictionSolverCommon.h:288-408 | after any list of time points, both imposed tractions are the weighted sum of theta |
| ImposedStates.ImposedVelocities | src/DynamicRupture/FrictionLaws/FrictionSolverCommon.h:288-408 | the imposed velocities are the weighted sums of what each side answers |
| ImposedStates.OthersAreZero | src/DynamicRupture/FrictionLaws/FrictionSolverCommon.h:288-408 | all other quantities are zero |
| MaskRegex.ItemIsItem | src/Common/IntegerMaskParser.cpp:22 | the words of the expression are numbers, ranges and lists as described directly |
| MaskRegex.SearchIffMatches | src/Common/IntegerMaskParser.cpp:27-29 | the search finds n if and only if the first n characters match and a comma or the end follows; there is at most one such n |
| MaskParser.ValueIsDecimal | src/Common/IntegerMaskParser.cpp:57-58 | a text of digits has its value in base ten |
| MaskParser.ParseIntRange | src/Common/IntegerMaskParser.cpp:52-70 | nothing without a dash, otherwise the item's value, the exception of stoi, or the overflow |
| MaskParser.ParseIntList | src/Common/IntegerMaskParser.cpp:72-91 | nothing without a brace, otherwise the item's value or the exception of stoi |
| MaskParser.Parse | src/Common/IntegerMaskParser.cpp:18-50 | terminates on every text with the values of the longest list of items at its start, or nothing, or the first failure |
| MaskAcceptance.ItemOutcome | src/Common/IntegerMaskParser.cpp:52-91 | every item the expression accepts has a value if and only if no number is too large, no list ends with a comma and no range ends at the largest number; otherwise it fails with the reason named, in this order |
| MaskAcceptance.TrailingCommaFails | src/Common/IntegerMaskParser.cpp:72-91 | every accepted list with a comma before its brace fails, by the missing number or by one that is too large |
| MaskAcceptance.SucceedsIffItemsFit | src/Common/IntegerMaskParser.cpp:18-50 | every text: parsing succeeds if and only if each item it starts with does; it gives their values in order, nothing if there is no item, or the failure of the first that does not fit |
| MaskRoundTrip.ItemRoundTrip | src/Common/IntegerMaskParser.cpp:52-91 | a printed item is an item and stands for what was printed |
| MaskRoundTrip.RoundTrip | src/Common/IntegerMaskParser.cpp:18-50 | printing any nonempty list of items and parsing gives the lists they denote, or the first failure among them |
| MaskRoundTrip.SucceedsIffInRange | src/Common/IntegerMaskParser.cpp:18-91 | parsing what was printed succeeds if and only if all its numbers fit and no range ends at the largest |
| MaskRoundTrip.ItemsAreLongest | src/Common/IntegerMaskParser.cpp:27-29 | every list of items the text starts with is a beginning of the list found |
| MaskRoundTrip.MeaningOfRest | src/Common/IntegerMaskParser.cpp:27-49 | the result does not change if the rest behind the items is replaced by anything that starts no item |
| Iterators.StepsAre | src/Common/Iterator.h:264-273 | the k-th step is start + k step, all below stop, and the next is not |
| Iterators.RunRange | src/Common/Iterator.h:177-242 | a loop over a range, for any step with which it meets its end, yields the steps below stop, nothing from stop itself, or the start alone behind it; with a positive step these are the documented ones if and only if start <= stop |
| Iterators.RangeEndsIff | src/Common/Iterator.h:207-225 | for any step, the loop meets its end after some number of steps if and only if start < stop with a positive step, or start == stop, or the first step from behind does not lead below stop |
| Iterators.ZipIterator.constructor | src/Common/Iterator.h:58-66 | ended if and only if one of the iterators is at its end |
| Iterators.ZipIterator.Next | src/Common/Iterator.h:72-81 | all iterators move by one, and the end is found again |
| Iterators.RunZip | src/Common/Iterator.h:34-170 | the loop yields the columns up to the shortest range, and throws if and only if it is strict and the lengths differ |
| Iterators.RunEnumerate | src/Common/Iterator.h:292-299 | the loop over enumerate yields every element with its index, in order |
| Iterators.FilteredIterator.constructor | src/Common/Iterator.h:336-342 | starts at the first element that passes |
| Iterators.FilteredIterator.Next | src/Common/Iterator.h:344-351 | moves to the next element that passes |
| Iterators.RunFilter | src/Common/Iterator.h:322-373 | the loop yields exactly the filtered subsequence |
| Iterators.KeptCounts | src/Common/Iterator.h:301-321 | what is kept is every element that passes, as often as it occurs |
| Iterators.KeptJoins | src/Common/Iterator.h:301-321 | what is kept stays in order |

## Left out

- Partitions along y and z: the parameter reader fixes them to one (src/Initializer/Parameters/CubeGeneratorParameters.cpp:28-31), and the loops of the generator compute only the block of position x = rank; `RankIsPartitionIffOneRow` says why more would not work. The exchange lists for these planes are not built.
- Periodic tags along x with more than one rank are modelled (the lists, ranks and the overwriting in the map of neighbors), but no statement is made about the geometry across that wrap; the code itself warns about such runs.
- The orientation convention (corner k of a side meets corner (h - k) mod 3, which is the table entry at (3 + k - h) mod 3, src/Geometry/MeshReader.cpp:174-197 and src/Geometry/MeshTools.cpp:23) and the corners of a side (src/Geometry/MeshTools.cpp:21) are taken from the code that reads the mesh.
- MPI communicators, OpenMP pragmas, logging, memory management and the copying of rows into the element structures: parallel loops run in sequence, a logged error rejects the input, and an element's row is a slice of the flat array.
- Widths of machine integers in the mesh generator, floating point rounding in coordinates, kernels and the tolerance sort: mathematical integers and reals stand for them.
- Filters, exceptions, the limit on failed assertions, reporters and signals of the test runner; a test body is taken to declare its subcases in a fixed order, each inside the body of its parent.
- Locale-dependent `tolower`: letters A to Z are mapped in `Wildcard`, everything else is kept.
- Merging of equal vertices by the mesh libraries, and the search for common rows, before and after the sorting of a geometry.
- Sparsity patterns, memory layouts, prefetching and code emission of the kernel generator: a statement has the meaning of its formula. The kernels of the fault interface are modelled by their formulas at each point, not in the kernel language.
- Reading index letters that run beyond the size of a tensor: tensors are total functions of their indices, and index ranges are arbitrary.
- Iterators over ranges of different element types: `RunZip` takes ranges of one type, `RunEnumerate` a type with both kinds of elements; a zip of no ranges is left out. Wrap-around of a range's integer type is not modelled, nor is a loop over a range that never meets its end: `RunRange` asks for `MeetsEnd`, which `RangeEndsIff` proves to be exactly when it does.
- Regular expression engine: the search is given by the language of the expression, which leaves no choice of match; the engine's own backtracking is not modelled.
