# A verified model of the 3D fluid dynamics core

This project models, in Dafny, the host-side sequential core of a small 3D
car-aerodynamics simulator written in C. It has four parts:

- **OBJ loading and the point-in-mesh test**
  (`obj-file-loader/lib/model_loader.c`):
  - line classification and the two line counters;
  - the face tokenizer of `loadOBJ`, with its 63-character token cap;
  - `parseVertexIndex` (`sscanf("%d")` with `v` preset to 0), and `freeModel`;
  - the Möller–Trumbore ray/triangle test, and the even/odd ray cast of
    `isInsideCarModel`.
- **The Navier–Stokes cube** (`src/fluid_cube.c`). Eight flat `real` arrays are
  indexed by `IX3D(x, y, z) = x + y·sizeX + z·sizeX·sizeY` (module `Grid`).
  - `set_bnd`: the face mirrors, the eight corners and the zeroing of solid
    cells.
  - `lin_solve`: an in-place Gauss–Seidel sweep, then `set_bnd`.
  - `diffuse`, `project` and `advect`.
  - `FluidCubeCreate`, `FluidCubeAddDensity`, `FluidCubeAddVelocity` and
    `FluidCubeStep`, as the class `Cube.FluidCube` over arrays.
- **The lattice-Boltzmann host logic** (`src/lbm.c`):
  - the D3Q19 tables, `feq`, and the relaxation time τ with its clamp;
  - the axis-aligned-box and mesh solid masks, and the flow initialisation;
  - the force decoding, the drag coefficient and the dispatch group counts.

  All of this is in the class `Lbm.LbmGrid`. Its GPU buffers are sequences.
- **The CPU particle table** (`src/particle_system.c`):
  - the bounded particle buffer and the `GRID_CELL_SIZE²` table of bounded
    buckets;
  - the inclusive box test and the one-axis push-out with reflection;
  - the update loop, with its respawn and wall constraints, and the
    reinsertion into buckets.

  This is the class `Particles.ParticleSystem`.

## How the model is built

- Every loop of the C code that changes an array in place is a Dafny `method`
  over an `array`. Its `ensures` ties the final contents to a specification
  function of the old contents, for example
  `x[..] == SetBnd(b, old(x[..]), d, model)`. The properties the code promises
  are then proved as lemmas about those functions.
- `set_bnd` is modelled as its five stages in source order:
  - the z faces;
  - the y faces;
  - the x faces;
  - the eight corner assignments;
  - the solid zeroing.

  The cell-by-cell rule (`BoundaryRules.SetBndRule`) is derived from these
  stages, not assumed.
- `FluidCubeStep` is modelled twice:
  - exactly as written (`Cube.StepFieldsAsWritten`), with `density` as the
    divergence scratch of both projections;
  - with a separate zeroed scratch buffer (`Cube.StepFields`).

  See "Findings".
- C's `(int)` conversion truncates toward zero. It is written out as
  `Lbm.Trunc`. The grid-aligned alternative uses `Floor`.
- Values of `rand()/RAND_MAX` are inputs:
  - `Particles.Noise`;
  - the `ry` and `rz` of `Particles.Resolve`.

  Results that the GPU force kernel writes are the `results` parameter.
- Where the code has a quirk that is not evidently a bug, the model keeps it:
  - `advect`'s bounds test checks `i0 < 0` twice and never `k0 < 0`
    (`FluidAdvect.OutOfRange`). This is harmless, because back-traced points
    are at least 0.5.
  - Corners become 0.5 times the sum of three neighbours, not their mean.
  - `isInsideCarModel` ignores its `z` argument.
  - `ParticleSystem_AddParticle` files a particle under
    `((int)(x / GRID_CELL_SIZE), (int)(y / GRID_CELL_SIZE))`. That is a
    different mapping from the one the update loop uses.

## Model

| member | source | states |
|---|---|---|
| Grid.IxRange | lib/config.h:5 | IX3D of an in-grid cell is a valid flat index below sizeX·sizeY·sizeZ |
| Grid.Decode | lib/config.h:5 | IX3D is injective on the grid: the three coordinates are recovered from the flat index |
| Grid.Encode | lib/config.h:5 | every flat index below the cell count is IX3D of an in-grid cell |
| Grid.EncodeAll | lib/config.h:5 | the same for all flat indices at once |
| ObjModel.CountTaggedLines | obj-file-loader/lib/model_loader.c:17-21 | the counting loop returns the number of lines whose first two characters are the tag and a space |
| ObjModel.CountVerticesInFile | obj-file-loader/lib/model_loader.c:7-24 | 0 when the file cannot be opened, otherwise the number of "v " lines |
| ObjModel.CountFacesInFile | obj-file-loader/lib/model_loader.c:26-44 | 0 when the file cannot be opened, otherwise the number of "f " lines |
| ObjModel.TagCountAppend | obj-file-loader/lib/model_loader.c:17-21 | the count of a concatenation of line lists is the sum of their counts |
| ObjModel.TagCountSingle | obj-file-loader/lib/model_loader.c:18-20 | one line counts 1 exactly when it starts with the tag and a space |
| ObjModel.TagCountBound | obj-file-loader/lib/model_loader.c:17-21 | the count is at most the number of lines, and equals it exactly when every line is tagged |
| ObjModel.VertexAndFaceLinesDisjoint | obj-file-loader/lib/model_loader.c:84-92 | no line is both a vertex and a face line: the two counts add up to at most the line count |
| ObjModel.DisjointTags | obj-file-loader/lib/model_loader.c:17-40 | lines counted under two different tags are disjoint |
| ObjModel.SkipSpaces | obj-file-loader/lib/model_loader.c:50 | the white space `%d` skips: a suffix of the token that does not start with a space |
| ObjModel.LeadingDigits | obj-file-loader/lib/model_loader.c:50 | the longest prefix of decimal digits: all digits, followed by a non-digit or the end |
| ObjModel.ParseDecimal | obj-file-loader/lib/model_loader.c:48-52 | a decimal numeral followed by text that does not start with a digit (a "/vt/vn" suffix, say) parses to its value |
| ObjModel.ParseNegatedDecimal | obj-file-loader/lib/model_loader.c:48-52 | a minus sign and a numeral parse to the negated value, whatever follows |
| ObjModel.ParseUnsigned | obj-file-loader/lib/model_loader.c:48-52 | a token that starts with a digit parses to the value of its leading digits |
| ObjModel.ParseNegative | obj-file-loader/lib/model_loader.c:48-52 | a token "-" followed by digits parses to minus the value of those digits |
| ObjModel.ParseWithoutDigits | obj-file-loader/lib/model_loader.c:48-52 | a token with no leading (optionally signed) integer leaves the preset 0 |
| ObjModel.DecimalValue | obj-file-loader/lib/model_loader.c:48-52 | the numeral of n has digit value n (the generator used by the round trips) |
| ObjModel.SkipBlanks | obj-file-loader/lib/model_loader.c:105 | the first position with no space or tab before it |
| ObjModel.TokenEnd | obj-file-loader/lib/model_loader.c:109-111 | a token stops at NUL, space, tab, newline or the end of the line, or after 63 characters |
| ObjModel.NextToken | obj-file-loader/lib/model_loader.c:104-112 | a token has at most 63 characters, none of which ends a token, and the scan moves forward |
| ObjModel.SkipBlanksLoop | obj-file-loader/lib/model_loader.c:105 | the blank-skipping loop stops where SkipBlanks says |
| ObjModel.ReadTokenLoop | obj-file-loader/lib/model_loader.c:108-112 | the copy loop returns the characters from the scan position to the token end, and that end |
| ObjModel.ReadFaceLine | obj-file-loader/lib/model_loader.c:99-137 | the face the tokenizer builds from a line is ParseFace of that line |
| ObjModel.NextTokenOf | obj-file-loader/lib/model_loader.c:104-112 | after blanks, a token followed by a separator is read and the scan resumes just past it |
| ObjModel.SkipBlanksTo | obj-file-loader/lib/model_loader.c:105 | the blank skip stops exactly at the first non-blank |
| ObjModel.TokenEndTo | obj-file-loader/lib/model_loader.c:109 | the token end is exactly the first terminator, or the 63-character cap |
| ObjModel.FaceTokensOf | obj-file-loader/lib/model_loader.c:99-132 | "f a b c rest" yields tokens a, b, c, and anything after the third token (a quad's fourth vertex) is ignored |
| ObjModel.LongTokenSplits | obj-file-loader/lib/model_loader.c:109-129 | a token longer than 63 characters is cut, and its remainder is read as the next token |
| ObjModel.FaceRoundTrip | obj-file-loader/lib/model_loader.c:92-137 | printing three 1-based indices as a face line and parsing it returns the same indices, with no decrement |
| ObjModel.VerticesOf | obj-file-loader/lib/model_loader.c:83-91 | one vertex for each "v " line |
| ObjModel.FacesOf | obj-file-loader/lib/model_loader.c:92-140 | one face for each "f " line |
| ObjModel.LoadOBJ | obj-file-loader/lib/model_loader.c:54-151 | on open or allocation failure both counts are 0; otherwise vertexCount is the number of "v " lines, faceCount the number of "f " lines, and the arrays hold the parsed lines in file order |
| ObjModel.ReadLines | obj-file-loader/lib/model_loader.c:83-141 | the reading loop fills both arrays exactly, with vertexIndex and faceIndex ending at their lengths |
| ObjModel.LoadStep | obj-file-loader/lib/model_loader.c:83-141 | one more line appends one vertex or one face, or nothing |
| ObjModel.FreeModel | obj-file-loader/lib/model_loader.c:153-158 | both counts are reset to 0 |
| RayCast.RayTriangle | obj-file-loader/lib/model_loader.c:160-210 | no hit when |a| < 1e-5, with t unchanged; otherwise a hit exactly when u ≥ 0, v ≥ 0, u + v ≤ 1 and the distance exceeds 1e-5; t is written whenever the barycentric tests pass, even when the distance test then rejects |
| RayCast.CoordinatesSolve | obj-file-loader/lib/model_loader.c:182-203 | for a non-parallel triangle, the computed t, u and v satisfy o + t·d = v0 + u·e1 + v·e2 |
| RayCast.CoordinatesUnique | obj-file-loader/lib/model_loader.c:182-203 | those are the only t, u and v that satisfy it |
| RayCast.HitLiesOnTriangle | obj-file-loader/lib/model_loader.c:160-210 | a reported hit lies on the triangle, at a distance greater than 1e-5 along the ray |
| RayCast.TriangleHitIsFound | obj-file-loader/lib/model_loader.c:160-210 | conversely, a point of the triangle ahead of the ray by more than 1e-5 is reported, with its distance |
| RayCast.UpperBoundOnURedundant | obj-file-loader/lib/model_loader.c:189-199 | the test u > 1 never rejects anything that v ≥ 0 and u + v ≤ 1 would accept |
| RayCast.HitIgnoresEntryT | obj-file-loader/lib/model_loader.c:160-210 | whether a hit is reported does not depend on the value *t had on entry |
| RayCast.IsInsideCarModel | obj-file-loader/lib/model_loader.c:212-245 | the loop's parity matches InsideModel: the ray starts at z = -2 over the scaled (x, y) and points along +z |
| RayCast.HitsStep | obj-file-loader/lib/model_loader.c:222-242 | each face adds one to the count exactly when it is valid and crossed |
| RayCast.NoFacesOutside | obj-file-loader/lib/model_loader.c:222-244 | a model without faces contains nothing |
| RayCast.InvalidFacesIgnored | obj-file-loader/lib/model_loader.c:228-232 | a face with an index outside [1, vertexCount] does not change the count |
| RayCast.HitsBound | obj-file-loader/lib/model_loader.c:222-242 | the count is at most the number of faces, and 0 when no face is valid |
| RayCast.ToUnitRange | obj-file-loader/lib/model_loader.c:213-214 | a grid coordinate in [0, size) maps into [-1, 1) |
| FluidBoundary.ZFacesLoop | src/fluid_cube.c:90-95 | the z-face loop leaves x equal to ZFaces of its old contents |
| FluidBoundary.YFacesLoop | src/fluid_cube.c:97-102 | the y-face loop leaves x equal to YFaces of its old contents |
| FluidBoundary.XFacesLoop | src/fluid_cube.c:104-109 | the x-face loop leaves x equal to XFaces of its old contents |
| FluidBoundary.CornerStep | src/fluid_cube.c:112-119 | one corner statement leaves x equal to SetCorner of its old contents |
| FluidBoundary.CornersUpdate | src/fluid_cube.c:112-119 | the eight corner statements, in order, leave x equal to Corners of its old contents |
| FluidBoundary.ZeroSolidLoop | src/fluid_cube.c:121-132 | the model loop leaves x equal to ZeroSolid of its old contents |
| FluidBoundary.SetBndInPlace | src/fluid_cube.c:88-133 | set_bnd in place leaves x equal to SetBnd of its old contents |
| BoundaryRules.SetCornerEffect | src/fluid_cube.c:112-119 | one corner statement changes only its corner, to 0.5 times the sum of its three axis neighbours |
| BoundaryRules.CornersValue | src/fluid_cube.c:112-119 | after the corner block, each corner holds 0.5 times the sum of its three neighbours, and every other cell is unchanged |
| BoundaryRules.FacesValue | src/fluid_cube.c:90-109 | after the three face loops, each non-corner cell holds the boundary rule's value, and each corner is unchanged |
| BoundaryRules.SetBndRule | src/fluid_cube.c:88-133 | each cell after set_bnd is 0 when its column is inside the model, and the boundary rule of the input otherwise |
| BoundaryRules.SetBndAt | src/fluid_cube.c:88-133 | the same rule, stated by coordinates |
| BoundaryRules.ZFaceParity | src/fluid_cube.c:92-93 | without a model, the z = 0 and z = sizeZ-1 faces copy the next layer inwards, negated exactly when b == 3 |
| BoundaryRules.YFaceParity | src/fluid_cube.c:99-100 | without a model, the y faces copy the next layer inwards, negated exactly when b == 2 |
| BoundaryRules.XFaceParity | src/fluid_cube.c:106-107 | without a model, the x faces copy the next layer inwards, negated exactly when b == 1 |
| BoundaryRules.CornerHalfSum | src/fluid_cube.c:112-119 | without a model, every corner becomes 0.5 times the sum of the input's three axis neighbours (not their mean) |
| BoundaryRules.SetBndKeeps | src/fluid_cube.c:88-133 | set_bnd leaves interior cells and non-corner edge cells unchanged, except that it zeroes solid ones |
| BoundaryRules.NoModelInterior | src/fluid_cube.c:88-120 | without a model, set_bnd writes no interior cell |
| BoundaryRules.SolidOnlyZeroes | src/fluid_cube.c:121-132 | with a model, the only difference from the model-free result is that solid cells become 0 |
| BoundaryRules.SetBndZeros | src/fluid_cube.c:88-133 | the zero field is a fixed point of set_bnd |
| FluidSolve.RelaxCell | src/fluid_cube.c:141-147 | one relaxation statement changes only cell (i, j, k), to (x0 + a·(sum of the six current neighbours))·(1/c) |
| FluidSolve.SweepInPlace | src/fluid_cube.c:138-150 | the i, j, k loops leave x equal to Sweep of its old contents |
| FluidSolve.LinSolveInPlace | src/fluid_cube.c:135-153 | lin_solve writes only x and leaves it equal to LinSolve: iter rounds of one sweep followed by set_bnd |
| FluidSolve.DiffuseInPlace | src/fluid_cube.c:155-163 | diffuse leaves x equal to Diffuse: lin_solve with a = dt·diff·(sx-2)(sy-2)(sz-2) and c = 1 + 6a, followed by set_bnd |
| FluidSolve.SweepSolves | src/fluid_cube.c:138-150 | after a sweep, every non-interior cell is unchanged and every interior cell satisfies the Gauss–Seidel equation: earlier neighbours take their new values and later ones keep their old values |
| FluidSolve.SweepUncoupled | src/fluid_cube.c:141-147 | with a = 0, a sweep sets each interior cell to x0·(1/c) |
| FluidSolve.LinSolveNoRounds | src/fluid_cube.c:137 | with iter = 0, lin_solve leaves x as it is |
| FluidSolve.LinSolveUncoupled | src/fluid_cube.c:135-153 | with a = 0 and c = 1, one or more rounds leave x0 in every fluid interior cell and 0 in every solid one |
| FluidSolve.DiffuseWithoutDiffusion | src/fluid_cube.c:155-160 | with diff = 0, diffuse makes every fluid interior cell of x equal to x0 (and solid cells 0) |
| FluidSolve.NoDiffusionRate | src/fluid_cube.c:158-160 | with diff = 0, diffuse is lin_solve with a = 0 and c = 1, followed by set_bnd |
| FluidSolve.LinSolveCoreZero | src/fluid_cube.c:135-153 | lin_solve keeps a field whose interior and faces are zero in that state when x0 is also in it |
| FluidSolve.LinSolveZeros | src/fluid_cube.c:135-153 | lin_solve of zero into zero is zero |
| FluidSolve.DiffuseZeros | src/fluid_cube.c:155-160 | diffuse of zero into zero is zero |
| FluidProject.DivergenceField | src/fluid_cube.c:169-180 | the divergence loop writes only interior cells of div |
| FluidProject.ClearedInterior | src/fluid_cube.c:177 | the divergence loop writes only interior cells of p |
| FluidProject.ClearedIsZero | src/fluid_cube.c:177 | every interior cell of p is zero after the divergence loop |
| FluidProject.Gradient | src/fluid_cube.c:190-198 | the gradient loop writes only interior cells of the velocity component |
| FluidProject.GradientAt | src/fluid_cube.c:193-195 | each interior cell becomes v - 0.5·(p[+1] - p[-1])·size along the component's axis |
| FluidProject.DivergenceLoop | src/fluid_cube.c:169-180 | the loop leaves div equal to DivergenceField and p equal to ClearedInterior |
| FluidProject.GradientLoop | src/fluid_cube.c:190-198 | the loop leaves each velocity component equal to its Gradient along its own axis |
| FluidProject.Difference | src/fluid_cube.c:193-195 | the central difference of p along the axis at an interior cell |
| FluidProject.ProjectInPlace | src/fluid_cube.c:165-206 | project leaves the five arrays equal to Project of their old contents |
| FluidProject.ProjectIgnoresScratchInterior | src/fluid_cube.c:165-206 | project's result does not depend on the interior contents of p and div on entry |
| FluidProject.ProjectAtRest | src/fluid_cube.c:165-206 | a zero velocity field stays zero |
| FluidProject.PressureAtRest | src/fluid_cube.c:165-206 | for a zero velocity field, the pressure and divergence left behind are zero on the interior and faces |
| FluidProject.GradientOfZero | src/fluid_cube.c:190-198 | zero velocity with a pressure that is zero on the interior and faces stays zero |
| FluidProject.DivergenceOfZero | src/fluid_cube.c:169-176 | zero velocity has zero divergence at every interior cell |
| FluidAdvect.Backtrace | src/fluid_cube.c:232-245 | the back-traced coordinate is clamped into [0.5, size + 0.5], and is unchanged when it already lies there |
| FluidAdvect.SampleOf | src/fluid_cube.c:238-254 | floorf and the upper weight: lo ≤ x < lo + 1, the weight lies in [0, 1), and lo + weight = x |
| FluidAdvect.AdvectField | src/fluid_cube.c:226-278 | the advection loop writes only interior cells |
| FluidAdvect.SkipIff | src/fluid_cube.c:264-269 | since back-traced points are at least 0.5, a cell is skipped exactly when its point reaches size - 1 on some axis |
| FluidAdvect.AdvectSkipKeeps | src/fluid_cube.c:264-269 | a skipped cell keeps its old value |
| FluidAdvect.InterpolateBetween | src/fluid_cube.c:271-275 | the trilinear weights are convex, so the interpolated value lies between any bounds of the eight samples |
| FluidAdvect.AdvectValueBetween | src/fluid_cube.c:226-278 | every written or skipped interior cell lies within any common bounds of d and d0 |
| FluidAdvect.AdvectBetween | src/fluid_cube.c:208-282 | after advect, each interior cell is 0 when solid and otherwise lies within the bounds of d and d0 |
| FluidAdvect.AdvectValueAtRest | src/fluid_cube.c:229-275 | with zero velocity at the cell, the cell takes d0's value at the same cell |
| FluidAdvect.AdvectAtRest | src/fluid_cube.c:208-282 | with zero velocity, every fluid interior cell of d equals that of d0, and solid ones are 0 |
| FluidAdvect.AdvectZeros | src/fluid_cube.c:208-282 | advecting zero into zero gives zero |
| FluidAdvect.AdvectInPlace | src/fluid_cube.c:208-282 | advect leaves d equal to Advect of its old contents, and writes nothing else |
| FluidAdvect.TraceBack | src/fluid_cube.c:232-245 | the statement sequence computes Backtrace |
| FluidAdvect.CellSamples | src/fluid_cube.c:229-254 | the three samples of the cell, one per axis |
| FluidAdvect.AxisSample | src/fluid_cube.c:229-254 | the sample along one axis, from that axis's velocity and dt·(size-2) |
| FluidAdvect.SplitPoint | src/fluid_cube.c:236-254 | the clamp, floorf and weight statements compute AxisSampleOf |
| FluidAdvect.Interpolation | src/fluid_cube.c:271-275 | the eight-term expression is the trilinear interpolation |
| Cube.WithDensity | src/fluid_cube.c:65-73 | an out-of-range coordinate changes nothing; otherwise only density at IX3D(x, y, z) gains the amount, and every other cell and field is unchanged |
| Cube.WithVelocity | src/fluid_cube.c:75-86 | an out-of-range coordinate changes nothing; otherwise only the one cell of each velocity component gains its amount |
| Cube.FluidCube.constructor | src/fluid_cube.c:12-48 | stores the sizes and parameters, and every one of the eight arrays is zeroed (calloc) |
| Cube.FluidCube.AddDensity | src/fluid_cube.c:65-73 | the new state is WithDensity of the old one |
| Cube.FluidCube.AddVelocity | src/fluid_cube.c:75-86 | the new state is WithVelocity of the old one |
| Cube.FluidCube.StepAsWritten | src/fluid_cube.c:284-316 | the step as written: diffuse tags 1, 2, 3; project; advect tags 1, 2, 3; project; then diffuse and advect density; 4 iterations throughout, with density as the divergence scratch |
| Cube.FluidCube.Step | src/fluid_cube.c:284-316 | the same order of stages, but with its own zeroed divergence buffer |
| Cube.FluidCube.VelocityHalf | src/fluid_cube.c:297-311 | the velocity half of the step leaves the arrays equal to VelocityStep |
| Cube.FluidCube.DiffuseProjectHalf | src/fluid_cube.c:297-303 | three diffuses into Vx0, Vy0, Vz0, then project with s and the scratch |
| Cube.FluidCube.AdvectProjectHalf | src/fluid_cube.c:305-311 | three advects into Vx, Vy, Vz, then project with s and the scratch |
| Cube.FluidCube.DensityHalf | src/fluid_cube.c:313-315 | diffuse density into s, then advect s back into density |
| Cube.ZeroField | src/fluid_cube.c:31-38 | a fresh zeroed field of the cube's size |
| Cube.StepAsWrittenIgnoresDensity | src/fluid_cube.c:295 | the step as written does not depend on the interior of density on entry |
| Cube.AddedDensityIsLost | src/fluid_cube.c:295 | adding density at an interior cell before the step as written gives exactly the same result as not adding it |
| Cube.StepAsWrittenClearsDensity | src/fluid_cube.c:284-316 | a fluid at rest with diff = 0 has its interior density cleared by the step as written |
| Cube.StepKeepsDensityAtRest | src/fluid_cube.c:284-316 | with its own scratch, a fluid at rest with diff = 0 keeps its interior density, except in solid cells |
| Cube.DiffuseAndProjectAtRest | src/fluid_cube.c:297-303 | at rest, diffusion and projection keep the velocity zero |
| Cube.AdvectAndProjectAtRest | src/fluid_cube.c:305-311 | at rest, advection and projection keep the velocity zero, and leave the scratch zero on the interior and faces |
| Cube.VelocityStepAtRest | src/fluid_cube.c:297-311 | at rest, both velocity halves keep every velocity field zero |
| Cube.RestIsKept | src/fluid_cube.c:284-316 | a fluid at rest stays at rest under either version of the step |
| Cube.DensityStepAtRest | src/fluid_cube.c:313-315 | with no velocity and diff = 0, the density half returns the interior density unchanged, except in solid cells |
| D3Q19.WeightsSumToOne | src/lbm.c:9-15 | the 19 weights sum to 1 |
| D3Q19.DirectionClasses | src/lbm.c:9-20 | one rest direction with weight 1/3, six axis directions with 1/18, and twelve two-axis diagonals with 1/36 |
| D3Q19.TableIsLattice | src/lbm.c:18-20 | every table row is a D3Q19 lattice vector, and lookup returns its own index |
| D3Q19.LatticeIsTable | src/lbm.c:18-20 | every D3Q19 lattice vector appears in the table |
| D3Q19.DirectionsDistinct | src/lbm.c:18-20 | the 19 directions are pairwise distinct |
| D3Q19.Opposite | src/lbm.c:9-20 | every direction has an opposite with negated (ex, ey, ez) and the same weight, and only the rest direction is its own opposite |
| D3Q19.OppositeInvolution | src/lbm.c:18-20 | the opposite of the opposite is the direction itself |
| D3Q19.FeqAtRest | src/lbm.c:22-27 | feq(i, ρ, 0) = w_i·ρ |
| D3Q19.FeqSumIsDensity | src/lbm.c:22-27 | in exact arithmetic, the 19 equilibrium values sum to ρ for every velocity |
| D3Q19.Tau | src/lbm.c:38-40 | τ lies in [0.51, 2.0]; it equals 0.5 + 3·viscosity inside that range, and the nearer bound outside it |
| D3Q19.TauMonotone | src/lbm.c:38-40 | τ does not decrease as the viscosity grows |
| Lbm.Trunc | src/lbm.c:131-136 | C's (int) conversion: rounds toward zero for both signs |
| Lbm.Clamp | src/lbm.c:138-143 | the clamped box has gMin ≥ 0 and gMax ≤ size - 1 on every axis |
| Lbm.ClampKeepsCells | src/lbm.c:138-143 | clamping does not change which in-grid cells the box contains |
| Lbm.CellOfRange | src/lbm.c:131-136 | with floor conversion, cell g lies between the converted bounds exactly when its cell meets the world interval |
| Lbm.CellOfAsWrittenReachesZero | src/lbm.c:131-136 | for a coordinate less than one cell below the grid, (int) gives 0 where floor gives -1 |
| Lbm.ConversionsAgree | src/lbm.c:131-136 | the two conversions agree on coordinates at or above the grid origin |
| Lbm.AabbAsWrittenMarksBoxLeftOfGrid | src/lbm.c:125-157 | a box lying entirely left of the grid still marks column 0 when the grid bounds are computed as written |
| Lbm.AabbCellsMeetBox | src/lbm.c:125-157 | with floor conversion, a cell is marked exactly when, on every axis, its cell meets the world box |
| Lbm.BoxMaskAt | src/lbm.c:148-157 | the mask starts all zero and is 1 exactly at the cells whose coordinates lie in [gMin, gMax] on every axis |
| Lbm.InvertedBoxIsEmpty | src/lbm.c:150-152 | a box with gMin > gMax on some axis marks nothing |
| Lbm.FillBox | src/lbm.c:148-157 | the z, y, x loops over a zeroed array leave it equal to BoxMask, writing only in-range indices |
| Lbm.XRayIsRayTriangle | src/lbm.c:316-344 | the inlined test along +x is rayTriangleIntersection with the direction (1, 0, 0) |
| Lbm.CrossingsAreRayHits | src/lbm.c:309-345 | the intersections counter is the number of triangles this ray test reports as hit |
| Lbm.CrossingsBound | src/lbm.c:309-345 | at most numTriangles triangles are counted |
| Lbm.CrossingsIgnorePadding | src/lbm.c:310-314 | triangle t is read only at floats t·12 + {0, 1, 2, 4, 5, 6, 8, 9, 10}: the padding floats do not matter |
| Lbm.MeshMaskAt | src/lbm.c:290-355 | a cell is 1 exactly when its centre lies in the inclusive box and its +x ray crosses an odd number of triangles |
| Lbm.NoTrianglesNoSolid | src/lbm.c:309-352 | with numTriangles ≤ 0 the mask is all zero |
| Lbm.OutsideBoxNotSolid | src/lbm.c:294-303 | a cell whose centre (g + 0.5)/scale - offset lies outside the box is never solid |
| Lbm.MeshMaskIgnoresPadding | src/lbm.c:310-314 | the whole mask does not depend on the padding floats |
| Lbm.CountCrossings | src/lbm.c:307-345 | the triangle loop returns Crossings |
| Lbm.FillMesh | src/lbm.c:280-355 | the gz, gy, gx loops over a zeroed array leave it equal to MeshMask |
| Lbm.FlowSlot | src/lbm.c:170-173 | slot idx·19 + i holds feq(i, 1, u) |
| Lbm.FlowCellDensity | src/lbm.c:170-173 | in exact arithmetic, the 19 slots of each cell sum to the density 1 |
| Lbm.FlowVelocityAt | src/lbm.c:174-177 | velocity slots idx·4 + 0..3 hold (ux, uy, uz, 1) |
| Lbm.FlowAtRest | src/lbm.c:170-173 | at rest, every distribution slot holds its direction's weight |
| Lbm.FlowBuffers | src/lbm.c:164-178 | the two loops fill fData and velData as FlowDistributions and FlowVelocity |
| Lbm.FlowCell | src/lbm.c:171-173 | the inner loop writes the 19 slots of one cell, and keeps the earlier cells |
| Lbm.VelocityCell | src/lbm.c:174-177 | the four velocity writes of one cell keep the earlier cells |
| Lbm.DecodeForce | src/lbm.c:252-254 | each force component times 10000 is the kernel's integer |
| Lbm.DecodeForceRoundTrip | src/lbm.c:252-254 | the components are results[k]/10000 exactly |
| Lbm.DragCoefficient | src/lbm.c:257-274 | Cd is never negative; it is 0 when 0.5·U²·A < 1e-10, and otherwise Cd·(0.5·U²·A) = |fx| |
| Lbm.NoFlowNoDrag | src/lbm.c:267-269 | U = 0 or A ≤ 0 gives Cd = 0 |
| Lbm.DragIgnoresDirection | src/lbm.c:262 | Cd depends only on |fx| |
| Lbm.Groups | src/lbm.c:207 | (size + 7)/8 groups of 8 cover the axis, and one group fewer does not |
| Lbm.GroupsLeast | src/lbm.c:207 | no smaller number of groups of 8 covers the axis |
| Lbm.LbmGrid.constructor | src/lbm.c:29-108 | stores the sizes, the clamped τ and whether the force shader loaded; the solid mask is all fluid |
| Lbm.Create | src/lbm.c:29-108 | returns null exactly when the collide or the stream shader failed; otherwise a grid as the constructor states |
| Lbm.LbmGrid.SetSolidAABB | src/lbm.c:125-162 | the solid mask becomes the box mask of the box's cells, converted with floor; no other buffer changes |
| Lbm.LbmGrid.SetSolidAABBAsWritten | src/lbm.c:125-162 | the solid mask becomes the box mask of the box's cells as the source converts them; no other buffer changes |
| Lbm.LbmGrid.SetSolidMesh | src/lbm.c:276-362 | the solid mask becomes MeshMask; no other buffer changes |
| Lbm.LbmGrid.InitializeFlow | src/lbm.c:164-193 | f and fNew both become FlowDistributions, velocity becomes FlowVelocity, and the mask and force buffers are kept |
| Lbm.LbmGrid.StepGroups | src/lbm.c:207 | the group counts of each axis cover it, and one fewer would not |
| Lbm.LbmGrid.ComputeDragForce | src/lbm.c:222-255 | (0, 0, 0) without a force shader; otherwise the force buffer holds the kernel's results and the force is their decoding |
| Lbm.LbmGrid.ComputeDragCoefficient | src/lbm.c:257-274 | 0 without a force shader, with the force buffer unchanged; otherwise DragCoefficient of the decoded fx, with the force buffer holding the kernel's results; never negative |
| Particles.CheckCollision | src/particle_system.c:52-56 | true exactly when the point lies within the inclusive bounds on all three axes |
| Particles.NormalAxis | src/particle_system.c:76-85 | the axis of least penetration: x exactly when penX is strictly below both others, y only when penY < penZ |
| Particles.Capped | src/particle_system.c:165-167 | a bucket keeps exactly the first MAX_PARTICLES/GRID_CELL_SIZE entries offered to it, or all of them when fewer are offered |
| Particles.ResolveMovesOneAxis | src/particle_system.c:59-85 | the particle moves along the normal axis only, to centre ± (halfSize + 0.01) on the side it lies on; life and padding are unchanged |
| Particles.ResolveKeepsOutgoingVelocity | src/particle_system.c:87-99 | when velocity·normal ≥ 0, the velocity is unchanged |
| Particles.ResolveBounces | src/particle_system.c:87-99 | when velocity·normal < 0, the normal component is reversed and scaled by 0.3, and the kicks are added to y and z |
| Particles.ResolveEscapes | src/particle_system.c:59-85 | for a box centred on its centre point, the pushed-out particle lies outside the box |
| Particles.WallConfines | src/particle_system.c:147-154 | a wall constraint puts the coordinate in [-2, 2], and leaves a coordinate already inside, and its velocity, alone |
| Particles.AdvanceConfines | src/particle_system.c:119-155 | after its update, every particle's y and z lie in [-2, 2] |
| Particles.RespawnAtInlet | src/particle_system.c:136-144 | an expired particle, or one past x = 4, is reset to x = -4 with life 1 and no transverse velocity |
| Particles.NoRespawnWhileAlive | src/particle_system.c:136 | a particle that is alive and at x ≤ 4 is not reset |
| Particles.UpdateBucketTruncates | src/particle_system.c:160-161 | with (int), a particle less than one column left of x = -4 is filed under column 0 |
| Particles.CappedAppend | src/particle_system.c:165-167 | offering one more particle appends it exactly when the bucket is below capacity |
| Particles.BucketStep | src/particle_system.c:158-169 | reinserting one more particle changes only its own bucket, and only when that bucket is below capacity |
| Particles.BucketsHoldAtMostAll | src/particle_system.c:157-169 | the bucket counts sum to at most numParticles, and no bucket exceeds MAX_PARTICLES/GRID_CELL_SIZE |
| Particles.BucketsAreSorted | src/particle_system.c:160-166 | every particle in bucket (i, j) is a live particle whose mapped cell is (i, j) |
| Particles.FiledAtMostOnce | src/particle_system.c:158-169 | summed over all rows and columns of the table, at most numParticles particles are filed: each is filed under at most one bucket |
| Particles.ParticleSystem.constructor | src/particle_system.c:17-24 | the buffer of MAX_PARTICLES particles and the GRID_CELL_SIZE × GRID_CELL_SIZE bucket table, with numParticles 0 and every bucket empty, as ParticleSystem_Init leaves them |
| Particles.ParticleSystem.Init | src/particle_system.c:17-24 | numParticles becomes 0 and every bucket is empty |
| Particles.ParticleSystem.ClearBuckets | src/particle_system.c:109-113 | every bucket is empty |
| Particles.ParticleSystem.AddParticle | src/particle_system.c:27-49 | a no-op when the buffer is full; otherwise slot numParticles gets the position, velocity, padding 0 and life 1, numParticles grows by one, and only the particle's bucket (when in range and below capacity) gains it |
| Particles.ParticleSystem.UpdateWithCollision | src/particle_system.c:103-170 | numParticles is unchanged; each live particle is advanced, pushed out, aged, respawned and confined as Advance states; the buckets are cleared and then hold exactly the reinserted live particles |
| Particles.ParticleSystem.Reinsert | src/particle_system.c:157-169 | from empty buckets, each bucket ends with the first particles, up to capacity, that map to it, in order |

## Left out

- The GPU side of the LBM solver is not modelled: buffer creation, shader compilation, binding, dispatch, barriers and read-back (src/lbm.c:51-69, 78-104, 196-215, 230-249). The collide, stream and force kernels are not part of this model. Their effect is represented only by the force results, which are a parameter.
- Lbm.LbmGrid.constructor: does not state the contents of f, fNew, velocity and the force buffer, because glBufferData with NULL leaves them undefined (src/lbm.c:51-69). It states only their sizes, through Valid. The solid mask is stated, because src/lbm.c:70-74 zeroes it.
- Lbm.Create: the shader loads are the flags collideOk, streamOk and forceOk. A failed allocation of the grid struct is not modelled.
- Lbm.LbmGrid.SetSolidMesh: solidCount is not modelled, because it is only printed.
- LBM_Free, FluidCubeFree and the free() calls in loadOBJ and freeModel release memory, which has no counterpart here.
- Cube.FluidCube.constructor: does not model the NULL return when malloc or calloc fails.
- ObjModel.LoadOBJ: models a failed allocation and a failed open as the inputs allocOk and file.None. One file value stands for the three separate fopen calls (obj-file-loader/lib/model_loader.c:8, 27 and 73), so a file that changes, or becomes unreadable, between the two counting passes and the parsing pass is not represented.
- Every printf, including the debug prints in diffuse, project and advect and the message printed for a skipped advect cell.
- File I/O: a file is a sequence of lines. fgets's 256- and 512-byte chunking, which would split longer lines, is not modelled.
- The `sscanf("v %f %f %f")` vertex parse is the function parameter vertexOf.
- Floating point: every float is a real. So 1/3 and 1/18 are exact, 1e-5 and 1e-10 are exact decimals, and nothing about rounding, overflow, NaN or infinity is modelled.
- FluidSolve.LinSolve: requires c ≠ 0 (Diffusible for diffuse), because 1.0/c has no real value at 0. In C it would be infinite.
- FluidBoundary.SetBnd: requires every size ≥ 2, because for a size of 1 set_bnd reads index -1.
- Integers are unbounded. Sizes are nat. Nothing models the overflow of sizeX·sizeY·sizeZ, 19·totalCells, the force integers or the counters.
- The random numbers of the particle system (rand()/RAND_MAX at src/particle_system.c:97-98 and 138-140) are arbitrary inputs.
- The OpenMP parallel loop at src/particle_system.c:116-118 is modelled as a sequential loop.
- ParticleSystem_Update is UpdateWithCollision with bounds None.
- The fluid argument of UpdateWithCollision is unused apart from reading its sizes.
- ParticleSystem_Render and all rendering, UI and colour code.
- `GRID_CELL_SIZE`, `GridCell` and `padding1` are not declared in lib/particle_system.h. GRID_CELL_SIZE is the positive parameter cellSize. `MAX_PARTICLES` is 10000, as in lib/config.h:29.
- A bucket is modelled by the particles it holds. Stale entries past its count are not modelled, because nothing in the core reads them.
- The model follows src/lbm.c, not lib/lbm.h. The header's struct lacks forceShader and forceBuffer, and it declares LBM_SetSolidFromMesh where src/lbm.c:276 defines LBM_SetSolidMesh.
- obj-file-loader/src/model_laoder.c, an older duplicate of loadOBJ, is not part of this model.

## Findings

| source | as written | input that shows it | evidently intended | confidence | as-written member | corrected member |
|---|---|---|---|---|---|---|
| src/fluid_cube.c:295 | FluidCubeStep passes density as the divergence scratch of both project calls, so the interior of density is overwritten with divergence before density is diffused and advected | a cube at rest with diff = 0, density raised at an interior cell by FluidCubeAddDensity; after one step that cell's density is 0 | density is carried through the step, using a scratch buffer of its own; at rest with diff = 0 it would stay where it was | high; not executed | Cube.AddedDensityIsLost | Cube.StepKeepsDensityAtRest |
| src/lbm.c:131-136 | the grid bounds are converted with (int), which truncates toward zero, so a box bound less than one cell below the grid origin becomes cell 0 | an 8×4×4 grid and the box x ∈ [-4.9, -4.1], y, z ∈ [-1, 1]: the box lies left of the grid, yet cell (0, 2, 2) is marked solid | a box wholly outside the grid marks nothing: converted with floor, a cell is marked exactly when it meets the box | medium; not executed | Lbm.AabbAsWrittenMarksBoxLeftOfGrid | Lbm.AabbCellsMeetBox |
