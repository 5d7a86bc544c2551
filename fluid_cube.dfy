/** The FluidCube of src/fluid_cube.c and lib/fluid_cube.h: eight fields
    on one grid, the parameters of the solver, and FluidCubeStep, which
    diffuses, projects and advects the velocity and then diffuses and
    advects the density.

    FluidCubeStep as written passes the density field to project as its
    divergence scratch buffer (fluid_cube.c:295), so the density a step
    starts from is overwritten before it is read. StepFieldsAsWritten
    models that; StepFields is the step with a scratch buffer of its own,
    and it is what the FluidCube class runs. */
module Cube {
  import opened Grid
  import opened ObjModel
  import opened FluidBoundary
  import opened BoundaryRules
  import opened FluidSolve
  import opened FluidProject
  import opened FluidAdvect

  /** The eight fields of a cube, as values. */
  datatype Fields = Fields(s: seq<real>, density: seq<real>,
                           vx: seq<real>, vy: seq<real>, vz: seq<real>,
                           vx0: seq<real>, vy0: seq<real>, vz0: seq<real>)

  /** The parameters a cube is created with. */
  datatype Params = Params(d: Dims, dt: real, diff: real, visc: real, model: Option<Model>)

  /** Every field has one value per cell. */
  predicate Fits(f: Fields, d: Dims) {
    IsField(f.s, d) && IsField(f.density, d) &&
    IsField(f.vx, d) && IsField(f.vy, d) && IsField(f.vz, d) &&
    IsField(f.vx0, d) && IsField(f.vy0, d) && IsField(f.vz0, d)
  }

  /** What a step needs: sides of at least two cells, a model fit for ray
      casting, and solvable diffusion systems (1 + 6a != 0). */
  predicate Steppable(pr: Params) {
    Sized(pr.d) && ValidModel(pr.model) && Diffusible(pr.dt, pr.visc, pr.d) && Diffusible(pr.dt, pr.diff, pr.d)
  }

  /** The iteration count FluidCubeStep passes to diffuse and project. */
  const Iterations: nat := 4

  /** The first half of vel_step: diffuse the three components, then
      project them with s as pressure and div as divergence scratch. */
  function DiffuseAndProject(f: Fields, div: seq<real>, pr: Params): (r: Projection)
    requires Steppable(pr) && Fits(f, pr.d) && IsField(div, pr.d)
    ensures IsField(r.vx, pr.d) && IsField(r.vy, pr.d) && IsField(r.vz, pr.d) && IsField(r.p, pr.d) && IsField(r.div, pr.d)
  {
    var d, m := pr.d, pr.model;
    var vx0 := Diffuse(1, f.vx0, f.vx, pr.visc, pr.dt, Iterations, d, m);
    var vy0 := Diffuse(2, f.vy0, f.vy, pr.visc, pr.dt, Iterations, d, m);
    var vz0 := Diffuse(3, f.vz0, f.vz, pr.visc, pr.dt, Iterations, d, m);
    Project(vx0, vy0, vz0, f.s, div, Iterations, d, m)
  }

  /** The second half of vel_step: advect the three components along the
      first projection r1, then project them once more with r1's scratch. */
  function AdvectAndProject(f: Fields, r1: Projection, pr: Params): (r: Projection)
    requires Steppable(pr) && Fits(f, pr.d)
    requires IsField(r1.vx, pr.d) && IsField(r1.vy, pr.d) && IsField(r1.vz, pr.d) && IsField(r1.p, pr.d) && IsField(r1.div, pr.d)
    ensures IsField(r.vx, pr.d) && IsField(r.vy, pr.d) && IsField(r.vz, pr.d) && IsField(r.p, pr.d) && IsField(r.div, pr.d)
  {
    var d, m := pr.d, pr.model;
    var vx := Advect(1, f.vx, r1.vx, r1.vx, r1.vy, r1.vz, pr.dt, d, m);
    var vy := Advect(2, f.vy, r1.vy, r1.vx, r1.vy, r1.vz, pr.dt, d, m);
    var vz := Advect(3, f.vz, r1.vz, r1.vx, r1.vy, r1.vz, pr.dt, d, m);
    Project(vx, vy, vz, r1.p, r1.div, Iterations, d, m)
  }

  /** The velocity half of a step, with div as project's divergence
      scratch: both projections. */
  function VelocityStep(f: Fields, div: seq<real>, pr: Params): (r: (Projection, Projection))
    requires Steppable(pr) && Fits(f, pr.d) && IsField(div, pr.d)
    ensures IsField(r.1.vx, pr.d) && IsField(r.1.vy, pr.d) && IsField(r.1.vz, pr.d) && IsField(r.1.p, pr.d) && IsField(r.1.div, pr.d)
    ensures IsField(r.0.vx, pr.d) && IsField(r.0.vy, pr.d) && IsField(r.0.vz, pr.d)
  {
    var r1 := DiffuseAndProject(f, div, pr);
    (r1, AdvectAndProject(f, r1, pr))
  }

  /** The density half of a step: diffuse(0, s, density) and then
      advect(0, density, s) with the projected velocity. p is what s holds
      and dens what density holds when it starts; the result is the new s
      and the new density. */
  function DensityStep(p: seq<real>, dens: seq<real>, vx: seq<real>, vy: seq<real>, vz: seq<real>, pr: Params): (r: (seq<real>, seq<real>))
    requires Steppable(pr) && IsField(p, pr.d) && IsField(dens, pr.d) && IsField(vx, pr.d) && IsField(vy, pr.d) && IsField(vz, pr.d)
    ensures IsField(r.0, pr.d) && IsField(r.1, pr.d)
  {
    var s := Diffuse(0, p, dens, pr.diff, pr.dt, Iterations, pr.d, pr.model);
    (s, Advect(0, dens, s, vx, vy, vz, pr.dt, pr.d, pr.model))
  }

  /** FluidCubeStep as written: p is s and div is density, so the density
      half starts from whatever the second project left in density. */
  function StepFieldsAsWritten(f: Fields, pr: Params): (r: Fields)
    requires Steppable(pr) && Fits(f, pr.d)
    ensures Fits(r, pr.d)
  {
    var (r1, r2) := VelocityStep(f, f.density, pr);
    var (s, density) := DensityStep(r2.p, r2.div, r2.vx, r2.vy, r2.vz, pr);
    Fields(s, density, r2.vx, r2.vy, r2.vz, r1.vx, r1.vy, r1.vz)
  }

  /** FluidCubeStep with a zeroed divergence buffer of its own: the density
      half starts from the density the step started from. */
  function StepFields(f: Fields, pr: Params): (r: Fields)
    requires Steppable(pr) && Fits(f, pr.d)
    ensures Fits(r, pr.d)
  {
    var (r1, r2) := VelocityStep(f, Zeros(pr.d), pr);
    var (s, density) := DensityStep(r2.p, f.density, r2.vx, r2.vy, r2.vz, pr);
    Fields(s, density, r2.vx, r2.vy, r2.vz, r1.vx, r1.vy, r1.vz)
  }

  /** FluidCubeAddDensity: amount is added to cell (x, y, z) when it lies in
      the grid; otherwise nothing changes. */
  function WithDensity(f: Fields, d: Dims, x: int, y: int, z: int, amount: real): (r: Fields)
    requires Fits(f, d)
    ensures Fits(r, d) && r.(density := f.density) == f
    ensures d.Contains(x, y, z) ==>
      (0 <= d.Ix(x, y, z) < |f.density| &&
       r.density[d.Ix(x, y, z)] == f.density[d.Ix(x, y, z)] + amount &&
       forall n :: 0 <= n < |f.density| && n != d.Ix(x, y, z) ==> r.density[n] == f.density[n])
    ensures !d.Contains(x, y, z) ==> r == f
  {
    if d.Contains(x, y, z) then
      IxRange(d, x, y, z);
      var n := d.Ix(x, y, z);
      f.(density := f.density[n := f.density[n] + amount])
    else f
  }

  /** FluidCubeAddVelocity: the three amounts are added to the velocity at
      cell (x, y, z) when it lies in the grid; otherwise nothing changes. */
  function WithVelocity(f: Fields, d: Dims, x: int, y: int, z: int, ax: real, ay: real, az: real): (r: Fields)
    requires Fits(f, d)
    ensures Fits(r, d) && r.(vx := f.vx, vy := f.vy, vz := f.vz) == f
    ensures d.Contains(x, y, z) ==>
      (0 <= d.Ix(x, y, z) < |f.vx| &&
       r.vx == f.vx[d.Ix(x, y, z) := f.vx[d.Ix(x, y, z)] + ax] &&
       r.vy == f.vy[d.Ix(x, y, z) := f.vy[d.Ix(x, y, z)] + ay] &&
       r.vz == f.vz[d.Ix(x, y, z) := f.vz[d.Ix(x, y, z)] + az])
    ensures !d.Contains(x, y, z) ==> r == f
  {
    if d.Contains(x, y, z) then
      IxRange(d, x, y, z);
      var n := d.Ix(x, y, z);
      f.(vx := f.vx[n := f.vx[n] + ax], vy := f.vy[n := f.vy[n] + ay], vz := f.vz[n := f.vz[n] + az])
    else f
  }

  /** All six velocity fields are zero: a cube just created, or one that
      only received density. */
  predicate AtRest(f: Fields, d: Dims) {
    f.vx == Zeros(d) && f.vy == Zeros(d) && f.vz == Zeros(d) &&
    f.vx0 == Zeros(d) && f.vy0 == Zeros(d) && f.vz0 == Zeros(d)
  }

  // ---------------------------------------------------------------------
  // Properties

  /** The step as written does not depend on the interior of the density it
      starts from: two cubes that differ only there step to the same cube. */
  lemma StepAsWrittenIgnoresDensity(f: Fields, f': Fields, pr: Params)
    requires Steppable(pr) && Fits(f, pr.d) && Fits(f', pr.d)
    requires f'.(density := f.density) == f
    requires forall n :: 0 <= n < |f.density| && !pr.d.Interior(n) ==> f.density[n] == f'.density[n]
    ensures StepFieldsAsWritten(f, pr) == StepFieldsAsWritten(f', pr)
  {
    var d, m := pr.d, pr.model;
    var vx0 := Diffuse(1, f.vx0, f.vx, pr.visc, pr.dt, Iterations, d, m);
    var vy0 := Diffuse(2, f.vy0, f.vy, pr.visc, pr.dt, Iterations, d, m);
    var vz0 := Diffuse(3, f.vz0, f.vz, pr.visc, pr.dt, Iterations, d, m);
    ProjectIgnoresScratchInterior(vx0, vy0, vz0, f.s, f.density, f.s, f'.density, Iterations, d, m);
    assert DiffuseAndProject(f, f.density, pr) == DiffuseAndProject(f', f'.density, pr);
    assert VelocityStep(f, f.density, pr) == VelocityStep(f', f'.density, pr);
  }

  /** So density added inside the grid before a step is lost by it. */
  lemma AddedDensityIsLost(f: Fields, pr: Params, x: int, y: int, z: int, amount: real)
    requires Steppable(pr) && Fits(f, pr.d) && Interior3(pr.d, x, y, z)
    ensures StepFieldsAsWritten(WithDensity(f, pr.d, x, y, z, amount), pr) == StepFieldsAsWritten(f, pr)
  {
    var d := pr.d;
    var f' := WithDensity(f, d, x, y, z, amount);
    forall n | 0 <= n < |f.density| && !d.Interior(n)
      ensures f.density[n] == f'.density[n]
    {
      Decode(d, x, y, z);
    }
    StepAsWrittenIgnoresDensity(f, f', pr);
  }

  /** Diffusing and projecting a velocity at rest leaves it at rest. */
  lemma DiffuseAndProjectAtRest(f: Fields, div: seq<real>, pr: Params)
    requires Steppable(pr) && Fits(f, pr.d) && IsField(div, pr.d) && AtRest(f, pr.d)
    ensures var r := DiffuseAndProject(f, div, pr);
      r.vx == Zeros(pr.d) && r.vy == Zeros(pr.d) && r.vz == Zeros(pr.d)
  {
    var d, m := pr.d, pr.model;
    DiffuseZeros(1, pr.visc, pr.dt, Iterations, d, m);
    DiffuseZeros(2, pr.visc, pr.dt, Iterations, d, m);
    DiffuseZeros(3, pr.visc, pr.dt, Iterations, d, m);
    ProjectAtRest(f.s, div, Iterations, d, m);
  }

  /** Advecting a velocity at rest along a projection at rest and
      projecting it leaves it at rest, and zeroes the divergence scratch
      away from the edges. */
  lemma AdvectAndProjectAtRest(f: Fields, r1: Projection, pr: Params)
    requires Steppable(pr) && Fits(f, pr.d) && AtRest(f, pr.d)
    requires IsField(r1.p, pr.d) && IsField(r1.div, pr.d)
    requires r1.vx == Zeros(pr.d) && r1.vy == Zeros(pr.d) && r1.vz == Zeros(pr.d)
    ensures var r := AdvectAndProject(f, r1, pr);
      r.vx == Zeros(pr.d) && r.vy == Zeros(pr.d) && r.vz == Zeros(pr.d) &&
      (HasInterior(pr.d) ==> CoreZero(r.div, pr.d))
  {
    var d, m, z := pr.d, pr.model, Zeros(pr.d);
    AdvectZeros(1, z, z, z, pr.dt, d, m);
    AdvectZeros(2, z, z, z, pr.dt, d, m);
    AdvectZeros(3, z, z, z, pr.dt, d, m);
    ProjectAtRest(r1.p, r1.div, Iterations, d, m);
    if HasInterior(d) {
      PressureAtRest(r1.p, r1.div, Iterations, d, m);
    }
  }

  /** The velocity half keeps a cube at rest at rest. */
  lemma VelocityStepAtRest(f: Fields, div: seq<real>, pr: Params)
    requires Steppable(pr) && Fits(f, pr.d) && IsField(div, pr.d) && AtRest(f, pr.d)
    ensures var (r1, r2) := VelocityStep(f, div, pr);
      r1.vx == Zeros(pr.d) && r1.vy == Zeros(pr.d) && r1.vz == Zeros(pr.d) &&
      r2.vx == Zeros(pr.d) && r2.vy == Zeros(pr.d) && r2.vz == Zeros(pr.d) &&
      (HasInterior(pr.d) ==> CoreZero(r2.div, pr.d))
  {
    var r1 := DiffuseAndProject(f, div, pr);
    DiffuseAndProjectAtRest(f, div, pr);
    AdvectAndProjectAtRest(f, r1, pr);
  }

  /** A cube at rest stays at rest, in both steps. */
  lemma RestIsKept(f: Fields, pr: Params)
    requires Steppable(pr) && Fits(f, pr.d) && AtRest(f, pr.d)
    ensures AtRest(StepFields(f, pr), pr.d) && AtRest(StepFieldsAsWritten(f, pr), pr.d)
  {
    VelocityStepAtRest(f, Zeros(pr.d), pr);
    VelocityStepAtRest(f, f.density, pr);
  }

  /** As written, a step of a cube at rest without diffusion clears the
      density on every interior cell, whatever it was. */
  lemma StepAsWrittenClearsDensity(f: Fields, pr: Params, i: int, j: int, k: int)
    requires Steppable(pr) && Fits(f, pr.d) && AtRest(f, pr.d) && pr.diff == 0.0 && Interior3(pr.d, i, j, k)
    ensures At(StepFieldsAsWritten(f, pr).density, pr.d, i, j, k) == 0.0
  {
    var (r1, r2) := VelocityStep(f, f.density, pr);
    VelocityStepAtRest(f, f.density, pr);
    assert At(r2.div, pr.d, i, j, k) == 0.0;
    DensityStepAtRest(r2.p, r2.div, pr, i, j, k);
  }

  /** With its own scratch buffer, a step of a cube at rest without
      diffusion keeps the density of every interior cell outside the
      model (and clears the cells inside it). */
  lemma StepKeepsDensityAtRest(f: Fields, pr: Params, i: int, j: int, k: int)
    requires Steppable(pr) && Fits(f, pr.d) && AtRest(f, pr.d) && pr.diff == 0.0 && Interior3(pr.d, i, j, k)
    ensures At(StepFields(f, pr).density, pr.d, i, j, k) ==
      if Solid(pr.model, pr.d, i, j) then 0.0 else At(f.density, pr.d, i, j, k)
  {
    var (r1, r2) := VelocityStep(f, Zeros(pr.d), pr);
    VelocityStepAtRest(f, Zeros(pr.d), pr);
    DensityStepAtRest(r2.p, f.density, pr, i, j, k);
  }

  /** The density half without diffusion or velocity leaves each interior
      cell outside the model as it was. */
  lemma DensityStepAtRest(p: seq<real>, dens: seq<real>, pr: Params, i: int, j: int, k: int)
    requires Steppable(pr) && IsField(p, pr.d) && IsField(dens, pr.d) && pr.diff == 0.0 && Interior3(pr.d, i, j, k)
    ensures At(DensityStep(p, dens, Zeros(pr.d), Zeros(pr.d), Zeros(pr.d), pr).1, pr.d, i, j, k) ==
      if Solid(pr.model, pr.d, i, j) then 0.0 else At(dens, pr.d, i, j, k)
  {
    var d, m := pr.d, pr.model;
    var s := Diffuse(0, p, dens, 0.0, pr.dt, Iterations, d, m);
    DiffuseWithoutDiffusion(0, p, dens, pr.dt, Iterations, d, m, i, j, k);
    AdvectAtRest(0, dens, s, pr.dt, d, m, i, j, k);
  }

  // ---------------------------------------------------------------------
  // The cube in memory

  class FluidCube {
    const d: Dims
    const dt: real
    const diff: real
    const visc: real
    const model: Option<Model>

    const s: array<real>
    const density: array<real>
    const vx: array<real>
    const vy: array<real>
    const vz: array<real>
    const vx0: array<real>
    const vy0: array<real>
    const vz0: array<real>

    /** Eight distinct arrays of one value per cell. */
    predicate Valid() {
      s.Length == d.Cells() && density.Length == d.Cells() &&
      vx.Length == d.Cells() && vy.Length == d.Cells() && vz.Length == d.Cells() &&
      vx0.Length == d.Cells() && vy0.Length == d.Cells() && vz0.Length == d.Cells() &&
      s != density && s != vx && s != vy && s != vz && s != vx0 && s != vy0 && s != vz0 &&
      density != vx && density != vy && density != vz && density != vx0 && density != vy0 && density != vz0 &&
      vx != vy && vx != vz && vx != vx0 && vx != vy0 && vx != vz0 &&
      vy != vz && vy != vx0 && vy != vy0 && vy != vz0 &&
      vz != vx0 && vz != vy0 && vz != vz0 &&
      vx0 != vy0 && vx0 != vz0 && vy0 != vz0
    }

    function Config(): Params {
      Params(d, dt, diff, visc, model)
    }

    function State(): (f: Fields)
      reads s, density, vx, vy, vz, vx0, vy0, vz0
    {
      Fields(s[..], density[..], vx[..], vy[..], vz[..], vx0[..], vy0[..], vz0[..])
    }

    /** FluidCubeCreate: the sizes and parameters are stored and every
        field starts at 0 (calloc). */
    constructor (sizeX: nat, sizeY: nat, sizeZ: nat, diffusion: real, viscosity: real, timeStep: real, m: Option<Model>)
      ensures Valid() && fresh(s) && fresh(density) && fresh(vx) && fresh(vy) && fresh(vz) && fresh(vx0) && fresh(vy0) && fresh(vz0)
      ensures Config() == Params(Dims(sizeX, sizeY, sizeZ), timeStep, diffusion, viscosity, m)
      ensures var z := Zeros(d); State() == Fields(z, z, z, z, z, z, z, z)
    {
      var dims := Dims(sizeX, sizeY, sizeZ);
      d, dt, diff, visc, model := dims, timeStep, diffusion, viscosity, m;
      var a0 := ZeroField(dims);
      var a1 := ZeroField(dims);
      var a2 := ZeroField(dims);
      var a3 := ZeroField(dims);
      var a4 := ZeroField(dims);
      var a5 := ZeroField(dims);
      var a6 := ZeroField(dims);
      var a7 := ZeroField(dims);
      s, density, vx, vy, vz, vx0, vy0, vz0 := a0, a1, a2, a3, a4, a5, a6, a7;
    }

    /** FluidCubeAddDensity. */
    method AddDensity(x: int, y: int, z: int, amount: real)
      requires Valid()
      modifies density
      ensures State() == WithDensity(old(State()), d, x, y, z, amount)
    {
      if x < 0 || x >= d.sx || y < 0 || y >= d.sy || z < 0 || z >= d.sz {
        return;
      }
      IxRange(d, x, y, z);
      var index := d.Ix(x, y, z);
      density[index] := density[index] + amount;
    }

    /** FluidCubeAddVelocity. */
    method AddVelocity(x: int, y: int, z: int, amtX: real, amtY: real, amtZ: real)
      requires Valid()
      modifies vx, vy, vz
      ensures State() == WithVelocity(old(State()), d, x, y, z, amtX, amtY, amtZ)
    {
      if x < 0 || x >= d.sx || y < 0 || y >= d.sy || z < 0 || z >= d.sz {
        return;
      }
      IxRange(d, x, y, z);
      var index := d.Ix(x, y, z);
      vx[index] := vx[index] + amtX;
      vy[index] := vy[index] + amtY;
      vz[index] := vz[index] + amtZ;
    }

    /** FluidCubeStep, with a divergence buffer of its own. */
    method Step()
      requires Valid() && Steppable(Config())
      modifies s, density, vx, vy, vz, vx0, vy0, vz0
      ensures State() == StepFields(old(State()), Config())
    {
      ghost var f := State();
      var div := ZeroField(d);
      VelocityHalf(div);
      ghost var (r1, r2) := VelocityStep(f, Zeros(d), Config());
      assert State() == Fields(r2.p, f.density, r2.vx, r2.vy, r2.vz, r1.vx, r1.vy, r1.vz);
      DensityHalf();
    }

    /** FluidCubeStep as written, with density as project's scratch. */
    method StepAsWritten()
      requires Valid() && Steppable(Config())
      modifies s, density, vx, vy, vz, vx0, vy0, vz0
      ensures State() == StepFieldsAsWritten(old(State()), Config())
    {
      ghost var f := State();
      VelocityHalf(density);
      ghost var (r1, r2) := VelocityStep(f, f.density, Config());
      assert State() == Fields(r2.p, r2.div, r2.vx, r2.vy, r2.vz, r1.vx, r1.vy, r1.vz);
      DensityHalf();
    }

    /** The last two calls of FluidCubeStep. */
    method DensityHalf()
      requires Valid() && Steppable(Config())
      modifies s, density
      ensures (s[..], density[..]) == DensityStep(old(s[..]), old(density[..]), vx[..], vy[..], vz[..], Config())
    {
      DiffuseInPlace(0, s, density, diff, dt, Iterations, d, model);
      AdvectInPlace(0, density, s, vx, vy, vz, dt, d, model);
    }

    /** The velocity half of FluidCubeStep, with div as project's scratch
        (density in the source). */
    method VelocityHalf(div: array<real>)
      requires Valid() && Steppable(Config()) && div.Length == d.Cells()
      requires div != s && div != vx && div != vy && div != vz && div != vx0 && div != vy0 && div != vz0
      modifies s, vx, vy, vz, vx0, vy0, vz0, div
      ensures var (r1, r2) := VelocityStep(old(State()), old(div[..]), Config());
        vx0[..] == r1.vx && vy0[..] == r1.vy && vz0[..] == r1.vz &&
        vx[..] == r2.vx && vy[..] == r2.vy && vz[..] == r2.vz && s[..] == r2.p && div[..] == r2.div
    {
      ghost var f := State();
      DiffuseProjectHalf(div);
      ghost var r1 := Projection(vx0[..], vy0[..], vz0[..], s[..], div[..]);
      assert r1 == DiffuseAndProject(f, old(div[..]), Config());
      AdvectProjectHalf(div, f);
    }

    /** The first four calls of FluidCubeStep. */
    method DiffuseProjectHalf(div: array<real>)
      requires Valid() && Steppable(Config()) && div.Length == d.Cells()
      requires div != s && div != vx && div != vy && div != vz && div != vx0 && div != vy0 && div != vz0
      modifies s, vx0, vy0, vz0, div
      ensures var r := DiffuseAndProject(old(State()), old(div[..]), Config());
        vx0[..] == r.vx && vy0[..] == r.vy && vz0[..] == r.vz && s[..] == r.p && div[..] == r.div
    {
      DiffuseInPlace(1, vx0, vx, visc, dt, Iterations, d, model);
      DiffuseInPlace(2, vy0, vy, visc, dt, Iterations, d, model);
      DiffuseInPlace(3, vz0, vz, visc, dt, Iterations, d, model);
      ProjectInPlace(vx0, vy0, vz0, s, div, Iterations, d, model);
    }

    /** The next four calls of FluidCubeStep; f is the state the step
        started from, which still holds the velocity to advect. */
    method AdvectProjectHalf(div: array<real>, ghost f: Fields)
      requires Valid() && Steppable(Config()) && div.Length == d.Cells() && Fits(f, d)
      requires div != s && div != vx && div != vy && div != vz && div != vx0 && div != vy0 && div != vz0
      requires vx[..] == f.vx && vy[..] == f.vy && vz[..] == f.vz
      modifies s, vx, vy, vz, div
      ensures var r := AdvectAndProject(f, Projection(old(vx0[..]), old(vy0[..]), old(vz0[..]), old(s[..]), old(div[..])), Config());
        vx[..] == r.vx && vy[..] == r.vy && vz[..] == r.vz && s[..] == r.p && div[..] == r.div
    {
      AdvectInPlace(1, vx, vx0, vx0, vy0, vz0, dt, d, model);
      AdvectInPlace(2, vy, vy0, vx0, vy0, vz0, dt, d, model);
      AdvectInPlace(3, vz, vz0, vx0, vy0, vz0, dt, d, model);
      ProjectInPlace(vx, vy, vz, s, div, Iterations, d, model);
    }
  }

  /** A field as calloc returns it. */
  method ZeroField(d: Dims) returns (a: array<real>)
    ensures fresh(a) && a[..] == Zeros(d)
  {
    a := new real[d.Cells()](_ => 0.0);
    assert a[..] == Zeros(d);
  }
}
