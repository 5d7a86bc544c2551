/** project of src/fluid_cube.c: the divergence of the velocity field and a
    cleared pressure field, both passed through set_bnd(0, .), iter rounds
    (the step uses 4) of lin_solve(0, p, div, 1, 6) for the pressure, and the subtraction of
    the pressure gradient from the interior velocity, followed by set_bnd
    on each component. */
module FluidProject {
  import opened Grid
  import opened ObjModel
  import opened FluidBoundary
  import opened BoundaryRules
  import opened FluidSolve
  import opened InteriorLoop

  /** The divergence written at interior cell (i, j, k): minus half the
      central differences of the components, over sx + sy + sz. */
  function Divergence(vx: seq<real>, vy: seq<real>, vz: seq<real>, d: Dims, i: int, j: int, k: int): real
    requires Sized(d) && IsField(vx, d) && IsField(vy, d) && IsField(vz, d) && Interior3(d, i, j, k)
  {
    -0.5 * (At(vx, d, i + 1, j, k) - At(vx, d, i - 1, j, k)
          + At(vy, d, i, j + 1, k) - At(vy, d, i, j - 1, k)
          + At(vz, d, i, j, k + 1) - At(vz, d, i, j, k - 1)) / ((d.sx + d.sy + d.sz) as real)
  }

  /** div after the divergence loop: the divergence on the interior, the
      old value everywhere else. */
  function DivergenceField(vx: seq<real>, vy: seq<real>, vz: seq<real>, div: seq<real>, d: Dims): (r: seq<real>)
    requires Sized(d) && IsField(vx, d) && IsField(vy, d) && IsField(vz, d) && IsField(div, d)
    ensures IsField(r, d) && InteriorUpdate(r, div, d)
  {
    seq(|div|, n requires 0 <= n < |div| =>
      if d.Interior(n) then (Encode(d, n); Divergence(vx, vy, vz, d, d.X(n), d.Y(n), d.Z(n))) else div[n])
  }

  /** p after the divergence loop: 0 on the interior. */
  function ClearedInterior(p: seq<real>, d: Dims): (r: seq<real>)
    requires Sized(d) && IsField(p, d)
    ensures IsField(r, d) && InteriorUpdate(r, p, d)
  {
    seq(|p|, n requires 0 <= n < |p| => if d.Interior(n) then 0.0 else p[n])
  }

  /** The central difference of p along axis 1 (x), 2 (y) or 3 (z). */
  function Central(p: seq<real>, d: Dims, axis: int, i: int, j: int, k: int): real
    requires Sized(d) && IsField(p, d) && Interior3(d, i, j, k)
  {
    if axis == 1 then At(p, d, i + 1, j, k) - At(p, d, i - 1, j, k)
    else if axis == 2 then At(p, d, i, j + 1, k) - At(p, d, i, j - 1, k)
    else At(p, d, i, j, k + 1) - At(p, d, i, j, k - 1)
  }

  /** The size of the grid along an axis. */
  function Extent(d: Dims, axis: int): real {
    (if axis == 1 then d.sx else if axis == 2 then d.sy else d.sz) as real
  }

  /** Velocity component `axis` at interior cell (i, j, k) after the
      gradient loop. */
  function GradientValue(v: seq<real>, p: seq<real>, d: Dims, axis: int, i: int, j: int, k: int): real
    requires Sized(d) && IsField(v, d) && IsField(p, d) && Interior3(d, i, j, k)
  {
    Corrected(At(v, d, i, j, k), Central(p, d, axis, i, j, k), Extent(d, axis))
  }

  /** u - 0.5 * g * extent: a velocity component less half the scaled
      pressure difference. */
  function Corrected(u: real, g: real, extent: real): real {
    u - 0.5 * g * extent
  }

  /** Velocity component `axis` after the gradient loop. */
  function Gradient(v: seq<real>, p: seq<real>, d: Dims, axis: int): (r: seq<real>)
    requires Sized(d) && IsField(v, d) && IsField(p, d)
    ensures IsField(r, d) && InteriorUpdate(r, v, d)
  {
    seq(|v|, n requires 0 <= n < |v| =>
      if d.Interior(n) then (Encode(d, n); GradientValue(v, p, d, axis, d.X(n), d.Y(n), d.Z(n))) else v[n])
  }

  /** The five arrays project writes. */
  datatype Projection = Projection(vx: seq<real>, vy: seq<real>, vz: seq<real>, p: seq<real>, div: seq<real>)

  /** project(velocX, velocY, velocZ, p, div, iter). */
  function Project(vx: seq<real>, vy: seq<real>, vz: seq<real>, p: seq<real>, div: seq<real>, iter: nat, d: Dims, model: Option<Model>): (r: Projection)
    requires Sized(d) && IsField(vx, d) && IsField(vy, d) && IsField(vz, d) && IsField(p, d) && IsField(div, d) && ValidModel(model)
    ensures IsField(r.vx, d) && IsField(r.vy, d) && IsField(r.vz, d) && IsField(r.p, d) && IsField(r.div, d)
  {
    var div1 := SetBnd(0, DivergenceField(vx, vy, vz, div, d), d, model);
    var p1 := SetBnd(0, ClearedInterior(p, d), d, model);
    var p2 := LinSolve(0, p1, div1, 1.0, 6.0, iter, d, model);
    Projection(
      SetBnd(1, Gradient(vx, p2, d, 1), d, model),
      SetBnd(2, Gradient(vy, p2, d, 2), d, model),
      SetBnd(3, Gradient(vz, p2, d, 3), d, model),
      p2, div1)
  }

  // ---------------------------------------------------------------------
  // Properties

  /** project reads nothing of the interior of p and div: it overwrites
      it before any use. */
  lemma ProjectIgnoresScratchInterior(vx: seq<real>, vy: seq<real>, vz: seq<real>, p: seq<real>, div: seq<real>,
                                      p': seq<real>, div': seq<real>, iter: nat, d: Dims, model: Option<Model>)
    requires Sized(d) && IsField(vx, d) && IsField(vy, d) && IsField(vz, d) && ValidModel(model)
    requires IsField(p, d) && IsField(div, d) && IsField(p', d) && IsField(div', d)
    requires forall n :: 0 <= n < |p| && !d.Interior(n) ==> p[n] == p'[n]
    requires forall n :: 0 <= n < |div| && !d.Interior(n) ==> div[n] == div'[n]
    ensures Project(vx, vy, vz, p, div, iter, d, model) == Project(vx, vy, vz, p', div', iter, d, model)
  {
    assert DivergenceField(vx, vy, vz, div, d) == DivergenceField(vx, vy, vz, div', d);
    assert ClearedInterior(p, d) == ClearedInterior(p', d);
  }

  /** A gradient step with a pressure that is 0 on the interior and the
      faces leaves a zero component zero. */
  lemma GradientOfZero(p: seq<real>, d: Dims, axis: int)
    requires Sized(d) && IsField(p, d) && CoreZero(p, d)
    ensures Gradient(Zeros(d), p, d, axis) == Zeros(d)
  {
    var z := Zeros(d);
    forall n | 0 <= n < |z| && d.Interior(n)
      ensures Gradient(z, p, d, axis)[n] == 0.0
    {
      Encode(d, n);
      CentralOfCoreZero(p, d, axis, d.X(n), d.Y(n), d.Z(n));
    }
  }

  lemma CentralOfCoreZero(p: seq<real>, d: Dims, axis: int, i: int, j: int, k: int)
    requires Sized(d) && IsField(p, d) && CoreZero(p, d) && Interior3(d, i, j, k)
    ensures Central(p, d, axis, i, j, k) == 0.0
  {
    assert At(p, d, i + 1, j, k) == 0.0 && At(p, d, i - 1, j, k) == 0.0;
    assert At(p, d, i, j + 1, k) == 0.0 && At(p, d, i, j - 1, k) == 0.0;
    assert At(p, d, i, j, k + 1) == 0.0 && At(p, d, i, j, k - 1) == 0.0;
  }

  lemma GradientWithoutInterior(p: seq<real>, d: Dims, axis: int)
    requires Sized(d) && IsField(p, d) && !HasInterior(d)
    ensures Gradient(Zeros(d), p, d, axis) == Zeros(d)
  {
  }

  /** The divergence of the zero velocity field is 0 on the interior. */
  lemma DivergenceOfZero(div: seq<real>, d: Dims)
    requires Sized(d) && IsField(div, d)
    ensures InteriorZero(DivergenceField(Zeros(d), Zeros(d), Zeros(d), div, d), d)
  {
    var z := Zeros(d);
    var r := DivergenceField(z, z, z, div, d);
    forall i, j, k | Interior3(d, i, j, k)
      ensures At(r, d, i, j, k) == 0.0
    {
      IxRange(d, i, j, k);
      Decode(d, i, j, k);
      AtZeros(d, i + 1, j, k);
      AtZeros(d, i - 1, j, k);
      AtZeros(d, i, j + 1, k);
      AtZeros(d, i, j - 1, k);
      AtZeros(d, i, j, k + 1);
      AtZeros(d, i, j, k - 1);
    }
  }

  /** A fluid at rest stays at rest: project maps the zero velocity field
      to itself, whatever p and div held. */
  lemma ProjectAtRest(p: seq<real>, div: seq<real>, iter: nat, d: Dims, model: Option<Model>)
    requires Sized(d) && IsField(p, d) && IsField(div, d) && ValidModel(model)
    ensures var r := Project(Zeros(d), Zeros(d), Zeros(d), p, div, iter, d, model);
      r.vx == Zeros(d) && r.vy == Zeros(d) && r.vz == Zeros(d)
  {
    var z := Zeros(d);
    var r := Project(z, z, z, p, div, iter, d, model);
    if HasInterior(d) {
      PressureAtRest(p, div, iter, d, model);
      GradientOfZero(r.p, d, 1);
      GradientOfZero(r.p, d, 2);
      GradientOfZero(r.p, d, 3);
    } else {
      GradientWithoutInterior(r.p, d, 1);
      GradientWithoutInterior(r.p, d, 2);
      GradientWithoutInterior(r.p, d, 3);
    }
    SetBndZeros(1, d, model);
    SetBndZeros(2, d, model);
    SetBndZeros(3, d, model);
  }

  /** At rest, the pressure and divergence project leaves are 0 on their
      interior and faces. */
  lemma PressureAtRest(p: seq<real>, div: seq<real>, iter: nat, d: Dims, model: Option<Model>)
    requires HasInterior(d) && IsField(p, d) && IsField(div, d) && ValidModel(model)
    ensures var r := Project(Zeros(d), Zeros(d), Zeros(d), p, div, iter, d, model);
      CoreZero(r.p, d) && CoreZero(r.div, d)
  {
    var z := Zeros(d);
    var div1 := SetBnd(0, DivergenceField(z, z, z, div, d), d, model);
    var p1 := SetBnd(0, ClearedInterior(p, d), d, model);
    DivergenceOfZero(div, d);
    ClearedIsZero(p, d);
    SetBndCoreZero(0, DivergenceField(z, z, z, div, d), d, model);
    SetBndCoreZero(0, ClearedInterior(p, d), d, model);
    LinSolveCoreZero(0, p1, div1, 1.0, 6.0, iter, d, model);
    assert Project(z, z, z, p, div, iter, d, model).p == LinSolve(0, p1, div1, 1.0, 6.0, iter, d, model);
  }

  lemma ClearedIsZero(p: seq<real>, d: Dims)
    requires Sized(d) && IsField(p, d)
    ensures InteriorZero(ClearedInterior(p, d), d)
  {
    forall i, j, k | Interior3(d, i, j, k)
      ensures At(ClearedInterior(p, d), d, i, j, k) == 0.0
    {
      IxRange(d, i, j, k);
      Decode(d, i, j, k);
    }
  }

  // ---------------------------------------------------------------------
  // The loops of project, in place

  /** The divergence loop (fluid_cube.c:169-180): div gets the divergence
      and p gets 0 on every interior cell. */
  method DivergenceLoop(vx: array<real>, vy: array<real>, vz: array<real>, p: array<real>, div: array<real>, d: Dims)
    requires Sized(d) && IsField(vx[..], d) && IsField(vy[..], d) && IsField(vz[..], d) && IsField(p[..], d) && IsField(div[..], d)
    requires p != div && p != vx && p != vy && p != vz && div != vx && div != vy && div != vz
    modifies p, div
    ensures div[..] == DivergenceField(vx[..], vy[..], vz[..], old(div[..]), d)
    ensures p[..] == ClearedInterior(old(p[..]), d)
  {
    ghost var div0, p0 := div[..], p[..];
    ghost var tdiv := DivergenceField(vx[..], vy[..], vz[..], div0, d);
    ghost var tp := ClearedInterior(p0, d);
    PartialStart(div0, tdiv, d);
    PartialStart(p0, tp, d);
    for i := 1 to d.sx - 1
      invariant Partial(div[..], tdiv, div0, d, i, 1, 1) && Partial(p[..], tp, p0, d, i, 1, 1)
    {
      for j := 1 to d.sy - 1
        invariant Partial(div[..], tdiv, div0, d, i, j, 1) && Partial(p[..], tp, p0, d, i, j, 1)
      {
        for k := 1 to d.sz - 1
          invariant Partial(div[..], tdiv, div0, d, i, j, k) && Partial(p[..], tp, p0, d, i, j, k)
        {
          DivergenceCell(vx, vy, vz, p, div, d, tdiv, tp, div0, p0, i, j, k);
        }
        PartialRow(div[..], tdiv, div0, d, i, j);
        PartialRow(p[..], tp, p0, d, i, j);
      }
      PartialPlane(div[..], tdiv, div0, d, i);
      PartialPlane(p[..], tp, p0, d, i);
    }
    PartialDone(div[..], tdiv, div0, d);
    PartialDone(p[..], tp, p0, d);
  }

  method DivergenceCell(vx: array<real>, vy: array<real>, vz: array<real>, p: array<real>, div: array<real>, d: Dims,
                        ghost tdiv: seq<real>, ghost tp: seq<real>, ghost div0: seq<real>, ghost p0: seq<real>, i: int, j: int, k: int)
    requires Sized(d) && IsField(vx[..], d) && IsField(vy[..], d) && IsField(vz[..], d) && IsField(p[..], d) && IsField(div[..], d)
    requires p != div && p != vx && p != vy && p != vz && div != vx && div != vy && div != vz
    requires Interior3(d, i, j, k) && IsField(div0, d) && IsField(p0, d)
    requires tdiv == DivergenceField(vx[..], vy[..], vz[..], div0, d) && tp == ClearedInterior(p0, d)
    requires Partial(div[..], tdiv, div0, d, i, j, k) && Partial(p[..], tp, p0, d, i, j, k)
    modifies p, div
    ensures Partial(div[..], tdiv, div0, d, i, j, k + 1) && Partial(p[..], tp, p0, d, i, j, k + 1)
  {
    IxRange(d, i, j, k);
    Decode(d, i, j, k);
    IxRange(d, i + 1, j, k);
    IxRange(d, i - 1, j, k);
    IxRange(d, i, j + 1, k);
    IxRange(d, i, j - 1, k);
    IxRange(d, i, j, k + 1);
    IxRange(d, i, j, k - 1);
    var c := d.Ix(i, j, k);
    var v := -0.5 * (vx[d.Ix(i + 1, j, k)] - vx[d.Ix(i - 1, j, k)]
                   + vy[d.Ix(i, j + 1, k)] - vy[d.Ix(i, j - 1, k)]
                   + vz[d.Ix(i, j, k + 1)] - vz[d.Ix(i, j, k - 1)]) / ((d.sx + d.sy + d.sz) as real);
    assert v == Divergence(vx[..], vy[..], vz[..], d, i, j, k);
    assert v == tdiv[c];
    PartialStep(div[..], tdiv, div0, d, i, j, k);
    PartialStep(p[..], tp, p0, d, i, j, k);
    div[c] := v;
    p[c] := 0.0;
  }

  /** The gradient loop (fluid_cube.c:190-198): each interior velocity
      component loses half the central difference of p times the size
      along its axis. */
  method GradientLoop(vx: array<real>, vy: array<real>, vz: array<real>, p: array<real>, d: Dims)
    requires Sized(d) && IsField(vx[..], d) && IsField(vy[..], d) && IsField(vz[..], d) && IsField(p[..], d)
    requires vx != vy && vx != vz && vy != vz && p != vx && p != vy && p != vz
    modifies vx, vy, vz
    ensures vx[..] == Gradient(old(vx[..]), p[..], d, 1)
    ensures vy[..] == Gradient(old(vy[..]), p[..], d, 2)
    ensures vz[..] == Gradient(old(vz[..]), p[..], d, 3)
  {
    ghost var x0, y0, z0 := vx[..], vy[..], vz[..];
    ghost var tx, ty, tz := Gradient(x0, p[..], d, 1), Gradient(y0, p[..], d, 2), Gradient(z0, p[..], d, 3);
    PartialStart(x0, tx, d);
    PartialStart(y0, ty, d);
    PartialStart(z0, tz, d);
    for i := 1 to d.sx - 1
      invariant Partial(vx[..], tx, x0, d, i, 1, 1) && Partial(vy[..], ty, y0, d, i, 1, 1) && Partial(vz[..], tz, z0, d, i, 1, 1)
    {
      for j := 1 to d.sy - 1
        invariant Partial(vx[..], tx, x0, d, i, j, 1) && Partial(vy[..], ty, y0, d, i, j, 1) && Partial(vz[..], tz, z0, d, i, j, 1)
      {
        for k := 1 to d.sz - 1
          invariant Partial(vx[..], tx, x0, d, i, j, k) && Partial(vy[..], ty, y0, d, i, j, k) && Partial(vz[..], tz, z0, d, i, j, k)
        {
          GradientCell(vx, p, d, 1, tx, x0, i, j, k);
          GradientCell(vy, p, d, 2, ty, y0, i, j, k);
          GradientCell(vz, p, d, 3, tz, z0, i, j, k);
        }
        PartialRow(vx[..], tx, x0, d, i, j);
        PartialRow(vy[..], ty, y0, d, i, j);
        PartialRow(vz[..], tz, z0, d, i, j);
      }
      PartialPlane(vx[..], tx, x0, d, i);
      PartialPlane(vy[..], ty, y0, d, i);
      PartialPlane(vz[..], tz, z0, d, i);
    }
    PartialDone(vx[..], tx, x0, d);
    PartialDone(vy[..], ty, y0, d);
    PartialDone(vz[..], tz, z0, d);
  }

  /** One component at one interior cell of the gradient loop. */
  method GradientCell(v: array<real>, p: array<real>, d: Dims, axis: int, ghost t: seq<real>, ghost v0: seq<real>, i: int, j: int, k: int)
    requires Sized(d) && IsField(v[..], d) && IsField(p[..], d) && IsField(v0, d) && v != p
    requires Interior3(d, i, j, k) && t == Gradient(v0, p[..], d, axis)
    requires Partial(v[..], t, v0, d, i, j, k)
    modifies v
    ensures Partial(v[..], t, v0, d, i, j, k + 1)
  {
    IxRange(d, i, j, k);
    Decode(d, i, j, k);
    var c := d.Ix(i, j, k);
    assert v[c] == v0[c];
    var g := Difference(p, d, axis, i, j, k);
    var w := Corrected(v[c], g, Extent(d, axis));
    GradientAt(v0, p[..], d, axis, i, j, k);
    assert w == GradientValue(v0, p[..], d, axis, i, j, k);
    PartialStep(v[..], t, v0, d, i, j, k);
    v[c] := w;
  }

  lemma GradientAt(v: seq<real>, p: seq<real>, d: Dims, axis: int, i: int, j: int, k: int)
    requires Sized(d) && IsField(v, d) && IsField(p, d) && Interior3(d, i, j, k)
    ensures 0 <= d.Ix(i, j, k) < |v|
    ensures Gradient(v, p, d, axis)[d.Ix(i, j, k)] == GradientValue(v, p, d, axis, i, j, k)
  {
    IxRange(d, i, j, k);
    Decode(d, i, j, k);
  }

  /** The central difference along an axis, read from the array. */
  method Difference(p: array<real>, d: Dims, axis: int, i: int, j: int, k: int) returns (g: real)
    requires Sized(d) && IsField(p[..], d) && Interior3(d, i, j, k)
    ensures g == Central(p[..], d, axis, i, j, k)
  {
    if axis == 1 {
      IxRange(d, i + 1, j, k);
      IxRange(d, i - 1, j, k);
      g := p[d.Ix(i + 1, j, k)] - p[d.Ix(i - 1, j, k)];
    } else if axis == 2 {
      IxRange(d, i, j + 1, k);
      IxRange(d, i, j - 1, k);
      g := p[d.Ix(i, j + 1, k)] - p[d.Ix(i, j - 1, k)];
    } else {
      IxRange(d, i, j, k + 1);
      IxRange(d, i, j, k - 1);
      g := p[d.Ix(i, j, k + 1)] - p[d.Ix(i, j, k - 1)];
    }
  }

  /** project, in place on the five arrays it is given. */
  method ProjectInPlace(vx: array<real>, vy: array<real>, vz: array<real>, p: array<real>, div: array<real>, iter: nat, d: Dims, model: Option<Model>)
    requires Sized(d) && IsField(vx[..], d) && IsField(vy[..], d) && IsField(vz[..], d) && IsField(p[..], d) && IsField(div[..], d)
    requires ValidModel(model)
    requires vx != vy && vx != vz && vy != vz && p != div
    requires p != vx && p != vy && p != vz && div != vx && div != vy && div != vz
    modifies vx, vy, vz, p, div
    ensures Projection(vx[..], vy[..], vz[..], p[..], div[..]) == Project(old(vx[..]), old(vy[..]), old(vz[..]), old(p[..]), old(div[..]), iter, d, model)
  {
    DivergenceLoop(vx, vy, vz, p, div, d);
    SetBndInPlace(0, div, d, model);
    SetBndInPlace(0, p, d, model);
    LinSolveInPlace(0, p, div, 1.0, 6.0, iter, d, model);
    GradientLoop(vx, vy, vz, p, d);
    SetBndInPlace(1, vx, d, model);
    SetBndInPlace(2, vy, d, model);
    SetBndInPlace(3, vz, d, model);
  }
}
