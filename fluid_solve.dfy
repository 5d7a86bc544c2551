/** lin_solve and diffuse of src/fluid_cube.c: iter in-place Gauss–Seidel
    sweeps over the interior, in i-outer, j, k-inner order, each followed by
    set_bnd. Sweep is the sweep as a function of the field on entry;
    GaussSeidel states what the sweep computes without its loop order: each
    interior cell solves its equation against the new values of the three
    neighbours swept before it and the old values of the three after it. */
module FluidSolve {
  import opened Grid
  import opened ObjModel
  import opened FluidBoundary
  import opened BoundaryRules

  /** The update of interior cell (i, j, k) from the current field y;
      cRecip is lin_solve's 1/c. */
  function CellUpdate(y: seq<real>, x0: seq<real>, a: real, cRecip: real, d: Dims, i: int, j: int, k: int): real
    requires Sized(d) && IsField(y, d) && IsField(x0, d) && Interior3(d, i, j, k)
  {
    (At(x0, d, i, j, k)
      + a * (At(y, d, i + 1, j, k) + At(y, d, i - 1, j, k)
           + At(y, d, i, j + 1, k) + At(y, d, i, j - 1, k)
           + At(y, d, i, j, k + 1) + At(y, d, i, j, k - 1))) * cRecip
  }

  /** A sweep position: the next cell to update, or the end of a row. */
  predicate Position(d: Dims, i: int, j: int, k: int) {
    1 <= i <= d.sx - 1 && 1 <= j <= d.sy - 1 && 1 <= k <= d.sz - 1
  }

  /** The rest of one sweep, from position (i, j, k) on. */
  function SweepFrom(y: seq<real>, x0: seq<real>, a: real, cRecip: real, d: Dims, i: int, j: int, k: int): (r: seq<real>)
    requires Sized(d) && IsField(y, d) && IsField(x0, d) && Position(d, i, j, k)
    ensures IsField(r, d)
    decreases d.sx - i, d.sy - j, d.sz - k
  {
    if i == d.sx - 1 then y
    else if j == d.sy - 1 then SweepFrom(y, x0, a, cRecip, d, i + 1, 1, 1)
    else if k == d.sz - 1 then SweepFrom(y, x0, a, cRecip, d, i, j + 1, 1)
    else
      IxRange(d, i, j, k);
      SweepFrom(y[d.Ix(i, j, k) := CellUpdate(y, x0, a, cRecip, d, i, j, k)], x0, a, cRecip, d, i, j, k + 1)
  }

  /** One sweep of lin_solve's relaxation loop. */
  function Sweep(x: seq<real>, x0: seq<real>, a: real, cRecip: real, d: Dims): (r: seq<real>)
    requires Sized(d) && IsField(x, d) && IsField(x0, d)
    ensures IsField(r, d)
  {
    SweepFrom(x, x0, a, cRecip, d, 1, 1, 1)
  }

  /** lin_solve(b, x, x0, a, c, iter): iter rounds of a sweep followed by
      set_bnd. */
  function LinSolve(b: int, x: seq<real>, x0: seq<real>, a: real, c: real, iter: nat, d: Dims, model: Option<Model>): (r: seq<real>)
    requires Sized(d) && IsField(x, d) && IsField(x0, d) && c != 0.0 && ValidModel(model)
    ensures IsField(r, d)
    decreases iter
  {
    if iter == 0 then x
    else LinSolve(b, SetBnd(b, Sweep(x, x0, a, 1.0 / c, d), d, model), x0, a, c, iter - 1, d, model)
  }

  /** The coefficient diffuse passes to lin_solve: dt*diff*(sx-2)(sy-2)(sz-2). */
  function DiffusionRate(dt: real, diff: real, d: Dims): real {
    dt * diff * ((d.sx - 2) as real) * ((d.sy - 2) as real) * ((d.sz - 2) as real)
  }

  /** c = 1 + 6a is not 0, so lin_solve's 1/c exists. */
  predicate Diffusible(dt: real, diff: real, d: Dims) {
    1.0 + 6.0 * DiffusionRate(dt, diff, d) != 0.0
  }

  /** diffuse(b, x, x0, diff, dt, iter): lin_solve then one more set_bnd. */
  function Diffuse(b: int, x: seq<real>, x0: seq<real>, diff: real, dt: real, iter: nat, d: Dims, model: Option<Model>): (r: seq<real>)
    requires Sized(d) && IsField(x, d) && IsField(x0, d) && ValidModel(model) && Diffusible(dt, diff, d)
    ensures IsField(r, d)
  {
    var a := DiffusionRate(dt, diff, d);
    SetBnd(b, LinSolve(b, x, x0, a, 1.0 + 6.0 * a, iter, d, model), d, model)
  }

  // ---------------------------------------------------------------------
  // The in-place loops

  /** One assignment of the relaxation loop. */
  method RelaxCell(x: array<real>, x0: array<real>, a: real, cRecip: real, d: Dims, i: int, j: int, k: int)
    requires x != x0 && Sized(d) && IsField(x[..], d) && IsField(x0[..], d)
    requires Interior3(d, i, j, k)
    modifies x
    ensures 0 <= d.Ix(i, j, k) < x.Length
    ensures x[..] == old(x[..])[d.Ix(i, j, k) := CellUpdate(old(x[..]), x0[..], a, cRecip, d, i, j, k)]
  {
    IxRange(d, i, j, k);
    IxRange(d, i + 1, j, k);
    IxRange(d, i - 1, j, k);
    IxRange(d, i, j + 1, k);
    IxRange(d, i, j - 1, k);
    IxRange(d, i, j, k + 1);
    IxRange(d, i, j, k - 1);
    ghost var y := x[..];
    var v := (x0[d.Ix(i, j, k)]
      + a * (x[d.Ix(i + 1, j, k)] + x[d.Ix(i - 1, j, k)]
           + x[d.Ix(i, j + 1, k)] + x[d.Ix(i, j - 1, k)]
           + x[d.Ix(i, j, k + 1)] + x[d.Ix(i, j, k - 1)])) * cRecip;
    assert v == CellUpdate(y, x0[..], a, cRecip, d, i, j, k);
    x[d.Ix(i, j, k)] := v;
  }

  /** The three nested loops of one relaxation round. */
  method SweepInPlace(x: array<real>, x0: array<real>, a: real, cRecip: real, d: Dims)
    requires x != x0 && Sized(d) && IsField(x[..], d) && IsField(x0[..], d)
    modifies x
    ensures x[..] == Sweep(old(x[..]), x0[..], a, cRecip, d)
  {
    ghost var target := Sweep(x[..], x0[..], a, cRecip, d);
    for i := 1 to d.sx - 1
      invariant IsField(x[..], d)
      invariant SweepFrom(x[..], x0[..], a, cRecip, d, i, 1, 1) == target
    {
      for j := 1 to d.sy - 1
        invariant IsField(x[..], d)
        invariant SweepFrom(x[..], x0[..], a, cRecip, d, i, j, 1) == target
      {
        for k := 1 to d.sz - 1
          invariant IsField(x[..], d)
          invariant SweepFrom(x[..], x0[..], a, cRecip, d, i, j, k) == target
        {
          RelaxCell(x, x0, a, cRecip, d, i, j, k);
        }
      }
    }
  }

  /** lin_solve: x is written, x0 only read. */
  method LinSolveInPlace(b: int, x: array<real>, x0: array<real>, a: real, c: real, iter: nat, d: Dims, model: Option<Model>)
    requires x != x0 && Sized(d) && IsField(x[..], d) && IsField(x0[..], d) && c != 0.0 && ValidModel(model)
    modifies x
    ensures x[..] == LinSolve(b, old(x[..]), x0[..], a, c, iter, d, model)
  {
    ghost var target := LinSolve(b, x[..], x0[..], a, c, iter, d, model);
    var cRecip := 1.0 / c;
    for m := 0 to iter
      invariant IsField(x[..], d)
      invariant LinSolve(b, x[..], x0[..], a, c, iter - m, d, model) == target
    {
      SweepInPlace(x, x0, a, cRecip, d);
      SetBndInPlace(b, x, d, model);
    }
  }

  /** diffuse. */
  method DiffuseInPlace(b: int, x: array<real>, x0: array<real>, diff: real, dt: real, iter: nat, d: Dims, model: Option<Model>)
    requires x != x0 && Sized(d) && IsField(x[..], d) && IsField(x0[..], d) && ValidModel(model) && Diffusible(dt, diff, d)
    modifies x
    ensures x[..] == Diffuse(b, old(x[..]), x0[..], diff, dt, iter, d, model)
  {
    var a := DiffusionRate(dt, diff, d);
    LinSolveInPlace(b, x, x0, a, 1.0 + 6.0 * a, iter, d, model);
    SetBndInPlace(b, x, d, model);
  }

  // ---------------------------------------------------------------------
  // What one sweep computes

  /** The Gauss–Seidel equation of interior cell (i, j, k): the value y
      holds there is computed from the new values y of the neighbours
      swept before it and the old values x of those swept after it. */
  function GaussSeidel(y: seq<real>, x: seq<real>, x0: seq<real>, a: real, cRecip: real, d: Dims, i: int, j: int, k: int): real
    requires Sized(d) && IsField(y, d) && IsField(x, d) && IsField(x0, d) && Interior3(d, i, j, k)
  {
    (At(x0, d, i, j, k)
      + a * (At(x, d, i + 1, j, k) + At(y, d, i - 1, j, k)
           + At(x, d, i, j + 1, k) + At(y, d, i, j - 1, k)
           + At(x, d, i, j, k + 1) + At(y, d, i, j, k - 1))) * cRecip
  }

  /** y is x part-way through a sweep standing at (i, j, k): the interior
      cells before (i, j, k) satisfy their equations, all others still
      hold their old values. */
  ghost predicate SweptUpTo(y: seq<real>, x: seq<real>, x0: seq<real>, a: real, cRecip: real, d: Dims, i: int, j: int, k: int)
    requires Sized(d) && IsField(y, d) && IsField(x, d) && IsField(x0, d)
  {
    (forall i', j', k' :: d.Contains(i', j', k') && !(Interior3(d, i', j', k') && Before(i', j', k', i, j, k)) ==>
      At(y, d, i', j', k') == At(x, d, i', j', k'))
    && (forall i', j', k' {:trigger GaussSeidel(y, x, x0, a, cRecip, d, i', j', k')} ::
      Interior3(d, i', j', k') && Before(i', j', k', i, j, k) ==>
      At(y, d, i', j', k') == GaussSeidel(y, x, x0, a, cRecip, d, i', j', k'))
  }

  /** Writing cell (i, j, k) changes no other cell. */
  lemma UpdateAt(y: seq<real>, d: Dims, i: int, j: int, k: int, v: real, i': int, j': int, k': int)
    requires IsField(y, d) && d.Contains(i, j, k) && d.Contains(i', j', k')
    ensures 0 <= d.Ix(i, j, k) < |y|
    ensures At(y[d.Ix(i, j, k) := v], d, i', j', k') == if (i', j', k') == (i, j, k) then v else At(y, d, i', j', k')
  {
    IxRange(d, i, j, k);
    IxRange(d, i', j', k');
    Decode(d, i, j, k);
    Decode(d, i', j', k');
  }

  /** A cell outside the swept part keeps its old value after the update. */
  lemma RelaxFrame(y: seq<real>, x: seq<real>, x0: seq<real>, a: real, cRecip: real, d: Dims, i: int, j: int, k: int, i': int, j': int, k': int)
    requires Sized(d) && IsField(y, d) && IsField(x, d) && IsField(x0, d) && Interior3(d, i, j, k)
    requires SweptUpTo(y, x, x0, a, cRecip, d, i, j, k)
    requires d.Contains(i', j', k') && !(Interior3(d, i', j', k') && Before(i', j', k', i, j, k + 1))
    ensures 0 <= d.Ix(i, j, k) < |y|
    ensures At(y[d.Ix(i, j, k) := CellUpdate(y, x0, a, cRecip, d, i, j, k)], d, i', j', k') == At(x, d, i', j', k')
  {
    UpdateAt(y, d, i, j, k, CellUpdate(y, x0, a, cRecip, d, i, j, k), i', j', k');
  }

  /** The cell just written satisfies its equation. */
  lemma RelaxNew(y: seq<real>, x: seq<real>, x0: seq<real>, a: real, cRecip: real, d: Dims, i: int, j: int, k: int)
    requires Sized(d) && IsField(y, d) && IsField(x, d) && IsField(x0, d) && Interior3(d, i, j, k)
    requires SweptUpTo(y, x, x0, a, cRecip, d, i, j, k)
    ensures 0 <= d.Ix(i, j, k) < |y|
    ensures var y' := y[d.Ix(i, j, k) := CellUpdate(y, x0, a, cRecip, d, i, j, k)];
      At(y', d, i, j, k) == GaussSeidel(y', x, x0, a, cRecip, d, i, j, k)
  {
    var v := CellUpdate(y, x0, a, cRecip, d, i, j, k);
    assert At(y, d, i + 1, j, k) == At(x, d, i + 1, j, k);
    assert At(y, d, i, j + 1, k) == At(x, d, i, j + 1, k);
    assert At(y, d, i, j, k + 1) == At(x, d, i, j, k + 1);
    UpdateAt(y, d, i, j, k, v, i, j, k);
    UpdateAt(y, d, i, j, k, v, i + 1, j, k);
    UpdateAt(y, d, i, j, k, v, i - 1, j, k);
    UpdateAt(y, d, i, j, k, v, i, j + 1, k);
    UpdateAt(y, d, i, j, k, v, i, j - 1, k);
    UpdateAt(y, d, i, j, k, v, i, j, k + 1);
    UpdateAt(y, d, i, j, k, v, i, j, k - 1);
  }

  /** A cell swept earlier still satisfies its equation after the update. */
  lemma RelaxOld(y: seq<real>, x: seq<real>, x0: seq<real>, a: real, cRecip: real, d: Dims, i: int, j: int, k: int, i': int, j': int, k': int)
    requires Sized(d) && IsField(y, d) && IsField(x, d) && IsField(x0, d) && Interior3(d, i, j, k)
    requires SweptUpTo(y, x, x0, a, cRecip, d, i, j, k)
    requires Interior3(d, i', j', k') && Before(i', j', k', i, j, k)
    ensures 0 <= d.Ix(i, j, k) < |y|
    ensures var y' := y[d.Ix(i, j, k) := CellUpdate(y, x0, a, cRecip, d, i, j, k)];
      At(y', d, i', j', k') == GaussSeidel(y', x, x0, a, cRecip, d, i', j', k')
  {
    var v := CellUpdate(y, x0, a, cRecip, d, i, j, k);
    assert At(y, d, i', j', k') == GaussSeidel(y, x, x0, a, cRecip, d, i', j', k');
    UpdateAt(y, d, i, j, k, v, i', j', k');
    UpdateAt(y, d, i, j, k, v, i' - 1, j', k');
    UpdateAt(y, d, i, j, k, v, i', j' - 1, k');
    UpdateAt(y, d, i, j, k, v, i', j', k' - 1);
    EarlierNeighbours(y, y[d.Ix(i, j, k) := v], x, x0, a, cRecip, d, i', j', k');
  }

  /** The equation of a cell reads the new field only at its three earlier neighbours. */
  lemma EarlierNeighbours(y: seq<real>, y': seq<real>, x: seq<real>, x0: seq<real>, a: real, cRecip: real, d: Dims, i: int, j: int, k: int)
    requires Sized(d) && IsField(y, d) && IsField(y', d) && IsField(x, d) && IsField(x0, d) && Interior3(d, i, j, k)
    requires At(y', d, i - 1, j, k) == At(y, d, i - 1, j, k)
    requires At(y', d, i, j - 1, k) == At(y, d, i, j - 1, k)
    requires At(y', d, i, j, k - 1) == At(y, d, i, j, k - 1)
    ensures GaussSeidel(y', x, x0, a, cRecip, d, i, j, k) == GaussSeidel(y, x, x0, a, cRecip, d, i, j, k)
  {
  }

  /** The update of the cell at the sweep position keeps SweptUpTo. */
  lemma RelaxKeepsSwept(y: seq<real>, x: seq<real>, x0: seq<real>, a: real, cRecip: real, d: Dims, i: int, j: int, k: int)
    requires Sized(d) && IsField(y, d) && IsField(x, d) && IsField(x0, d) && Interior3(d, i, j, k)
    requires SweptUpTo(y, x, x0, a, cRecip, d, i, j, k)
    ensures 0 <= d.Ix(i, j, k) < |y|
    ensures SweptUpTo(y[d.Ix(i, j, k) := CellUpdate(y, x0, a, cRecip, d, i, j, k)], x, x0, a, cRecip, d, i, j, k + 1)
  {
    IxRange(d, i, j, k);
    var y' := y[d.Ix(i, j, k) := CellUpdate(y, x0, a, cRecip, d, i, j, k)];
    forall i', j', k' | d.Contains(i', j', k') && !(Interior3(d, i', j', k') && Before(i', j', k', i, j, k + 1))
      ensures At(y', d, i', j', k') == At(x, d, i', j', k')
    {
      RelaxFrame(y, x, x0, a, cRecip, d, i, j, k, i', j', k');
    }
    forall i', j', k' | Interior3(d, i', j', k') && Before(i', j', k', i, j, k + 1)
      ensures At(y', d, i', j', k') == GaussSeidel(y', x, x0, a, cRecip, d, i', j', k')
    {
      if (i', j', k') == (i, j, k) {
        RelaxNew(y, x, x0, a, cRecip, d, i, j, k);
      } else {
        RelaxOld(y, x, x0, a, cRecip, d, i, j, k, i', j', k');
      }
    }
  }

  /** Moving the sweep position across cells that are not interior keeps SweptUpTo. */
  lemma SweptMove(y: seq<real>, x: seq<real>, x0: seq<real>, a: real, cRecip: real, d: Dims, i: int, j: int, k: int, i2: int, j2: int, k2: int)
    requires Sized(d) && IsField(y, d) && IsField(x, d) && IsField(x0, d)
    requires SweptUpTo(y, x, x0, a, cRecip, d, i, j, k)
    requires forall i', j', k' :: Interior3(d, i', j', k') ==> (Before(i', j', k', i, j, k) <==> Before(i', j', k', i2, j2, k2))
    ensures SweptUpTo(y, x, x0, a, cRecip, d, i2, j2, k2)
  {
  }

  /** The rest of a sweep completes SweptUpTo to the whole interior. */
  lemma {:induction false} SweepFromSwept(y: seq<real>, x: seq<real>, x0: seq<real>, a: real, cRecip: real, d: Dims, i: int, j: int, k: int)
    requires Sized(d) && IsField(y, d) && IsField(x, d) && IsField(x0, d) && Position(d, i, j, k)
    requires SweptUpTo(y, x, x0, a, cRecip, d, i, j, k)
    ensures SweptUpTo(SweepFrom(y, x0, a, cRecip, d, i, j, k), x, x0, a, cRecip, d, d.sx - 1, 1, 1)
    decreases d.sx - i, d.sy - j, d.sz - k
  {
    if i == d.sx - 1 {
      SweptMove(y, x, x0, a, cRecip, d, i, j, k, d.sx - 1, 1, 1);
    } else if j == d.sy - 1 {
      SweptMove(y, x, x0, a, cRecip, d, i, j, k, i + 1, 1, 1);
      SweepFromSwept(y, x, x0, a, cRecip, d, i + 1, 1, 1);
    } else if k == d.sz - 1 {
      SweptMove(y, x, x0, a, cRecip, d, i, j, k, i, j + 1, 1);
      SweepFromSwept(y, x, x0, a, cRecip, d, i, j + 1, 1);
    } else {
      RelaxKeepsSwept(y, x, x0, a, cRecip, d, i, j, k);
      SweepFromSwept(y[d.Ix(i, j, k) := CellUpdate(y, x0, a, cRecip, d, i, j, k)], x, x0, a, cRecip, d, i, j, k + 1);
    }
  }

  /** One sweep writes only interior cells, and leaves every interior cell
      solving its Gauss–Seidel equation in i-outer, j, k-inner order. */
  lemma SweepSolves(x: seq<real>, x0: seq<real>, a: real, cRecip: real, d: Dims)
    requires Sized(d) && IsField(x, d) && IsField(x0, d)
    ensures forall i, j, k :: d.Contains(i, j, k) && !Interior3(d, i, j, k) ==>
      At(Sweep(x, x0, a, cRecip, d), d, i, j, k) == At(x, d, i, j, k)
    ensures forall i, j, k :: Interior3(d, i, j, k) ==>
      At(Sweep(x, x0, a, cRecip, d), d, i, j, k) == GaussSeidel(Sweep(x, x0, a, cRecip, d), x, x0, a, cRecip, d, i, j, k)
  {
    SweepFromSwept(x, x, x0, a, cRecip, d, 1, 1, 1);
  }

  /** Without coupling (a == 0) a sweep sets every interior cell to x0 * cRecip. */
  lemma SweepUncoupled(x: seq<real>, x0: seq<real>, cRecip: real, d: Dims, i: int, j: int, k: int)
    requires Sized(d) && IsField(x, d) && IsField(x0, d) && Interior3(d, i, j, k)
    ensures At(Sweep(x, x0, 0.0, cRecip, d), d, i, j, k) == At(x0, d, i, j, k) * cRecip
  {
    SweepSolves(x, x0, 0.0, cRecip, d);
  }

  /** With iter == 0 lin_solve leaves x as it is. */
  lemma LinSolveNoRounds(b: int, x: seq<real>, x0: seq<real>, a: real, c: real, d: Dims, model: Option<Model>)
    requires Sized(d) && IsField(x, d) && IsField(x0, d) && c != 0.0 && ValidModel(model)
    ensures LinSolve(b, x, x0, a, c, 0, d, model) == x
  {
  }

  /** diffuse's lin_solve without coupling (a == 0, c == 1) leaves x0 in
      every interior cell after one or more rounds, and 0 in a solid one. */
  lemma {:induction false} LinSolveUncoupled(b: int, x: seq<real>, x0: seq<real>, iter: nat, d: Dims, model: Option<Model>, i: int, j: int, k: int)
    requires Sized(d) && IsField(x, d) && IsField(x0, d) && ValidModel(model)
    requires iter >= 1 && Interior3(d, i, j, k)
    ensures At(LinSolve(b, x, x0, 0.0, 1.0, iter, d, model), d, i, j, k) ==
      if Solid(model, d, i, j) then 0.0 else At(x0, d, i, j, k)
    decreases iter
  {
    var x' := SetBnd(b, Sweep(x, x0, 0.0, 1.0 / 1.0, d), d, model);
    if iter == 1 {
      RoundUncoupled(b, x, x0, d, model, i, j, k);
    } else {
      LinSolveUncoupled(b, x', x0, iter - 1, d, model, i, j, k);
    }
  }

  /** One uncoupled round: a sweep, then set_bnd. */
  lemma RoundUncoupled(b: int, x: seq<real>, x0: seq<real>, d: Dims, model: Option<Model>, i: int, j: int, k: int)
    requires Sized(d) && IsField(x, d) && IsField(x0, d) && ValidModel(model) && Interior3(d, i, j, k)
    ensures At(SetBnd(b, Sweep(x, x0, 0.0, 1.0 / 1.0, d), d, model), d, i, j, k) ==
      if Solid(model, d, i, j) then 0.0 else At(x0, d, i, j, k)
  {
    var y := Sweep(x, x0, 0.0, 1.0 / 1.0, d);
    SweepUncoupled(x, x0, 1.0 / 1.0, d, i, j, k);
    OneRecip(At(x0, d, i, j, k));
    assert At(y, d, i, j, k) == At(x0, d, i, j, k);
    SetBndKeeps(b, y, d, model, i, j, k);
    assert At(SetBnd(b, y, d, model), d, i, j, k) == if Solid(model, d, i, j) then 0.0 else At(y, d, i, j, k);
  }

  lemma OneRecip(v: real)
    ensures v * (1.0 / 1.0) == v
  {
  }

  /** diffuse with a zero diffusion rate copies x0 into every interior cell
      that is not solid, whatever x held. */
  lemma DiffuseWithoutDiffusion(b: int, x: seq<real>, x0: seq<real>, dt: real, iter: nat, d: Dims, model: Option<Model>, i: int, j: int, k: int)
    requires Sized(d) && IsField(x, d) && IsField(x0, d) && ValidModel(model)
    requires iter >= 1 && Interior3(d, i, j, k)
    ensures Diffusible(dt, 0.0, d)
    ensures At(Diffuse(b, x, x0, 0.0, dt, iter, d, model), d, i, j, k) ==
      if Solid(model, d, i, j) then 0.0 else At(x0, d, i, j, k)
  {
    var r := LinSolve(b, x, x0, 0.0, 1.0, iter, d, model);
    NoDiffusionRate(b, x, x0, dt, iter, d, model);
    LinSolveUncoupled(b, x, x0, iter, d, model, i, j, k);
    SetBndKeeps(b, r, d, model, i, j, k);
  }

  /** A zero diffusion rate makes diffuse call lin_solve with a = 0, c = 1. */
  lemma NoDiffusionRate(b: int, x: seq<real>, x0: seq<real>, dt: real, iter: nat, d: Dims, model: Option<Model>)
    requires Sized(d) && IsField(x, d) && IsField(x0, d) && ValidModel(model)
    ensures Diffusible(dt, 0.0, d)
    ensures Diffuse(b, x, x0, 0.0, dt, iter, d, model) == SetBnd(b, LinSolve(b, x, x0, 0.0, 1.0, iter, d, model), d, model)
  {
    assert DiffusionRate(dt, 0.0, d) == 0.0;
  }

  // ---------------------------------------------------------------------
  // Fields that vanish on the interior and the faces

  /** Exactly one coordinate on an end. */
  predicate FaceCell(d: Dims, i: int, j: int, k: int) {
    var ex, ey, ez := OnEnd(i, d.sx), OnEnd(j, d.sy), OnEnd(k, d.sz);
    d.Contains(i, j, k) &&
    ((ex && !ey && !ez) || (!ex && ey && !ez) || (!ex && !ey && ez))
  }

  /** s is 0 on every interior and face cell; edges and corners are free. */
  ghost predicate CoreZero(s: seq<real>, d: Dims)
    requires IsField(s, d)
  {
    forall i, j, k :: d.Contains(i, j, k) && (Interior3(d, i, j, k) || FaceCell(d, i, j, k)) ==> At(s, d, i, j, k) == 0.0
  }

  lemma CellUpdateZero(y: seq<real>, x0: seq<real>, a: real, cRecip: real, d: Dims, i: int, j: int, k: int)
    requires Sized(d) && IsField(y, d) && IsField(x0, d) && Interior3(d, i, j, k)
    requires CoreZero(y, d) && CoreZero(x0, d)
    ensures CellUpdate(y, x0, a, cRecip, d, i, j, k) == 0.0
  {
    assert At(y, d, i + 1, j, k) == 0.0 && At(y, d, i - 1, j, k) == 0.0;
    assert At(y, d, i, j + 1, k) == 0.0 && At(y, d, i, j - 1, k) == 0.0;
    assert At(y, d, i, j, k + 1) == 0.0 && At(y, d, i, j, k - 1) == 0.0;
    assert At(x0, d, i, j, k) == 0.0;
  }

  lemma CoreZeroUpdate(y: seq<real>, d: Dims, i: int, j: int, k: int)
    requires IsField(y, d) && CoreZero(y, d) && d.Contains(i, j, k)
    ensures 0 <= d.Ix(i, j, k) < |y|
    ensures CoreZero(y[d.Ix(i, j, k) := 0.0], d)
  {
    IxRange(d, i, j, k);
    forall i', j', k' | d.Contains(i', j', k') && (Interior3(d, i', j', k') || FaceCell(d, i', j', k'))
      ensures At(y[d.Ix(i, j, k) := 0.0], d, i', j', k') == 0.0
    {
      UpdateAt(y, d, i, j, k, 0.0, i', j', k');
    }
  }

  lemma {:induction false} SweepFromCoreZero(y: seq<real>, x0: seq<real>, a: real, cRecip: real, d: Dims, i: int, j: int, k: int)
    requires Sized(d) && IsField(y, d) && IsField(x0, d) && Position(d, i, j, k)
    requires CoreZero(y, d) && CoreZero(x0, d)
    ensures CoreZero(SweepFrom(y, x0, a, cRecip, d, i, j, k), d)
    decreases d.sx - i, d.sy - j, d.sz - k
  {
    if i == d.sx - 1 {
    } else if j == d.sy - 1 {
      SweepFromCoreZero(y, x0, a, cRecip, d, i + 1, 1, 1);
    } else if k == d.sz - 1 {
      SweepFromCoreZero(y, x0, a, cRecip, d, i, j + 1, 1);
    } else {
      CellUpdateZero(y, x0, a, cRecip, d, i, j, k);
      CoreZeroUpdate(y, d, i, j, k);
      SweepFromCoreZero(y[d.Ix(i, j, k) := 0.0], x0, a, cRecip, d, i, j, k + 1);
    }
  }

  /** s is 0 on every interior cell. */
  ghost predicate InteriorZero(s: seq<real>, d: Dims)
    requires IsField(s, d)
  {
    forall i, j, k :: Interior3(d, i, j, k) ==> At(s, d, i, j, k) == 0.0
  }

  /** set_bnd turns a field that is zero on its interior into one that is
      also zero on its faces. */
  lemma SetBndCoreZero(b: int, s: seq<real>, d: Dims, model: Option<Model>)
    requires HasInterior(d) && IsField(s, d) && ValidModel(model) && InteriorZero(s, d)
    ensures CoreZero(SetBnd(b, s, d, model), d)
  {
    forall i, j, k | d.Contains(i, j, k) && (Interior3(d, i, j, k) || FaceCell(d, i, j, k))
      ensures At(SetBnd(b, s, d, model), d, i, j, k) == 0.0
    {
      SetBndAt(b, s, d, model, i, j, k);
      RuleCore(b, s, d, i, j, k);
    }
  }

  lemma RuleCore(b: int, s: seq<real>, d: Dims, i: int, j: int, k: int)
    requires HasInterior(d) && IsField(s, d) && InteriorZero(s, d)
    requires d.Contains(i, j, k) && (Interior3(d, i, j, k) || FaceCell(d, i, j, k))
    ensures Rule(b, s, d, i, j, k) == 0.0
  {
    if !Interior3(d, i, j, k) {
      assert Interior3(d, Near(i, d.sx), j, k) || Interior3(d, i, Near(j, d.sy), k) || Interior3(d, i, j, Near(k, d.sz));
    }
  }

  /** lin_solve keeps a field zero on its interior and faces when its
      source is. */
  lemma {:induction false} LinSolveCoreZero(b: int, x: seq<real>, x0: seq<real>, a: real, c: real, iter: nat, d: Dims, model: Option<Model>)
    requires HasInterior(d) && IsField(x, d) && IsField(x0, d) && c != 0.0 && ValidModel(model)
    requires CoreZero(x, d) && CoreZero(x0, d)
    ensures CoreZero(LinSolve(b, x, x0, a, c, iter, d, model), d)
    decreases iter
  {
    if iter > 0 {
      var y := Sweep(x, x0, a, 1.0 / c, d);
      SweepFromCoreZero(x, x0, a, 1.0 / c, d, 1, 1, 1);
      SetBndCoreZero(b, y, d, model);
      LinSolveCoreZero(b, SetBnd(b, y, d, model), x0, a, c, iter - 1, d, model);
    }
  }

  // ---------------------------------------------------------------------
  // The zero field

  /** A sweep of the zero field against a zero source leaves it zero. */
  lemma {:induction false} SweepFromZeros(a: real, cRecip: real, d: Dims, i: int, j: int, k: int)
    requires Sized(d) && Position(d, i, j, k)
    ensures SweepFrom(Zeros(d), Zeros(d), a, cRecip, d, i, j, k) == Zeros(d)
    decreases d.sx - i, d.sy - j, d.sz - k
  {
    var z := Zeros(d);
    if i == d.sx - 1 {
    } else if j == d.sy - 1 {
      SweepFromZeros(a, cRecip, d, i + 1, 1, 1);
    } else if k == d.sz - 1 {
      SweepFromZeros(a, cRecip, d, i, j + 1, 1);
    } else {
      IxRange(d, i, j, k);
      ZerosCoreZero(d);
      CellUpdateZero(z, z, a, cRecip, d, i, j, k);
      assert z[d.Ix(i, j, k) := 0.0] == z;
      SweepFromZeros(a, cRecip, d, i, j, k + 1);
    }
  }

  lemma ZerosCoreZero(d: Dims)
    ensures CoreZero(Zeros(d), d)
  {
    forall i, j, k | d.Contains(i, j, k) && (Interior3(d, i, j, k) || FaceCell(d, i, j, k))
      ensures At(Zeros(d), d, i, j, k) == 0.0
    {
      AtZeros(d, i, j, k);
    }
  }

  /** lin_solve of the zero field against a zero source is the zero field. */
  lemma {:induction false} LinSolveZeros(b: int, a: real, c: real, iter: nat, d: Dims, model: Option<Model>)
    requires Sized(d) && c != 0.0 && ValidModel(model)
    ensures LinSolve(b, Zeros(d), Zeros(d), a, c, iter, d, model) == Zeros(d)
    decreases iter
  {
    if iter > 0 {
      SweepFromZeros(a, 1.0 / c, d, 1, 1, 1);
      SetBndZeros(b, d, model);
      LinSolveZeros(b, a, c, iter - 1, d, model);
    }
  }

  /** Diffusing the zero field gives the zero field, whatever the rate. */
  lemma DiffuseZeros(b: int, diff: real, dt: real, iter: nat, d: Dims, model: Option<Model>)
    requires Sized(d) && ValidModel(model) && Diffusible(dt, diff, d)
    ensures Diffuse(b, Zeros(d), Zeros(d), diff, dt, iter, d, model) == Zeros(d)
  {
    var a := DiffusionRate(dt, diff, d);
    LinSolveZeros(b, a, 1.0 + 6.0 * a, iter, d, model);
    SetBndZeros(b, d, model);
  }
}
