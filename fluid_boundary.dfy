/** set_bnd of src/fluid_cube.c: the boundary pass run after every stage of
    the cube solver. Each of its loops is a stage function on the flat field
    (a seq<real> of sx*sy*sz cells); SetBnd is their composition in the
    order the C code runs them, and the methods are the in-place loops. */
module FluidBoundary {
  import opened Grid
  import opened ObjModel
  import opened RayCast

  /** Every routine of the solver reads a cell's neighbour 1 and size - 2 on
      each axis, so each side must have at least two cells. */
  predicate Sized(d: Dims) {
    d.sx >= 2 && d.sy >= 2 && d.sz >= 2
  }

  /** A field of the cube: one value per cell. */
  predicate IsField(s: seq<real>, d: Dims) {
    |s| == d.Cells()
  }

  /** `b == tag ? -v : v`. */
  function Mirror(neg: bool, v: real): real {
    if neg then -v else v
  }

  // ---------------------------------------------------------------------
  // The z faces (fluid_cube.c:90-95)

  /** Cell n after the z-face loop. For sz == 2 the far face is written from
      the near face just written, which gives back its own value. */
  function ZFaceValue(b: int, s: seq<real>, d: Dims, n: int): real
    requires Sized(d) && IsField(s, d) && 0 <= n < |s|
  {
    Encode(d, n);
    var i, j, k := d.X(n), d.Y(n), d.Z(n);
    if 1 <= i < d.sx - 1 && 1 <= j < d.sy - 1 && k == 0 then Mirror(b == 3, At(s, d, i, j, 1))
    else if 1 <= i < d.sx - 1 && 1 <= j < d.sy - 1 && k == d.sz - 1 && d.sz > 2 then Mirror(b == 3, At(s, d, i, j, d.sz - 2))
    else s[n]
  }

  function ZFaces(b: int, s: seq<real>, d: Dims): (r: seq<real>)
    requires Sized(d) && IsField(s, d)
    ensures IsField(r, d)
  {
    seq(|s|, n requires 0 <= n < |s| => ZFaceValue(b, s, d, n))
  }

  /** The z-face loop, in place. */
  method ZFacesLoop(b: int, x: array<real>, d: Dims)
    requires Sized(d) && IsField(x[..], d)
    modifies x
    ensures x[..] == ZFaces(b, old(x[..]), d)
  {
    ghost var s := x[..];
    EncodeAll(d);
    for i := 1 to d.sx - 1
      invariant forall n :: 0 <= n < x.Length ==> x[n] == if 1 <= d.X(n) < i then ZFaceValue(b, s, d, n) else s[n]
    {
      for j := 1 to d.sy - 1
        invariant forall n :: 0 <= n < x.Length ==>
          x[n] == if 1 <= d.X(n) < i || (d.X(n) == i && 1 <= d.Y(n) < j) then ZFaceValue(b, s, d, n) else s[n]
      {
        ColumnStep(b, x, d, s, i, j);
      }
    }
    assert x[..] == ZFaces(b, s, d);
  }

  /** One (i, j) column of the z-face loop. */
  method ColumnStep(b: int, x: array<real>, d: Dims, ghost s: seq<real>, i: int, j: int)
    requires Sized(d) && IsField(x[..], d) && |s| == x.Length
    requires 1 <= i < d.sx - 1 && 1 <= j < d.sy - 1
    requires forall n :: 0 <= n < x.Length ==>
      x[n] == if 1 <= d.X(n) < i || (d.X(n) == i && 1 <= d.Y(n) < j) then ZFaceValue(b, s, d, n) else s[n]
    modifies x
    ensures forall n :: 0 <= n < x.Length ==>
      x[n] == if 1 <= d.X(n) < i || (d.X(n) == i && 1 <= d.Y(n) < j + 1) then ZFaceValue(b, s, d, n) else s[n]
  {
    EncodeAll(d);
    IxRange(d, i, j, 0);
    IxRange(d, i, j, 1);
    IxRange(d, i, j, d.sz - 1);
    IxRange(d, i, j, d.sz - 2);
    Decode(d, i, j, 0);
    Decode(d, i, j, 1);
    Decode(d, i, j, d.sz - 1);
    Decode(d, i, j, d.sz - 2);
    x[d.Ix(i, j, 0)] := Mirror(b == 3, x[d.Ix(i, j, 1)]);
    x[d.Ix(i, j, d.sz - 1)] := Mirror(b == 3, x[d.Ix(i, j, d.sz - 2)]);
  }

  // ---------------------------------------------------------------------
  // The y faces (fluid_cube.c:97-102)

  function YFaceValue(b: int, s: seq<real>, d: Dims, n: int): real
    requires Sized(d) && IsField(s, d) && 0 <= n < |s|
  {
    Encode(d, n);
    var i, j, k := d.X(n), d.Y(n), d.Z(n);
    if 1 <= i < d.sx - 1 && 1 <= k < d.sz - 1 && j == 0 then Mirror(b == 2, At(s, d, i, 1, k))
    else if 1 <= i < d.sx - 1 && 1 <= k < d.sz - 1 && j == d.sy - 1 && d.sy > 2 then Mirror(b == 2, At(s, d, i, d.sy - 2, k))
    else s[n]
  }

  function YFaces(b: int, s: seq<real>, d: Dims): (r: seq<real>)
    requires Sized(d) && IsField(s, d)
    ensures IsField(r, d)
  {
    seq(|s|, n requires 0 <= n < |s| => YFaceValue(b, s, d, n))
  }

  method YFacesLoop(b: int, x: array<real>, d: Dims)
    requires Sized(d) && IsField(x[..], d)
    modifies x
    ensures x[..] == YFaces(b, old(x[..]), d)
  {
    ghost var s := x[..];
    EncodeAll(d);
    for i := 1 to d.sx - 1
      invariant forall n :: 0 <= n < x.Length ==> x[n] == if 1 <= d.X(n) < i then YFaceValue(b, s, d, n) else s[n]
    {
      for k := 1 to d.sz - 1
        invariant forall n :: 0 <= n < x.Length ==>
          x[n] == if 1 <= d.X(n) < i || (d.X(n) == i && 1 <= d.Z(n) < k) then YFaceValue(b, s, d, n) else s[n]
      {
        YColumnStep(b, x, d, s, i, k);
      }
    }
    assert x[..] == YFaces(b, s, d);
  }

  method YColumnStep(b: int, x: array<real>, d: Dims, ghost s: seq<real>, i: int, k: int)
    requires Sized(d) && IsField(x[..], d) && |s| == x.Length
    requires 1 <= i < d.sx - 1 && 1 <= k < d.sz - 1
    requires forall n :: 0 <= n < x.Length ==>
      x[n] == if 1 <= d.X(n) < i || (d.X(n) == i && 1 <= d.Z(n) < k) then YFaceValue(b, s, d, n) else s[n]
    modifies x
    ensures forall n :: 0 <= n < x.Length ==>
      x[n] == if 1 <= d.X(n) < i || (d.X(n) == i && 1 <= d.Z(n) < k + 1) then YFaceValue(b, s, d, n) else s[n]
  {
    EncodeAll(d);
    IxRange(d, i, 0, k);
    IxRange(d, i, 1, k);
    IxRange(d, i, d.sy - 1, k);
    IxRange(d, i, d.sy - 2, k);
    Decode(d, i, 0, k);
    Decode(d, i, 1, k);
    Decode(d, i, d.sy - 1, k);
    Decode(d, i, d.sy - 2, k);
    x[d.Ix(i, 0, k)] := Mirror(b == 2, x[d.Ix(i, 1, k)]);
    x[d.Ix(i, d.sy - 1, k)] := Mirror(b == 2, x[d.Ix(i, d.sy - 2, k)]);
  }

  // ---------------------------------------------------------------------
  // The x faces (fluid_cube.c:104-109)

  function XFaceValue(b: int, s: seq<real>, d: Dims, n: int): real
    requires Sized(d) && IsField(s, d) && 0 <= n < |s|
  {
    Encode(d, n);
    var i, j, k := d.X(n), d.Y(n), d.Z(n);
    if 1 <= j < d.sy - 1 && 1 <= k < d.sz - 1 && i == 0 then Mirror(b == 1, At(s, d, 1, j, k))
    else if 1 <= j < d.sy - 1 && 1 <= k < d.sz - 1 && i == d.sx - 1 && d.sx > 2 then Mirror(b == 1, At(s, d, d.sx - 2, j, k))
    else s[n]
  }

  function XFaces(b: int, s: seq<real>, d: Dims): (r: seq<real>)
    requires Sized(d) && IsField(s, d)
    ensures IsField(r, d)
  {
    seq(|s|, n requires 0 <= n < |s| => XFaceValue(b, s, d, n))
  }

  method XFacesLoop(b: int, x: array<real>, d: Dims)
    requires Sized(d) && IsField(x[..], d)
    modifies x
    ensures x[..] == XFaces(b, old(x[..]), d)
  {
    ghost var s := x[..];
    EncodeAll(d);
    for j := 1 to d.sy - 1
      invariant forall n :: 0 <= n < x.Length ==> x[n] == if 1 <= d.Y(n) < j then XFaceValue(b, s, d, n) else s[n]
    {
      for k := 1 to d.sz - 1
        invariant forall n :: 0 <= n < x.Length ==>
          x[n] == if 1 <= d.Y(n) < j || (d.Y(n) == j && 1 <= d.Z(n) < k) then XFaceValue(b, s, d, n) else s[n]
      {
        XColumnStep(b, x, d, s, j, k);
      }
    }
    assert x[..] == XFaces(b, s, d);
  }

  method XColumnStep(b: int, x: array<real>, d: Dims, ghost s: seq<real>, j: int, k: int)
    requires Sized(d) && IsField(x[..], d) && |s| == x.Length
    requires 1 <= j < d.sy - 1 && 1 <= k < d.sz - 1
    requires forall n :: 0 <= n < x.Length ==>
      x[n] == if 1 <= d.Y(n) < j || (d.Y(n) == j && 1 <= d.Z(n) < k) then XFaceValue(b, s, d, n) else s[n]
    modifies x
    ensures forall n :: 0 <= n < x.Length ==>
      x[n] == if 1 <= d.Y(n) < j || (d.Y(n) == j && 1 <= d.Z(n) < k + 1) then XFaceValue(b, s, d, n) else s[n]
  {
    EncodeAll(d);
    IxRange(d, 0, j, k);
    IxRange(d, 1, j, k);
    IxRange(d, d.sx - 1, j, k);
    IxRange(d, d.sx - 2, j, k);
    Decode(d, 0, j, k);
    Decode(d, 1, j, k);
    Decode(d, d.sx - 1, j, k);
    Decode(d, d.sx - 2, j, k);
    x[d.Ix(0, j, k)] := Mirror(b == 1, x[d.Ix(1, j, k)]);
    x[d.Ix(d.sx - 1, j, k)] := Mirror(b == 1, x[d.Ix(d.sx - 2, j, k)]);
  }

  // ---------------------------------------------------------------------
  // The corners (fluid_cube.c:111-119)

  /** Low or high end of an axis of n cells, and its neighbour inside. */
  function End(high: bool, n: int): int { if high then n - 1 else 0 }
  function Inner(high: bool, n: int): int { if high then n - 2 else 1 }

  /** One corner assignment: the corner at the given ends of the three axes
      becomes half the sum of its three neighbours along the axes. */
  function SetCorner(s: seq<real>, d: Dims, hx: bool, hy: bool, hz: bool): (r: seq<real>)
    requires Sized(d) && IsField(s, d)
    ensures IsField(r, d)
  {
    var i, j, k := End(hx, d.sx), End(hy, d.sy), End(hz, d.sz);
    var i', j', k' := Inner(hx, d.sx), Inner(hy, d.sy), Inner(hz, d.sz);
    IxRange(d, i, j, k);
    s[d.Ix(i, j, k) := 0.5 * (At(s, d, i', j, k) + At(s, d, i, j', k) + At(s, d, i, j, k'))]
  }

  /** The eight corner assignments, in source order. */
  function Corners(s: seq<real>, d: Dims): (r: seq<real>)
    requires Sized(d) && IsField(s, d)
    ensures IsField(r, d)
  {
    var s1 := SetCorner(s, d, false, false, false);
    var s2 := SetCorner(s1, d, false, true, false);
    var s3 := SetCorner(s2, d, true, false, false);
    var s4 := SetCorner(s3, d, true, true, false);
    var s5 := SetCorner(s4, d, false, false, true);
    var s6 := SetCorner(s5, d, false, true, true);
    var s7 := SetCorner(s6, d, true, false, true);
    SetCorner(s7, d, true, true, true)
  }

  method CornerStep(x: array<real>, d: Dims, hx: bool, hy: bool, hz: bool)
    requires Sized(d) && IsField(x[..], d)
    modifies x
    ensures x[..] == SetCorner(old(x[..]), d, hx, hy, hz)
  {
    var i, j, k := End(hx, d.sx), End(hy, d.sy), End(hz, d.sz);
    var i', j', k' := Inner(hx, d.sx), Inner(hy, d.sy), Inner(hz, d.sz);
    IxRange(d, i, j, k);
    IxRange(d, i', j, k);
    IxRange(d, i, j', k);
    IxRange(d, i, j, k');
    x[d.Ix(i, j, k)] := 0.5 * (x[d.Ix(i', j, k)] + x[d.Ix(i, j', k)] + x[d.Ix(i, j, k')]);
  }

  /** The corner block of set_bnd (fluid_cube.c:111-119). */
  method CornersUpdate(x: array<real>, d: Dims)
    requires Sized(d) && IsField(x[..], d)
    modifies x
    ensures x[..] == Corners(old(x[..]), d)
  {
    CornerStep(x, d, false, false, false);
    CornerStep(x, d, false, true, false);
    CornerStep(x, d, true, false, false);
    CornerStep(x, d, true, true, false);
    CornerStep(x, d, false, false, true);
    CornerStep(x, d, false, true, true);
    CornerStep(x, d, true, false, true);
    CornerStep(x, d, true, true, true);
  }

  // ---------------------------------------------------------------------
  // The solid cells (fluid_cube.c:121-132)

  /** A valid model, or none (cube->model == NULL). */
  predicate ValidModel(model: Option<Model>) {
    model.Some? ==> model.value.Valid()
  }

  /** Cell (i, j, .) lies in the car model: isInsideCarModel, which only
      looks at the column (i, j). */
  predicate Solid(model: Option<Model>, d: Dims, i: int, j: int)
    requires ValidModel(model) && Sized(d)
  {
    model.Some? && InsideModel(model.value, i, j, d.sx, d.sy)
  }

  function SolidValue(s: seq<real>, d: Dims, model: Option<Model>, n: int): real
    requires Sized(d) && IsField(s, d) && ValidModel(model) && 0 <= n < |s|
  {
    if Solid(model, d, d.X(n), d.Y(n)) then 0.0 else s[n]
  }

  function ZeroSolid(s: seq<real>, d: Dims, model: Option<Model>): (r: seq<real>)
    requires Sized(d) && IsField(s, d) && ValidModel(model)
    ensures IsField(r, d)
  {
    if model.None? then s else seq(|s|, n requires 0 <= n < |s| => SolidValue(s, d, model, n))
  }

  method ZeroSolidLoop(x: array<real>, d: Dims, model: Option<Model>)
    requires Sized(d) && IsField(x[..], d) && ValidModel(model)
    modifies x
    ensures x[..] == ZeroSolid(old(x[..]), d, model)
  {
    if model.None? {
      return;
    }
    ghost var s := x[..];
    EncodeAll(d);
    for i := 0 to d.sx
      invariant forall n :: 0 <= n < x.Length ==> x[n] == if d.X(n) < i then SolidValue(s, d, model, n) else s[n]
    {
      for j := 0 to d.sy
        invariant forall n :: 0 <= n < x.Length ==>
          x[n] == if d.X(n) < i || (d.X(n) == i && d.Y(n) < j) then SolidValue(s, d, model, n) else s[n]
      {
        for k := 0 to d.sz
          invariant forall n :: 0 <= n < x.Length ==>
            x[n] == if d.X(n) < i || (d.X(n) == i && (d.Y(n) < j || (d.Y(n) == j && d.Z(n) < k)))
                    then SolidValue(s, d, model, n) else s[n]
        {
          var inside := IsInsideCarModel(i, j, k, model.value, d.sx, d.sy, d.sz);
          SolidStep(x, d, model, s, i, j, k, inside);
        }
      }
    }
    assert x[..] == ZeroSolid(s, d, model);
  }

  method SolidStep(x: array<real>, d: Dims, model: Option<Model>, ghost s: seq<real>, i: int, j: int, k: int, inside: bool)
    requires Sized(d) && IsField(x[..], d) && ValidModel(model) && |s| == x.Length
    requires d.Contains(i, j, k) && inside == Solid(model, d, i, j)
    requires forall n :: 0 <= n < x.Length ==>
      x[n] == if d.X(n) < i || (d.X(n) == i && (d.Y(n) < j || (d.Y(n) == j && d.Z(n) < k)))
              then SolidValue(s, d, model, n) else s[n]
    modifies x
    ensures forall n :: 0 <= n < x.Length ==>
      x[n] == if d.X(n) < i || (d.X(n) == i && (d.Y(n) < j || (d.Y(n) == j && d.Z(n) < k + 1)))
              then SolidValue(s, d, model, n) else s[n]
  {
    EncodeAll(d);
    IxRange(d, i, j, k);
    Decode(d, i, j, k);
    if inside {
      x[d.Ix(i, j, k)] := 0.0;
    }
  }

  // ---------------------------------------------------------------------
  // set_bnd

  /** set_bnd(b, x, ...) as a function of the field on entry. */
  function SetBnd(b: int, s: seq<real>, d: Dims, model: Option<Model>): (r: seq<real>)
    requires Sized(d) && IsField(s, d) && ValidModel(model)
    ensures IsField(r, d)
  {
    ZeroSolid(Corners(XFaces(b, YFaces(b, ZFaces(b, s, d), d), d), d), d, model)
  }

  /** set_bnd (fluid_cube.c:88-133). */
  method SetBndInPlace(b: int, x: array<real>, d: Dims, model: Option<Model>)
    requires Sized(d) && IsField(x[..], d) && ValidModel(model)
    modifies x
    ensures x[..] == SetBnd(b, old(x[..]), d, model)
  {
    ZFacesLoop(b, x, d);
    YFacesLoop(b, x, d);
    XFacesLoop(b, x, d);
    CornersUpdate(x, d);
    ZeroSolidLoop(x, d, model);
  }
}
