/** advect of src/fluid_cube.c: semi-Lagrangian transport. Each interior
    cell traces its centre back along the velocity, clamps the point to
    [0.5, size + 0.5] on each axis, and takes the trilinear interpolation
    of d0 at that point, unless one of the eight sample cells falls
    outside the grid, in which case the cell keeps its value; set_bnd
    follows. */
module FluidAdvect {
  import opened Grid
  import opened ObjModel
  import opened FluidBoundary
  import opened BoundaryRules
  import opened InteriorLoop

  /** The back-traced coordinate along one axis: pos - dtc * v, clamped to
      [0.5, n + 0.5] by the two tests of the source, in their order. */
  function Backtrace(pos: int, v: real, dtc: real, n: int): (x: real)
    requires n >= 0
    ensures 0.5 <= x <= n as real + 0.5
    ensures 0.5 <= pos as real - dtc * v <= n as real + 0.5 ==> x == pos as real - dtc * v
  {
    var x0 := pos as real - dtc * v;
    var x1 := if x0 < 0.5 then 0.5 else x0;
    if x1 > n as real + 0.5 then n as real + 0.5 else x1
  }

  /** A sample position split into its lower cell (floorf) and the weight
      of the upper cell (s1, t1 or u1). */
  datatype Sample = Sample(lo: int, w: real)

  function SampleOf(x: real): (s: Sample)
    ensures s.lo as real <= x < s.lo as real + 1.0
    ensures 0.0 <= s.w < 1.0 && s.lo as real + s.w == x
  {
    Sample(x.Floor, x - x.Floor as real)
  }

  /** The bounds test of the source, as written: the lower bound of i0 is
      tested twice and that of k0 not at all. */
  predicate OutOfRange(si: Sample, sj: Sample, sk: Sample, d: Dims) {
    var i0, i1, j0, j1, k0, k1 := si.lo, si.lo + 1, sj.lo, sj.lo + 1, sk.lo, sk.lo + 1;
    i0 < 0 || i0 >= d.sx || i1 < 0 || i1 >= d.sx ||
    j0 < 0 || j0 >= d.sy || j1 < 0 || j1 >= d.sy ||
    i0 < 0 || k0 >= d.sz || k1 < 0 || k1 >= d.sz
  }

  /** s0 * p + s1 * q with s0 = 1 - s1. */
  function Lerp(w: real, p: real, q: real): real {
    (1.0 - w) * p + w * q
  }

  /** The trilinear interpolation of d0 at the samples. */
  function Interpolate(d0: seq<real>, d: Dims, si: Sample, sj: Sample, sk: Sample): real
    requires IsField(d0, d) && !OutOfRange(si, sj, sk, d) && si.lo >= 0 && sj.lo >= 0 && sk.lo >= 0
  {
    var i0, i1, j0, j1, k0, k1 := si.lo, si.lo + 1, sj.lo, sj.lo + 1, sk.lo, sk.lo + 1;
    Lerp(si.w,
      Lerp(sj.w, Lerp(sk.w, At(d0, d, i0, j0, k0), At(d0, d, i0, j0, k1)),
                 Lerp(sk.w, At(d0, d, i0, j1, k0), At(d0, d, i0, j1, k1))),
      Lerp(sj.w, Lerp(sk.w, At(d0, d, i1, j0, k0), At(d0, d, i1, j0, k1)),
                 Lerp(sk.w, At(d0, d, i1, j1, k0), At(d0, d, i1, j1, k1))))
  }

  /** The sample along one axis of the cell at pos with velocity v, where
      dtc is dt * (size - 2) on that axis. */
  function AxisSampleOf(pos: int, v: real, dtc: real, n: int): (s: Sample)
    requires n >= 0
    ensures s.lo >= 0
  {
    SampleOf(Backtrace(pos, v, dtc, n))
  }

  /** The size along an axis (1, 2, 3 for x, y, z). */
  function Side(d: Dims, axis: int): nat {
    if axis == 1 then d.sx else if axis == 2 then d.sy else d.sz
  }

  /** dtx = dt * (sx - 2), dty and dtz likewise. */
  function Rate(dt: real, n: int): real {
    dt * ((n - 2) as real)
  }

  /** The sample of interior cell (i, j, k) along an axis, v being the
      velocity component of that axis. */
  function SampleAt(v: seq<real>, dt: real, d: Dims, axis: int, i: int, j: int, k: int): (s: Sample)
    requires Sized(d) && IsField(v, d) && Interior3(d, i, j, k)
    ensures s.lo >= 0
  {
    var pos := if axis == 1 then i else if axis == 2 then j else k;
    AxisSampleOf(pos, At(v, d, i, j, k), Rate(dt, Side(d, axis)), Side(d, axis))
  }

  /** The value the loop body leaves at interior cell (i, j, k) for the
      given samples: the old value when a sample cell is out of range,
      the interpolation otherwise. */
  function CellValue(dd: seq<real>, d0: seq<real>, d: Dims, i: int, j: int, k: int, si: Sample, sj: Sample, sk: Sample): real
    requires IsField(dd, d) && IsField(d0, d) && d.Contains(i, j, k) && si.lo >= 0 && sj.lo >= 0 && sk.lo >= 0
  {
    if OutOfRange(si, sj, sk, d) then At(dd, d, i, j, k) else Interpolate(d0, d, si, sj, sk)
  }

  /** The value advect writes at interior cell (i, j, k), or the old value
      of a cell it skips. */
  function AdvectValue(dd: seq<real>, d0: seq<real>, vx: seq<real>, vy: seq<real>, vz: seq<real>, dt: real, d: Dims, i: int, j: int, k: int): real
    requires Sized(d) && IsField(dd, d) && IsField(d0, d) && IsField(vx, d) && IsField(vy, d) && IsField(vz, d)
    requires Interior3(d, i, j, k)
  {
    CellValue(dd, d0, d, i, j, k, SampleAt(vx, dt, d, 1, i, j, k), SampleAt(vy, dt, d, 2, i, j, k), SampleAt(vz, dt, d, 3, i, j, k))
  }

  /** dd after the advection loop, before set_bnd. */
  function AdvectField(dd: seq<real>, d0: seq<real>, vx: seq<real>, vy: seq<real>, vz: seq<real>, dt: real, d: Dims): (r: seq<real>)
    requires Sized(d) && IsField(dd, d) && IsField(d0, d) && IsField(vx, d) && IsField(vy, d) && IsField(vz, d)
    ensures IsField(r, d) && InteriorUpdate(r, dd, d)
  {
    seq(|dd|, n requires 0 <= n < |dd| =>
      if d.Interior(n) then (Encode(d, n); AdvectValue(dd, d0, vx, vy, vz, dt, d, d.X(n), d.Y(n), d.Z(n))) else dd[n])
  }

  /** advect(b, d, d0, velocX, velocY, velocZ, dt). */
  function Advect(b: int, dd: seq<real>, d0: seq<real>, vx: seq<real>, vy: seq<real>, vz: seq<real>, dt: real, d: Dims, model: Option<Model>): (r: seq<real>)
    requires Sized(d) && IsField(dd, d) && IsField(d0, d) && IsField(vx, d) && IsField(vy, d) && IsField(vz, d) && ValidModel(model)
    ensures IsField(r, d)
  {
    SetBnd(b, AdvectField(dd, d0, vx, vy, vz, dt, d), d, model)
  }

  // ---------------------------------------------------------------------
  // Properties

  /** Back-traced samples never fail a lower-bound test, so a cell is
      skipped exactly when its point lies at or beyond the last layer
      (size - 1) along some axis. */
  lemma SkipIff(x: real, y: real, z: real, d: Dims)
    requires x >= 0.5 && y >= 0.5 && z >= 0.5
    ensures OutOfRange(SampleOf(x), SampleOf(y), SampleOf(z), d) <==>
      x >= (d.sx - 1) as real || y >= (d.sy - 1) as real || z >= (d.sz - 1) as real
  {
  }

  /** A weighted mean of two values lies between them. */
  lemma LerpBetween(w: real, p: real, q: real, lo: real, hi: real)
    requires 0.0 <= w <= 1.0 && lo <= p <= hi && lo <= q <= hi
    ensures lo <= Lerp(w, p, q) <= hi
  {
    var u := 1.0 - w;
    assert Lerp(w, p, q) == u * p + w * q;
    WeightsLe(u, w, lo, p, lo, q);
    WeightsLe(u, w, p, hi, q, hi);
    assert u * lo + w * lo == lo;
    assert u * hi + w * hi == hi;
  }

  /** Nonnegative weights preserve the order of their operands. */
  lemma WeightsLe(u: real, w: real, a: real, b: real, c: real, e: real)
    requires 0.0 <= u && 0.0 <= w && a <= b && c <= e
    ensures u * a + w * c <= u * b + w * e
  {
    assert u * a <= u * b;
    assert w * c <= w * e;
  }

  /** The value of a field lies in [lo, hi] everywhere. */
  ghost predicate Bounded(s: seq<real>, lo: real, hi: real) {
    forall n :: 0 <= n < |s| ==> lo <= s[n] <= hi
  }

  lemma AtBounded(s: seq<real>, d: Dims, lo: real, hi: real, i: int, j: int, k: int)
    requires IsField(s, d) && Bounded(s, lo, hi) && d.Contains(i, j, k)
    ensures lo <= At(s, d, i, j, k) <= hi
  {
    IxRange(d, i, j, k);
  }

  /** The interpolation lies between the least and the greatest value of
      d0. */
  lemma InterpolateBetween(d0: seq<real>, d: Dims, si: Sample, sj: Sample, sk: Sample, lo: real, hi: real)
    requires IsField(d0, d) && !OutOfRange(si, sj, sk, d) && si.lo >= 0 && sj.lo >= 0 && sk.lo >= 0
    requires 0.0 <= si.w <= 1.0 && 0.0 <= sj.w <= 1.0 && 0.0 <= sk.w <= 1.0
    requires Bounded(d0, lo, hi)
    ensures lo <= Interpolate(d0, d, si, sj, sk) <= hi
  {
    var i0, i1, j0, j1, k0, k1 := si.lo, si.lo + 1, sj.lo, sj.lo + 1, sk.lo, sk.lo + 1;
    AtBounded(d0, d, lo, hi, i0, j0, k0);
    AtBounded(d0, d, lo, hi, i0, j0, k1);
    AtBounded(d0, d, lo, hi, i0, j1, k0);
    AtBounded(d0, d, lo, hi, i0, j1, k1);
    AtBounded(d0, d, lo, hi, i1, j0, k0);
    AtBounded(d0, d, lo, hi, i1, j0, k1);
    AtBounded(d0, d, lo, hi, i1, j1, k0);
    AtBounded(d0, d, lo, hi, i1, j1, k1);
    var a00 := Lerp(sk.w, At(d0, d, i0, j0, k0), At(d0, d, i0, j0, k1));
    var a01 := Lerp(sk.w, At(d0, d, i0, j1, k0), At(d0, d, i0, j1, k1));
    var a10 := Lerp(sk.w, At(d0, d, i1, j0, k0), At(d0, d, i1, j0, k1));
    var a11 := Lerp(sk.w, At(d0, d, i1, j1, k0), At(d0, d, i1, j1, k1));
    LerpBetween(sk.w, At(d0, d, i0, j0, k0), At(d0, d, i0, j0, k1), lo, hi);
    LerpBetween(sk.w, At(d0, d, i0, j1, k0), At(d0, d, i0, j1, k1), lo, hi);
    LerpBetween(sk.w, At(d0, d, i1, j0, k0), At(d0, d, i1, j0, k1), lo, hi);
    LerpBetween(sk.w, At(d0, d, i1, j1, k0), At(d0, d, i1, j1, k1), lo, hi);
    LerpBetween(sj.w, a00, a01, lo, hi);
    LerpBetween(sj.w, a10, a11, lo, hi);
    LerpBetween(si.w, Lerp(sj.w, a00, a01), Lerp(sj.w, a10, a11), lo, hi);
  }

  /** Advection creates no new extremes: when dd and d0 lie in [lo, hi],
      so does every value the advection loop leaves. */
  lemma AdvectValueBetween(dd: seq<real>, d0: seq<real>, vx: seq<real>, vy: seq<real>, vz: seq<real>, dt: real, d: Dims,
                           i: int, j: int, k: int, lo: real, hi: real)
    requires Sized(d) && IsField(dd, d) && IsField(d0, d) && IsField(vx, d) && IsField(vy, d) && IsField(vz, d)
    requires Interior3(d, i, j, k) && Bounded(dd, lo, hi) && Bounded(d0, lo, hi)
    ensures lo <= AdvectValue(dd, d0, vx, vy, vz, dt, d, i, j, k) <= hi
  {
    var si, sj, sk := SampleAt(vx, dt, d, 1, i, j, k), SampleAt(vy, dt, d, 2, i, j, k), SampleAt(vz, dt, d, 3, i, j, k);
    assert AdvectValue(dd, d0, vx, vy, vz, dt, d, i, j, k) == CellValue(dd, d0, d, i, j, k, si, sj, sk);
    if OutOfRange(si, sj, sk, d) {
      AtBounded(dd, d, lo, hi, i, j, k);
    } else {
      InterpolateBetween(d0, d, si, sj, sk, lo, hi);
    }
  }

  /** After advect, each interior cell is 0 when solid and otherwise lies
      in [lo, hi] when dd and d0 do. */
  lemma AdvectBetween(b: int, dd: seq<real>, d0: seq<real>, vx: seq<real>, vy: seq<real>, vz: seq<real>, dt: real, d: Dims,
                      model: Option<Model>, i: int, j: int, k: int, lo: real, hi: real)
    requires Sized(d) && IsField(dd, d) && IsField(d0, d) && IsField(vx, d) && IsField(vy, d) && IsField(vz, d) && ValidModel(model)
    requires Interior3(d, i, j, k) && Bounded(dd, lo, hi) && Bounded(d0, lo, hi)
    ensures var v := At(Advect(b, dd, d0, vx, vy, vz, dt, d, model), d, i, j, k);
      if Solid(model, d, i, j) then v == 0.0 else lo <= v <= hi
  {
    var f := AdvectField(dd, d0, vx, vy, vz, dt, d);
    AdvectFieldAt(dd, d0, vx, vy, vz, dt, d, i, j, k);
    AdvectValueBetween(dd, d0, vx, vy, vz, dt, d, i, j, k, lo, hi);
    SetBndKeeps(b, f, d, model, i, j, k);
  }

  lemma AdvectFieldAt(dd: seq<real>, d0: seq<real>, vx: seq<real>, vy: seq<real>, vz: seq<real>, dt: real, d: Dims, i: int, j: int, k: int)
    requires Sized(d) && IsField(dd, d) && IsField(d0, d) && IsField(vx, d) && IsField(vy, d) && IsField(vz, d)
    requires Interior3(d, i, j, k)
    ensures 0 <= d.Ix(i, j, k) < |dd|
    ensures At(AdvectField(dd, d0, vx, vy, vz, dt, d), d, i, j, k) == AdvectValue(dd, d0, vx, vy, vz, dt, d, i, j, k)
  {
    IxRange(d, i, j, k);
    Decode(d, i, j, k);
  }

  /** A cell whose back-traced point lies at or beyond the last layer
      (size - 1) on some axis is skipped and keeps its old value. */
  lemma AdvectSkipKeeps(dd: seq<real>, d0: seq<real>, vx: seq<real>, vy: seq<real>, vz: seq<real>, dt: real, d: Dims, i: int, j: int, k: int)
    requires Sized(d) && IsField(dd, d) && IsField(d0, d) && IsField(vx, d) && IsField(vy, d) && IsField(vz, d)
    requires Interior3(d, i, j, k)
    requires Backtrace(i, At(vx, d, i, j, k), Rate(dt, d.sx), d.sx) >= (d.sx - 1) as real ||
             Backtrace(j, At(vy, d, i, j, k), Rate(dt, d.sy), d.sy) >= (d.sy - 1) as real ||
             Backtrace(k, At(vz, d, i, j, k), Rate(dt, d.sz), d.sz) >= (d.sz - 1) as real
    ensures 0 <= d.Ix(i, j, k) < |dd|
    ensures At(AdvectField(dd, d0, vx, vy, vz, dt, d), d, i, j, k) == At(dd, d, i, j, k)
  {
    AdvectFieldAt(dd, d0, vx, vy, vz, dt, d, i, j, k);
    SkipIff(Backtrace(i, At(vx, d, i, j, k), Rate(dt, d.sx), d.sx),
            Backtrace(j, At(vy, d, i, j, k), Rate(dt, d.sy), d.sy),
            Backtrace(k, At(vz, d, i, j, k), Rate(dt, d.sz), d.sz), d);
  }

  /** Without velocity a cell takes d0's value at its own centre: the point
      does not move, its weights are 0 and its upper samples lie inside. */
  lemma AdvectValueAtRest(dd: seq<real>, d0: seq<real>, vx: seq<real>, vy: seq<real>, vz: seq<real>, dt: real, d: Dims, i: int, j: int, k: int)
    requires Sized(d) && IsField(dd, d) && IsField(d0, d) && IsField(vx, d) && IsField(vy, d) && IsField(vz, d)
    requires Interior3(d, i, j, k)
    requires At(vx, d, i, j, k) == 0.0 && At(vy, d, i, j, k) == 0.0 && At(vz, d, i, j, k) == 0.0
    ensures AdvectValue(dd, d0, vx, vy, vz, dt, d, i, j, k) == At(d0, d, i, j, k)
  {
    var si, sj, sk := SampleAt(vx, dt, d, 1, i, j, k), SampleAt(vy, dt, d, 2, i, j, k), SampleAt(vz, dt, d, 3, i, j, k);
    StillSample(vx, dt, d, 1, i, j, k);
    StillSample(vy, dt, d, 2, i, j, k);
    StillSample(vz, dt, d, 3, i, j, k);
    assert si == Sample(i, 0.0) && sj == Sample(j, 0.0) && sk == Sample(k, 0.0);
  }

  lemma StillSample(v: seq<real>, dt: real, d: Dims, axis: int, i: int, j: int, k: int)
    requires Sized(d) && IsField(v, d) && Interior3(d, i, j, k) && At(v, d, i, j, k) == 0.0
    ensures SampleAt(v, dt, d, axis, i, j, k) == Sample(if axis == 1 then i else if axis == 2 then j else k, 0.0)
  {
    var pos := if axis == 1 then i else if axis == 2 then j else k;
    assert Backtrace(pos, 0.0, Rate(dt, Side(d, axis)), Side(d, axis)) == pos as real;
  }

  /** advect with a zero velocity field copies d0 into every interior cell
      that is not solid. */
  lemma AdvectAtRest(b: int, dd: seq<real>, d0: seq<real>, dt: real, d: Dims, model: Option<Model>, i: int, j: int, k: int)
    requires Sized(d) && IsField(dd, d) && IsField(d0, d) && ValidModel(model) && Interior3(d, i, j, k)
    ensures At(Advect(b, dd, d0, Zeros(d), Zeros(d), Zeros(d), dt, d, model), d, i, j, k) ==
      if Solid(model, d, i, j) then 0.0 else At(d0, d, i, j, k)
  {
    var z := Zeros(d);
    var f := AdvectField(dd, d0, z, z, z, dt, d);
    AtZeros(d, i, j, k);
    AdvectFieldAt(dd, d0, z, z, z, dt, d, i, j, k);
    AdvectValueAtRest(dd, d0, z, z, z, dt, d, i, j, k);
    SetBndKeeps(b, f, d, model, i, j, k);
  }

  /** Advecting the zero field gives the zero field, whatever the velocity. */
  lemma AdvectZeros(b: int, vx: seq<real>, vy: seq<real>, vz: seq<real>, dt: real, d: Dims, model: Option<Model>)
    requires Sized(d) && IsField(vx, d) && IsField(vy, d) && IsField(vz, d) && ValidModel(model)
    ensures Advect(b, Zeros(d), Zeros(d), vx, vy, vz, dt, d, model) == Zeros(d)
  {
    var z := Zeros(d);
    var f := AdvectField(z, z, vx, vy, vz, dt, d);
    forall n | 0 <= n < |f|
      ensures f[n] == 0.0
    {
      if d.Interior(n) {
        Encode(d, n);
        AdvectValueBetween(z, z, vx, vy, vz, dt, d, d.X(n), d.Y(n), d.Z(n), 0.0, 0.0);
      }
    }
    assert f == z;
    SetBndZeros(b, d, model);
  }

  // ---------------------------------------------------------------------
  // The loop of advect, in place

  /** advect(b, dd, d0, vx, vy, vz, dt) on arrays. d0 may be one of the
      velocity fields (the step passes Vx0 for both); dd is none of them. */
  method AdvectInPlace(b: int, dd: array<real>, d0: array<real>, vx: array<real>, vy: array<real>, vz: array<real>, dt: real,
                       d: Dims, model: Option<Model>)
    requires Sized(d) && IsField(dd[..], d) && IsField(d0[..], d) && IsField(vx[..], d) && IsField(vy[..], d) && IsField(vz[..], d)
    requires ValidModel(model) && dd != d0 && dd != vx && dd != vy && dd != vz
    modifies dd
    ensures dd[..] == Advect(b, old(dd[..]), d0[..], vx[..], vy[..], vz[..], dt, d, model)
  {
    ghost var dd0 := dd[..];
    ghost var t := AdvectField(dd0, d0[..], vx[..], vy[..], vz[..], dt, d);
    PartialStart(dd0, t, d);
    for i := 1 to d.sx - 1
      invariant Partial(dd[..], t, dd0, d, i, 1, 1)
    {
      for j := 1 to d.sy - 1
        invariant Partial(dd[..], t, dd0, d, i, j, 1)
      {
        for k := 1 to d.sz - 1
          invariant Partial(dd[..], t, dd0, d, i, j, k)
        {
          AdvectCell(dd, d0, vx, vy, vz, dt, d, t, dd0, i, j, k);
        }
        PartialRow(dd[..], t, dd0, d, i, j);
      }
      PartialPlane(dd[..], t, dd0, d, i);
    }
    PartialDone(dd[..], t, dd0, d);
    SetBndInPlace(b, dd, d, model);
  }

  /** One back-traced point along an axis, with the source's two clamps. */
  method TraceBack(pos: int, v: real, dtc: real, n: int) returns (x: real)
    requires n >= 0
    ensures x == Backtrace(pos, v, dtc, n)
  {
    x := pos as real - dtc * v;
    if x < 0.5 {
      x := 0.5;
    }
    if x > n as real + 0.5 {
      x := n as real + 0.5;
    }
  }

  /** The body of the advection loop for interior cell (i, j, k). */
  method AdvectCell(dd: array<real>, d0: array<real>, vx: array<real>, vy: array<real>, vz: array<real>, dt: real, d: Dims,
                    ghost t: seq<real>, ghost dd0: seq<real>, i: int, j: int, k: int)
    requires Sized(d) && IsField(dd[..], d) && IsField(d0[..], d) && IsField(vx[..], d) && IsField(vy[..], d) && IsField(vz[..], d)
    requires dd != d0 && dd != vx && dd != vy && dd != vz
    requires Interior3(d, i, j, k) && IsField(dd0, d) && t == AdvectField(dd0, d0[..], vx[..], vy[..], vz[..], dt, d)
    requires Partial(dd[..], t, dd0, d, i, j, k)
    modifies dd
    ensures Partial(dd[..], t, dd0, d, i, j, k + 1)
  {
    IxRange(d, i, j, k);
    Decode(d, i, j, k);
    var c := d.Ix(i, j, k);
    AdvectFieldAt(dd0, d0[..], vx[..], vy[..], vz[..], dt, d, i, j, k);
    var si, sj, sk := CellSamples(vx, vy, vz, dt, d, i, j, k);
    assert t[c] == CellValue(dd0, d0[..], d, i, j, k, si, sj, sk);
    PartialStep(dd[..], t, dd0, d, i, j, k);
    var i0, i1, j0, j1, k0, k1 := si.lo, si.lo + 1, sj.lo, sj.lo + 1, sk.lo, sk.lo + 1;
    if i0 < 0 || i0 >= d.sx || i1 < 0 || i1 >= d.sx ||
       j0 < 0 || j0 >= d.sy || j1 < 0 || j1 >= d.sy ||
       i0 < 0 || k0 >= d.sz || k1 < 0 || k1 >= d.sz {
      assert dd[..][c := t[c]] == dd[..];
      return;
    }
    var v := Interpolation(d0, d, si, sj, sk);
    dd[c] := v;
  }

  /** The back-traced point of cell (i, j, k) split into cells and weights. */
  method CellSamples(vx: array<real>, vy: array<real>, vz: array<real>, dt: real, d: Dims, i: int, j: int, k: int)
    returns (si: Sample, sj: Sample, sk: Sample)
    requires Sized(d) && IsField(vx[..], d) && IsField(vy[..], d) && IsField(vz[..], d) && Interior3(d, i, j, k)
    ensures si == SampleAt(vx[..], dt, d, 1, i, j, k) && sj == SampleAt(vy[..], dt, d, 2, i, j, k) && sk == SampleAt(vz[..], dt, d, 3, i, j, k)
  {
    si := AxisSample(vx, dt, d, 1, i, j, k);
    sj := AxisSample(vy, dt, d, 2, i, j, k);
    sk := AxisSample(vz, dt, d, 3, i, j, k);
  }

  /** The sample of cell (i, j, k) along an axis. */
  method AxisSample(v: array<real>, dt: real, d: Dims, axis: int, i: int, j: int, k: int) returns (s: Sample)
    requires Sized(d) && IsField(v[..], d) && Interior3(d, i, j, k)
    ensures s == SampleAt(v[..], dt, d, axis, i, j, k)
  {
    IxRange(d, i, j, k);
    var n := Side(d, axis);
    var pos := if axis == 1 then i else if axis == 2 then j else k;
    var vc := v[d.Ix(i, j, k)];
    var dtc := Rate(dt, n);
    assert vc == At(v[..], d, i, j, k);
    s := SplitPoint(pos, vc, dtc, n);
  }

  /** floorf of the back-traced point and the weight x - i0 of the upper
      cell. */
  method SplitPoint(pos: int, v: real, dtc: real, n: int) returns (s: Sample)
    requires n >= 0
    ensures s == AxisSampleOf(pos, v, dtc, n)
  {
    var x := TraceBack(pos, v, dtc, n);
    var lo := x.Floor;
    s := Sample(lo, x - lo as real);
  }

  /** The interpolation as the source writes it, with s0 = 1 - s1 and so on. */
  method Interpolation(d0: array<real>, d: Dims, si: Sample, sj: Sample, sk: Sample) returns (v: real)
    requires IsField(d0[..], d) && !OutOfRange(si, sj, sk, d) && si.lo >= 0 && sj.lo >= 0 && sk.lo >= 0
    ensures v == Interpolate(d0[..], d, si, sj, sk)
  {
    var i0, i1, j0, j1, k0, k1 := si.lo, si.lo + 1, sj.lo, sj.lo + 1, sk.lo, sk.lo + 1;
    var s1, t1, u1 := si.w, sj.w, sk.w;
    var s0, t0, u0 := 1.0 - s1, 1.0 - t1, 1.0 - u1;
    IxRange(d, i0, j0, k0);
    IxRange(d, i0, j0, k1);
    IxRange(d, i0, j1, k0);
    IxRange(d, i0, j1, k1);
    IxRange(d, i1, j0, k0);
    IxRange(d, i1, j0, k1);
    IxRange(d, i1, j1, k0);
    IxRange(d, i1, j1, k1);
    var a000, a001, a010, a011 := d0[d.Ix(i0, j0, k0)], d0[d.Ix(i0, j0, k1)], d0[d.Ix(i0, j1, k0)], d0[d.Ix(i0, j1, k1)];
    var a100, a101, a110, a111 := d0[d.Ix(i1, j0, k0)], d0[d.Ix(i1, j0, k1)], d0[d.Ix(i1, j1, k0)], d0[d.Ix(i1, j1, k1)];
    assert a000 == At(d0[..], d, i0, j0, k0) && a001 == At(d0[..], d, i0, j0, k1);
    assert a010 == At(d0[..], d, i0, j1, k0) && a011 == At(d0[..], d, i0, j1, k1);
    assert a100 == At(d0[..], d, i1, j0, k0) && a101 == At(d0[..], d, i1, j0, k1);
    assert a110 == At(d0[..], d, i1, j1, k0) && a111 == At(d0[..], d, i1, j1, k1);
    v := s0 * (t0 * (u0 * a000 + u1 * a001) + t1 * (u0 * a010 + u1 * a011)) +
         s1 * (t0 * (u0 * a100 + u1 * a101) + t1 * (u0 * a110 + u1 * a111));
  }
}
