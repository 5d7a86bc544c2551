/** What set_bnd computes, cell by cell, stated without the order of its
    loops: a reference rule for every kind of cell (interior, face, edge,
    corner) and the lemmas showing that the sequential stages of
    FluidBoundary.SetBnd agree with it. */
module BoundaryRules {
  import opened Grid
  import opened ObjModel
  import opened FluidBoundary

  /** Each side has an interior cell, so faces, edges and corners are
      distinct cells. */
  predicate HasInterior(d: Dims) {
    d.sx >= 3 && d.sy >= 3 && d.sz >= 3
  }

  /** Coordinate i of an axis of n cells is on one of its two ends. */
  predicate OnEnd(i: int, n: int) {
    i == 0 || i == n - 1
  }

  /** The neighbour, along the same axis, of an end coordinate. */
  function Near(i: int, n: int): int {
    if i == 0 then 1 else n - 2
  }

  predicate CornerCell(d: Dims, n: int)
    requires d.sx > 0 && d.sy > 0
  {
    OnEnd(d.X(n), d.sx) && OnEnd(d.Y(n), d.sy) && OnEnd(d.Z(n), d.sz)
  }

  /** Half the sum of the three axis neighbours of corner n. */
  function CornerAverage(t: seq<real>, d: Dims, n: int): real
    requires Sized(d) && IsField(t, d) && 0 <= n < |t| && CornerCell(d, n)
  {
    Encode(d, n);
    var i, j, k := d.X(n), d.Y(n), d.Z(n);
    0.5 * (At(t, d, Near(i, d.sx), j, k) + At(t, d, i, Near(j, d.sy), k) + At(t, d, i, j, Near(k, d.sz)))
  }

  /** The value set_bnd leaves in cell (i, j, k) of a field s, before
      solid cells are zeroed: a corner is half the sum of its axis
      neighbours, a face cell copies its inner neighbour, negated on the
      faces normal to the component b names (3: z, 2: y, 1: x), and every
      other cell (interior and edge) keeps its value. */
  function Rule(b: int, s: seq<real>, d: Dims, i: int, j: int, k: int): real
    requires Sized(d) && IsField(s, d) && d.Contains(i, j, k)
  {
    var ex, ey, ez := OnEnd(i, d.sx), OnEnd(j, d.sy), OnEnd(k, d.sz);
    if ex && ey && ez then
      0.5 * (At(s, d, Near(i, d.sx), j, k) + At(s, d, i, Near(j, d.sy), k) + At(s, d, i, j, Near(k, d.sz)))
    else if ez && !ex && !ey then Mirror(b == 3, At(s, d, i, j, Near(k, d.sz)))
    else if ey && !ex && !ez then Mirror(b == 2, At(s, d, i, Near(j, d.sy), k))
    else if ex && !ey && !ez then Mirror(b == 1, At(s, d, Near(i, d.sx), j, k))
    else At(s, d, i, j, k)
  }

  /** Rule at the cell of flat index n. */
  function BoundaryRule(b: int, s: seq<real>, d: Dims, n: int): real
    requires Sized(d) && IsField(s, d) && 0 <= n < |s|
  {
    Encode(d, n);
    Rule(b, s, d, d.X(n), d.Y(n), d.Z(n))
  }

  // ---------------------------------------------------------------------
  // The corner block

  function CornerIx(d: Dims, hx: bool, hy: bool, hz: bool): int {
    d.Ix(End(hx, d.sx), End(hy, d.sy), End(hz, d.sz))
  }

  /** One corner assignment updates exactly its corner, to the average. */
  lemma SetCornerEffect(u: seq<real>, d: Dims, hx: bool, hy: bool, hz: bool)
    requires Sized(d) && IsField(u, d)
    ensures var c := CornerIx(d, hx, hy, hz);
      0 <= c < |u| && CornerCell(d, c) && SetCorner(u, d, hx, hy, hz) == u[c := CornerAverage(u, d, c)]
  {
    var i, j, k := End(hx, d.sx), End(hy, d.sy), End(hz, d.sz);
    IxRange(d, i, j, k);
    Decode(d, i, j, k);
  }

  /** u and t agree everywhere except possibly at the corners. */
  predicate AgreeOffCorners(u: seq<real>, t: seq<real>, d: Dims)
    requires Sized(d) && IsField(u, d) && IsField(t, d)
  {
    forall n :: 0 <= n < |u| && !CornerCell(d, n) ==> u[n] == t[n]
  }

  /** No axis neighbour of a corner is a corner, so the average only reads
      cells off the corners. */
  lemma AverageOffCorners(u: seq<real>, t: seq<real>, d: Dims, c: int)
    requires HasInterior(d) && IsField(u, d) && IsField(t, d) && AgreeOffCorners(u, t, d)
    requires 0 <= c < |u| && CornerCell(d, c)
    ensures CornerAverage(u, d, c) == CornerAverage(t, d, c)
  {
    Encode(d, c);
    var i, j, k := d.X(c), d.Y(c), d.Z(c);
    NeighbourOffCorners(u, t, d, Near(i, d.sx), j, k);
    NeighbourOffCorners(u, t, d, i, Near(j, d.sy), k);
    NeighbourOffCorners(u, t, d, i, j, Near(k, d.sz));
  }

  /** A cell with a coordinate strictly inside its axis is no corner. */
  lemma NeighbourOffCorners(u: seq<real>, t: seq<real>, d: Dims, i: int, j: int, k: int)
    requires HasInterior(d) && IsField(u, d) && IsField(t, d) && AgreeOffCorners(u, t, d)
    requires d.Contains(i, j, k) && (!OnEnd(i, d.sx) || !OnEnd(j, d.sy) || !OnEnd(k, d.sz))
    ensures At(u, d, i, j, k) == At(t, d, i, j, k)
  {
    IxRange(d, i, j, k);
    Decode(d, i, j, k);
    assert !CornerCell(d, d.Ix(i, j, k));
  }

  /** u is t with the corners in done set to their averages over t. */
  predicate CornersDone(u: seq<real>, t: seq<real>, d: Dims, done: set<int>)
    requires Sized(d) && IsField(u, d) && IsField(t, d)
  {
    forall n :: 0 <= n < |u| ==>
      u[n] == if n in done && CornerCell(d, n) then CornerAverage(t, d, n) else t[n]
  }

  lemma CornerStepDone(u: seq<real>, t: seq<real>, d: Dims, done: set<int>, hx: bool, hy: bool, hz: bool)
    requires HasInterior(d) && IsField(u, d) && IsField(t, d) && CornersDone(u, t, d, done)
    ensures CornersDone(SetCorner(u, d, hx, hy, hz), t, d, done + {CornerIx(d, hx, hy, hz)})
  {
    var c := CornerIx(d, hx, hy, hz);
    SetCornerEffect(u, d, hx, hy, hz);
    AverageOffCorners(u, t, d, c);
  }

  /** Every corner cell is one of the eight CornerIx. */
  lemma CornerIsCornerIx(d: Dims, n: int)
    requires Sized(d) && 0 <= n < d.Cells() && CornerCell(d, n)
    ensures n == CornerIx(d, d.X(n) != 0, d.Y(n) != 0, d.Z(n) != 0)
  {
    Encode(d, n);
  }

  /** For a lattice with an interior, the corner block sets every corner to
      half the sum of its three axis neighbours as they were on entry, and
      changes no other cell. */
  lemma CornersValue(t: seq<real>, d: Dims)
    requires HasInterior(d) && IsField(t, d)
    ensures forall n :: 0 <= n < |t| ==>
      Corners(t, d)[n] == if CornerCell(d, n) then CornerAverage(t, d, n) else t[n]
  {
    var c1, c2 := CornerIx(d, false, false, false), CornerIx(d, false, true, false);
    var c3, c4 := CornerIx(d, true, false, false), CornerIx(d, true, true, false);
    var c5, c6 := CornerIx(d, false, false, true), CornerIx(d, false, true, true);
    var c7, c8 := CornerIx(d, true, false, true), CornerIx(d, true, true, true);
    var s1 := SetCorner(t, d, false, false, false);
    CornerStepDone(t, t, d, {}, false, false, false);
    var s2 := SetCorner(s1, d, false, true, false);
    CornerStepDone(s1, t, d, {c1}, false, true, false);
    var s3 := SetCorner(s2, d, true, false, false);
    CornerStepDone(s2, t, d, {c1, c2}, true, false, false);
    var s4 := SetCorner(s3, d, true, true, false);
    CornerStepDone(s3, t, d, {c1, c2, c3}, true, true, false);
    var s5 := SetCorner(s4, d, false, false, true);
    CornerStepDone(s4, t, d, {c1, c2, c3, c4}, false, false, true);
    var s6 := SetCorner(s5, d, false, true, true);
    CornerStepDone(s5, t, d, {c1, c2, c3, c4, c5}, false, true, true);
    var s7 := SetCorner(s6, d, true, false, true);
    CornerStepDone(s6, t, d, {c1, c2, c3, c4, c5, c6}, true, false, true);
    CornerStepDone(s7, t, d, {c1, c2, c3, c4, c5, c6, c7}, true, true, true);
    assert Corners(t, d) == SetCorner(s7, d, true, true, true);
    forall n | 0 <= n < |t|
      ensures Corners(t, d)[n] == if CornerCell(d, n) then CornerAverage(t, d, n) else t[n]
    {
      if CornerCell(d, n) {
        CornerIsCornerIx(d, n);
      }
    }
  }

  // ---------------------------------------------------------------------
  // The face loops

  /** The three face loops together: face cells follow the rule, and no
      other cell changes (so every edge and corner keeps its value). */
  lemma FacesValue(b: int, s: seq<real>, d: Dims, n: int)
    requires HasInterior(d) && IsField(s, d) && 0 <= n < |s|
    ensures XFaces(b, YFaces(b, ZFaces(b, s, d), d), d)[n] ==
      if CornerCell(d, n) then s[n] else BoundaryRule(b, s, d, n)
  {
    var t1 := ZFaces(b, s, d);
    var t2 := YFaces(b, t1, d);
    Encode(d, n);
    var i, j, k := d.X(n), d.Y(n), d.Z(n);
    var ex, ey, ez := OnEnd(i, d.sx), OnEnd(j, d.sy), OnEnd(k, d.sz);
    if ex && !ey && !ez {
      var m := d.Ix(Near(i, d.sx), j, k);
      IxRange(d, Near(i, d.sx), j, k);
      Decode(d, Near(i, d.sx), j, k);
      assert t2[m] == t1[m] == s[m];
    } else if ey && !ex && !ez {
      var m := d.Ix(i, Near(j, d.sy), k);
      IxRange(d, i, Near(j, d.sy), k);
      Decode(d, i, Near(j, d.sy), k);
      assert t1[m] == s[m];
    }
  }

  /** set_bnd on a lattice with an interior: every cell in a solid column
      is 0, every other cell follows BoundaryRule. */
  lemma SetBndRule(b: int, s: seq<real>, d: Dims, model: Option<Model>)
    requires HasInterior(d) && IsField(s, d) && ValidModel(model)
    ensures forall n :: 0 <= n < |s| ==>
      SetBnd(b, s, d, model)[n] == if Solid(model, d, d.X(n), d.Y(n)) then 0.0 else BoundaryRule(b, s, d, n)
  {
    var t3 := XFaces(b, YFaces(b, ZFaces(b, s, d), d), d);
    CornersValue(t3, d);
    forall n | 0 <= n < |s|
      ensures Corners(t3, d)[n] == BoundaryRule(b, s, d, n)
    {
      FacesValue(b, s, d, n);
      if CornerCell(d, n) {
        CornerFromFaces(b, s, d, n);
      }
    }
  }

  /** The neighbours a corner averages are edge cells, which the face loops
      leave alone. */
  lemma CornerFromFaces(b: int, s: seq<real>, d: Dims, n: int)
    requires HasInterior(d) && IsField(s, d) && 0 <= n < |s| && CornerCell(d, n)
    ensures CornerAverage(XFaces(b, YFaces(b, ZFaces(b, s, d), d), d), d, n) == CornerAverage(s, d, n)
  {
    var t3 := XFaces(b, YFaces(b, ZFaces(b, s, d), d), d);
    Encode(d, n);
    var i, j, k := d.X(n), d.Y(n), d.Z(n);
    EdgeFromFaces(b, s, d, Near(i, d.sx), j, k);
    EdgeFromFaces(b, s, d, i, Near(j, d.sy), k);
    EdgeFromFaces(b, s, d, i, j, Near(k, d.sz));
  }

  lemma EdgeFromFaces(b: int, s: seq<real>, d: Dims, i: int, j: int, k: int)
    requires HasInterior(d) && IsField(s, d) && d.Contains(i, j, k)
    requires (OnEnd(i, d.sx) && OnEnd(j, d.sy)) || (OnEnd(i, d.sx) && OnEnd(k, d.sz)) || (OnEnd(j, d.sy) && OnEnd(k, d.sz))
    ensures At(XFaces(b, YFaces(b, ZFaces(b, s, d), d), d), d, i, j, k) == At(s, d, i, j, k)
  {
    IxRange(d, i, j, k);
    Decode(d, i, j, k);
    FacesValue(b, s, d, d.Ix(i, j, k));
  }

  // ---------------------------------------------------------------------
  // Consequences

  /** SetBndRule at one cell (i, j, k). */
  lemma SetBndAt(b: int, s: seq<real>, d: Dims, model: Option<Model>, i: int, j: int, k: int)
    requires HasInterior(d) && IsField(s, d) && ValidModel(model) && d.Contains(i, j, k)
    ensures 0 <= d.Ix(i, j, k) < |s|
    ensures At(SetBnd(b, s, d, model), d, i, j, k) == if Solid(model, d, i, j) then 0.0 else Rule(b, s, d, i, j, k)
  {
    SetBndRule(b, s, d, model);
    IxRange(d, i, j, k);
    Decode(d, i, j, k);
  }

  /** Face parity without a model: a z face (top says which) copies the
      next layer in, negated when b == 3; y faces negate only when b == 2
      and x faces only when b == 1. */
  lemma ZFaceParity(b: int, s: seq<real>, d: Dims, i: int, j: int, top: bool)
    requires HasInterior(d) && IsField(s, d) && 1 <= i < d.sx - 1 && 1 <= j < d.sy - 1
    ensures At(SetBnd(b, s, d, None), d, i, j, End(top, d.sz)) ==
      if b == 3 then -At(s, d, i, j, Inner(top, d.sz)) else At(s, d, i, j, Inner(top, d.sz))
  {
    SetBndAt(b, s, d, None, i, j, End(top, d.sz));
    RuleZFace(b, s, d, i, j, top);
  }

  lemma RuleZFace(b: int, s: seq<real>, d: Dims, i: int, j: int, top: bool)
    requires HasInterior(d) && IsField(s, d) && 1 <= i < d.sx - 1 && 1 <= j < d.sy - 1
    ensures Rule(b, s, d, i, j, End(top, d.sz)) == Mirror(b == 3, At(s, d, i, j, Inner(top, d.sz)))
  {
  }

  lemma YFaceParity(b: int, s: seq<real>, d: Dims, i: int, k: int, top: bool)
    requires HasInterior(d) && IsField(s, d) && 1 <= i < d.sx - 1 && 1 <= k < d.sz - 1
    ensures At(SetBnd(b, s, d, None), d, i, End(top, d.sy), k) ==
      if b == 2 then -At(s, d, i, Inner(top, d.sy), k) else At(s, d, i, Inner(top, d.sy), k)
  {
    SetBndAt(b, s, d, None, i, End(top, d.sy), k);
    RuleYFace(b, s, d, i, k, top);
  }

  lemma RuleYFace(b: int, s: seq<real>, d: Dims, i: int, k: int, top: bool)
    requires HasInterior(d) && IsField(s, d) && 1 <= i < d.sx - 1 && 1 <= k < d.sz - 1
    ensures Rule(b, s, d, i, End(top, d.sy), k) == Mirror(b == 2, At(s, d, i, Inner(top, d.sy), k))
  {
  }

  lemma XFaceParity(b: int, s: seq<real>, d: Dims, j: int, k: int, top: bool)
    requires HasInterior(d) && IsField(s, d) && 1 <= j < d.sy - 1 && 1 <= k < d.sz - 1
    ensures At(SetBnd(b, s, d, None), d, End(top, d.sx), j, k) ==
      if b == 1 then -At(s, d, Inner(top, d.sx), j, k) else At(s, d, Inner(top, d.sx), j, k)
  {
    SetBndAt(b, s, d, None, End(top, d.sx), j, k);
    RuleXFace(b, s, d, j, k, top);
  }

  lemma RuleXFace(b: int, s: seq<real>, d: Dims, j: int, k: int, top: bool)
    requires HasInterior(d) && IsField(s, d) && 1 <= j < d.sy - 1 && 1 <= k < d.sz - 1
    ensures Rule(b, s, d, End(top, d.sx), j, k) == Mirror(b == 1, At(s, d, Inner(top, d.sx), j, k))
  {
  }

  /** Each corner is half the sum of its three axis neighbours on entry,
      not their mean. */
  lemma CornerHalfSum(b: int, s: seq<real>, d: Dims, hx: bool, hy: bool, hz: bool)
    requires HasInterior(d) && IsField(s, d)
    ensures var i, j, k := End(hx, d.sx), End(hy, d.sy), End(hz, d.sz);
      At(SetBnd(b, s, d, None), d, i, j, k) ==
        0.5 * (At(s, d, Inner(hx, d.sx), j, k) + At(s, d, i, Inner(hy, d.sy), k) + At(s, d, i, j, Inner(hz, d.sz)))
  {
    SetBndAt(b, s, d, None, End(hx, d.sx), End(hy, d.sy), End(hz, d.sz));
    RuleCorner(b, s, d, hx, hy, hz);
  }

  lemma RuleCorner(b: int, s: seq<real>, d: Dims, hx: bool, hy: bool, hz: bool)
    requires HasInterior(d) && IsField(s, d)
    ensures var i, j, k := End(hx, d.sx), End(hy, d.sy), End(hz, d.sz);
      Rule(b, s, d, i, j, k) ==
        0.5 * (At(s, d, Inner(hx, d.sx), j, k) + At(s, d, i, Inner(hy, d.sy), k) + At(s, d, i, j, Inner(hz, d.sz)))
  {
  }

  /** Interior cells and edge cells that are not corners keep their value,
      unless they lie in a solid column, which is zeroed. Without a model no
      interior cell is written at all. */
  lemma SetBndKeeps(b: int, s: seq<real>, d: Dims, model: Option<Model>, i: int, j: int, k: int)
    requires HasInterior(d) && IsField(s, d) && ValidModel(model) && d.Contains(i, j, k)
    requires Interior3(d, i, j, k) || EdgeCell(d, i, j, k)
    ensures At(SetBnd(b, s, d, model), d, i, j, k) == if Solid(model, d, i, j) then 0.0 else At(s, d, i, j, k)
  {
    SetBndAt(b, s, d, model, i, j, k);
    RuleKeeps(b, s, d, i, j, k);
  }

  predicate Interior3(d: Dims, i: int, j: int, k: int) {
    1 <= i < d.sx - 1 && 1 <= j < d.sy - 1 && 1 <= k < d.sz - 1
  }

  /** On two ends but not on three. */
  predicate EdgeCell(d: Dims, i: int, j: int, k: int) {
    var ex, ey, ez := OnEnd(i, d.sx), OnEnd(j, d.sy), OnEnd(k, d.sz);
    !(ex && ey && ez) && ((ex && ey) || (ex && ez) || (ey && ez))
  }

  lemma RuleKeeps(b: int, s: seq<real>, d: Dims, i: int, j: int, k: int)
    requires HasInterior(d) && IsField(s, d) && d.Contains(i, j, k)
    requires Interior3(d, i, j, k) || EdgeCell(d, i, j, k)
    ensures Rule(b, s, d, i, j, k) == At(s, d, i, j, k)
  {
  }

  /** Without a model, set_bnd writes no interior cell, on any lattice. */
  lemma NoModelInterior(b: int, s: seq<real>, d: Dims, n: int)
    requires Sized(d) && IsField(s, d) && 0 <= n < |s| && d.Interior(n)
    ensures SetBnd(b, s, d, None)[n] == s[n]
  {
    Encode(d, n);
    SetBndKeeps(b, s, d, None, d.X(n), d.Y(n), d.Z(n));
  }

  /** With a model, set_bnd does what it does without one and then zeroes
      the cells inside the model, and nothing else. */
  lemma SolidOnlyZeroes(b: int, s: seq<real>, d: Dims, m: Model, n: int)
    requires Sized(d) && IsField(s, d) && m.Valid() && 0 <= n < |s|
    ensures SetBnd(b, s, d, Some(m))[n] == if Solid(Some(m), d, d.X(n), d.Y(n)) then 0.0 else SetBnd(b, s, d, None)[n]
  {
  }

  /** The field that is 0 everywhere. */
  function Zeros(d: Dims): (r: seq<real>)
    ensures IsField(r, d) && forall n :: 0 <= n < |r| ==> r[n] == 0.0
  {
    seq(d.Cells(), _ => 0.0)
  }

  /** set_bnd maps the zero field to itself, for every size. */
  lemma SetBndZeros(b: int, d: Dims, model: Option<Model>)
    requires Sized(d) && ValidModel(model)
    ensures SetBnd(b, Zeros(d), d, model) == Zeros(d)
  {
    var z := Zeros(d);
    FacesZeros(b, d);
    CornerZeros(d);
    SolidZeros(d, model);
  }

  lemma FacesZeros(b: int, d: Dims)
    requires Sized(d)
    ensures ZFaces(b, Zeros(d), d) == Zeros(d)
    ensures YFaces(b, Zeros(d), d) == Zeros(d)
    ensures XFaces(b, Zeros(d), d) == Zeros(d)
  {
    var z := Zeros(d);
    forall n | 0 <= n < |z|
      ensures ZFaces(b, z, d)[n] == 0.0 && YFaces(b, z, d)[n] == 0.0 && XFaces(b, z, d)[n] == 0.0
    {
      Encode(d, n);
      var i, j, k := d.X(n), d.Y(n), d.Z(n);
      if 1 <= j < d.sy - 1 && 1 <= k < d.sz - 1 {
        AtZeros(d, 1, j, k);
        AtZeros(d, d.sx - 2, j, k);
      }
      if 1 <= i < d.sx - 1 && 1 <= k < d.sz - 1 {
        AtZeros(d, i, 1, k);
        AtZeros(d, i, d.sy - 2, k);
      }
      if 1 <= i < d.sx - 1 && 1 <= j < d.sy - 1 {
        AtZeros(d, i, j, 1);
        AtZeros(d, i, j, d.sz - 2);
      }
    }
  }

  lemma SolidZeros(d: Dims, model: Option<Model>)
    requires Sized(d) && ValidModel(model)
    ensures ZeroSolid(Zeros(d), d, model) == Zeros(d)
  {
    var z := Zeros(d);
    assert forall n :: 0 <= n < |z| ==> ZeroSolid(z, d, model)[n] == 0.0;
  }

  lemma CornerZeros(d: Dims)
    requires Sized(d)
    ensures Corners(Zeros(d), d) == Zeros(d)
  {
    CornerZero(d, false, false, false);
    CornerZero(d, false, true, false);
    CornerZero(d, true, false, false);
    CornerZero(d, true, true, false);
    CornerZero(d, false, false, true);
    CornerZero(d, false, true, true);
    CornerZero(d, true, false, true);
    CornerZero(d, true, true, true);
  }

  lemma CornerZero(d: Dims, hx: bool, hy: bool, hz: bool)
    requires Sized(d)
    ensures SetCorner(Zeros(d), d, hx, hy, hz) == Zeros(d)
  {
    var z := Zeros(d);
    SetCornerEffect(z, d, hx, hy, hz);
    var c := CornerIx(d, hx, hy, hz);
    Encode(d, c);
    var i, j, k := d.X(c), d.Y(c), d.Z(c);
    AtZeros(d, Near(i, d.sx), j, k);
    AtZeros(d, i, Near(j, d.sy), k);
    AtZeros(d, i, j, Near(k, d.sz));
    assert z[c := 0.0] == z;
  }

  lemma AtZeros(d: Dims, i: int, j: int, k: int)
    requires d.Contains(i, j, k)
    ensures At(Zeros(d), d, i, j, k) == 0.0
  {
    IxRange(d, i, j, k);
  }
}
