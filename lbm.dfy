/** The host side of the lattice-Boltzmann solver (src/lbm.c): the grid
    record and the buffers it uploads, the two solid-mask builders, the
    flow initialisation, the drag conversions and the work-group counts.
    The GPU buffers are modelled as sequences that an upload replaces
    whole; the kernels that run on them are not part of this model. */
module Lbm {
  import opened Grid
  import opened D3Q19
  import opened ObjModel
  import RayCast

  // ---------------------------------------------------------------------
  // World to grid

  /** C's (int) conversion of a float: toward zero. */
  function Trunc(x: real): (n: int)
    ensures x >= 0.0 ==> n as real <= x < n as real + 1.0
    ensures x < 0.0 ==> n as real - 1.0 < x <= n as real
  {
    if x >= 0.0 then x.Floor else -((-x).Floor)
  }

  /** Cells per world unit along an axis of the given extent. */
  function Scale(size: nat, extent: real): real
    requires extent > 0.0
  {
    size as real / extent
  }

  /** An inclusive box of cells. */
  datatype CellBox = CellBox(x0: int, x1: int, y0: int, y1: int, z0: int, z1: int)

  predicate InCellBox(b: CellBox, x: int, y: int, z: int) {
    b.x0 <= x <= b.x1 && b.y0 <= y <= b.y1 && b.z0 <= z <= b.z1
  }

  /** The clamping of LBM_SetSolidAABB: lower bounds raised to 0, upper
      bounds lowered to size - 1. */
  function Clamp(d: Dims, b: CellBox): (r: CellBox)
    ensures 0 <= r.x0 && r.x1 < d.sx && 0 <= r.y0 && r.y1 < d.sy && 0 <= r.z0 && r.z1 < d.sz
  {
    CellBox(
      if b.x0 < 0 then 0 else b.x0, if b.x1 >= d.sx then d.sx - 1 else b.x1,
      if b.y0 < 0 then 0 else b.y0, if b.y1 >= d.sy then d.sy - 1 else b.y1,
      if b.z0 < 0 then 0 else b.z0, if b.z1 >= d.sz then d.sz - 1 else b.z1)
  }

  /** Clamping keeps every cell of the grid that the box holds, and only
      those. */
  lemma ClampKeepsCells(d: Dims, b: CellBox, x: int, y: int, z: int)
    requires d.Contains(x, y, z)
    ensures InCellBox(Clamp(d, b), x, y, z) <==> InCellBox(b, x, y, z)
  {
  }

  /** The cell coordinate of world coordinate w on an axis whose world
      range starts at -offset, as written: (int)((w + offset) * scale). */
  function CellOfAsWritten(w: real, offset: real, scale: real): int {
    Trunc((w + offset) * scale)
  }

  /** The same, rounding down. */
  function CellOf(w: real, offset: real, scale: real): int {
    ((w + offset) * scale).Floor
  }

  /** The world box [min, max] of LBM_SetSolidAABB: x spans [-4, 4] and y
      and z span [-2, 2] of the grid. */
  datatype WorldBox = WorldBox(minX: real, minY: real, minZ: real, maxX: real, maxY: real, maxZ: real)

  /** The clamped cell box of LBM_SetSolidAABB, converting with (int). */
  function AabbCellsAsWritten(d: Dims, w: WorldBox): CellBox {
    var sx, sy, sz := Scale(d.sx, 8.0), Scale(d.sy, 4.0), Scale(d.sz, 4.0);
    Clamp(d, CellBox(
      CellOfAsWritten(w.minX, 4.0, sx), CellOfAsWritten(w.maxX, 4.0, sx),
      CellOfAsWritten(w.minY, 2.0, sy), CellOfAsWritten(w.maxY, 2.0, sy),
      CellOfAsWritten(w.minZ, 2.0, sz), CellOfAsWritten(w.maxZ, 2.0, sz)))
  }

  /** The clamped cell box, rounding down. */
  function AabbCells(d: Dims, w: WorldBox): CellBox {
    var sx, sy, sz := Scale(d.sx, 8.0), Scale(d.sy, 4.0), Scale(d.sz, 4.0);
    Clamp(d, CellBox(
      CellOf(w.minX, 4.0, sx), CellOf(w.maxX, 4.0, sx),
      CellOf(w.minY, 2.0, sy), CellOf(w.maxY, 2.0, sy),
      CellOf(w.minZ, 2.0, sz), CellOf(w.maxZ, 2.0, sz)))
  }

  /** The extent [g, g + 1) of cell g in scaled coordinates meets the
      scaled world interval [lo, hi]. */
  predicate CellMeets(g: int, lo: real, hi: real, offset: real, scale: real) {
    (lo + offset) * scale < g as real + 1.0 && g as real <= (hi + offset) * scale
  }

  /** Rounding down, cell g of an axis is in [CellOf(lo), CellOf(hi)]
      exactly when it meets the interval. */
  lemma CellOfRange(g: int, lo: real, hi: real, offset: real, scale: real)
    ensures CellOf(lo, offset, scale) <= g <= CellOf(hi, offset, scale) <==> CellMeets(g, lo, hi, offset, scale)
  {
  }

  /** With (int), an interval that ends less than one cell before the start
      of the axis still reaches cell 0, although no cell meets it. */
  lemma CellOfAsWrittenReachesZero(lo: real, hi: real, offset: real, scale: real)
    requires -1.0 < (hi + offset) * scale < 0.0 && lo <= hi && scale > 0.0
    ensures CellOfAsWritten(hi, offset, scale) == 0 && CellOfAsWritten(lo, offset, scale) <= 0
    ensures CellOf(hi, offset, scale) == -1
  {
    assert (lo + offset) * scale <= (hi + offset) * scale by {
      assert (hi + offset) * scale - (lo + offset) * scale == (hi - lo) * scale;
    }
  }

  /** The two conversions agree on a scaled coordinate that is not negative. */
  lemma ConversionsAgree(w: real, offset: real, scale: real)
    requires (w + offset) * scale >= 0.0
    ensures CellOfAsWritten(w, offset, scale) == CellOf(w, offset, scale)
  {
  }

  /** A box lying entirely to the left of the grid marks cells of column
      0 as written; e.g. x in [-4.9, -4.1] on a grid of 8 x 4 x 4. */
  lemma AabbAsWrittenMarksBoxLeftOfGrid()
    ensures var d, w := Dims(8, 4, 4), WorldBox(-4.9, -1.0, -1.0, -4.1, 1.0, 1.0);
      w.maxX < -4.0 && InCellBox(AabbCellsAsWritten(d, w), 0, 2, 2) && !InCellBox(AabbCells(d, w), 0, 2, 2)
  {
    var d, w := Dims(8, 4, 4), WorldBox(-4.9, -1.0, -1.0, -4.1, 1.0, 1.0);
    assert Scale(8, 8.0) == 1.0 && Scale(4, 4.0) == 1.0;
    CellOfAsWrittenReachesZero(w.minX, w.maxX, 4.0, 1.0);
    assert CellOf(w.minY, 2.0, 1.0) == 1 && CellOf(w.maxY, 2.0, 1.0) == 3;
    assert CellOfAsWritten(w.minY, 2.0, 1.0) == 1 && CellOfAsWritten(w.maxY, 2.0, 1.0) == 3;
  }

  /** Rounding down, a cell is in the box exactly when its extent meets
      the scaled world box on every axis. */
  lemma AabbCellsMeetBox(d: Dims, w: WorldBox, x: int, y: int, z: int)
    requires d.Contains(x, y, z)
    ensures InCellBox(AabbCells(d, w), x, y, z) <==>
      CellMeets(x, w.minX, w.maxX, 4.0, Scale(d.sx, 8.0)) &&
      CellMeets(y, w.minY, w.maxY, 2.0, Scale(d.sy, 4.0)) &&
      CellMeets(z, w.minZ, w.maxZ, 2.0, Scale(d.sz, 4.0))
  {
    var sx, sy, sz := Scale(d.sx, 8.0), Scale(d.sy, 4.0), Scale(d.sz, 4.0);
    ClampKeepsCells(d, CellBox(
      CellOf(w.minX, 4.0, sx), CellOf(w.maxX, 4.0, sx),
      CellOf(w.minY, 2.0, sy), CellOf(w.maxY, 2.0, sy),
      CellOf(w.minZ, 2.0, sz), CellOf(w.maxZ, 2.0, sz)), x, y, z);
    CellOfRange(x, w.minX, w.maxX, 4.0, sx);
    CellOfRange(y, w.minY, w.maxY, 2.0, sy);
    CellOfRange(z, w.minZ, w.maxZ, 2.0, sz);
  }

  /** The solid mask of a cell box, one int per cell. */
  function BoxMask(d: Dims, b: CellBox): (m: seq<int>)
    ensures |m| == d.Cells()
  {
    seq(d.Cells(), n requires 0 <= n < d.Cells() => BoxCell(d, b, n))
  }

  function BoxCell(d: Dims, b: CellBox, n: int): int
    requires 0 <= n < d.Cells()
  {
    PositiveSides(d, n);
    if InCellBox(b, d.X(n), d.Y(n), d.Z(n)) then 1 else 0
  }

  /** Cell (x, y, z) of a box mask is 1 exactly in the box. */
  lemma BoxMaskAt(d: Dims, b: CellBox, x: int, y: int, z: int)
    requires d.Contains(x, y, z)
    ensures 0 <= d.Ix(x, y, z) < d.Cells()
    ensures BoxMask(d, b)[d.Ix(x, y, z)] == if InCellBox(b, x, y, z) then 1 else 0
  {
    IxRange(d, x, y, z);
    Decode(d, x, y, z);
  }

  /** An inverted box marks nothing. */
  lemma InvertedBoxIsEmpty(d: Dims, b: CellBox, n: int)
    requires b.x0 > b.x1 || b.y0 > b.y1 || b.z0 > b.z1
    requires 0 <= n < d.Cells()
    ensures BoxMask(d, b)[n] == 0
  {
  }

  // ---------------------------------------------------------------------
  // The mesh mask

  /** World coordinate of the centre of cell g on an axis of the given
      extent, whose range starts at -offset: (g + 0.5) / scale - offset. */
  function Centre(g: int, size: nat, extent: real, offset: real): real
    requires size > 0 && extent > 0.0
  {
    (g as real + 0.5) / Scale(size, extent) - offset
  }

  /** Corner c (0, 1 or 2) of triangle t: floats t*12 + 4c + {0, 1, 2}; the
      fourth float of each corner is padding. */
  function Corner(tris: seq<real>, t: nat, c: nat): Vertex
    requires c < 3 && 12 * t + 4 * c + 2 < |tris|
  {
    Vertex(tris[12 * t + 4 * c], tris[12 * t + 4 * c + 1], tris[12 * t + 4 * c + 2])
  }

  /** The buffer holds the nine coordinates of triangles 0 .. n - 1. */
  predicate HoldsTriangles(tris: seq<real>, n: int) {
    n <= 0 || 12 * n - 2 < |tris|
  }

  /** The inline Moller-Trumbore test of LBM_SetSolidMesh for the ray
      from (wx, wy, wz) along +x against triangle t. */
  function XRayHit(tris: seq<real>, t: nat, wx: real, wy: real, wz: real): bool
    requires 12 * t + 10 < |tris|
  {
    XRayTriangle(Vertex(wx, wy, wz), Corner(tris, t, 0), Corner(tris, t, 1), Corner(tris, t, 2))
  }

  /** The test itself: h = (0, -e2z, e2y) is +x cross e2, so the ray
      direction drops out of every product. */
  function XRayTriangle(o: Vertex, v0: Vertex, v1: Vertex, v2: Vertex): bool {
    var a := XDet(RayCast.Sub(v1, v0), RayCast.Sub(v2, v0));
    if a > -RayCast.Eps && a < RayCast.Eps then false
    else
      var u := XU(o, v0, v1, v2);
      if u < 0.0 || u > 1.0 then false
      else
        var v := XV(o, v0, v1, v2);
        if v < 0.0 || u + v > 1.0 then false
        else XT(o, v0, v1, v2) > RayCast.Eps
  }

  /** u = f * (s . h) with f = 1 / a and s = o - v0. */
  function XU(o: Vertex, v0: Vertex, v1: Vertex, v2: Vertex): real
    requires XDet(RayCast.Sub(v1, v0), RayCast.Sub(v2, v0)) != 0.0
  {
    var f := 1.0 / XDet(RayCast.Sub(v1, v0), RayCast.Sub(v2, v0));
    f * XDet(RayCast.Sub(o, v0), RayCast.Sub(v2, v0))
  }

  /** v = f * qx with q = s x e1. */
  function XV(o: Vertex, v0: Vertex, v1: Vertex, v2: Vertex): real
    requires XDet(RayCast.Sub(v1, v0), RayCast.Sub(v2, v0)) != 0.0
  {
    var f := 1.0 / XDet(RayCast.Sub(v1, v0), RayCast.Sub(v2, v0));
    f * RayCast.Cross(RayCast.Sub(o, v0), RayCast.Sub(v1, v0)).x
  }

  /** dist = f * (e2 . q). */
  function XT(o: Vertex, v0: Vertex, v1: Vertex, v2: Vertex): real
    requires XDet(RayCast.Sub(v1, v0), RayCast.Sub(v2, v0)) != 0.0
  {
    var f := 1.0 / XDet(RayCast.Sub(v1, v0), RayCast.Sub(v2, v0));
    var e2, q := RayCast.Sub(v2, v0), RayCast.Cross(RayCast.Sub(o, v0), RayCast.Sub(v1, v0));
    f * (e2.x * q.x + e2.y * q.y + e2.z * q.z)
  }

  /** p.x * hx + p.y * hy + p.z * hz with h = (0, -e2z, e2y). */
  function XDet(p: Vertex, e2: Vertex): real {
    p.x * 0.0 + p.y * -e2.z + p.z * e2.y
  }

  /** The ray along +x. */
  const PlusX: Vertex := Vertex(1.0, 0.0, 0.0)

  lemma XDetIsDot(p: Vertex, e2: Vertex)
    ensures XDet(p, e2) == RayCast.Dot(p, RayCast.Cross(PlusX, e2))
  {
  }

  lemma XComponentIsDot(q: Vertex)
    ensures q.x == RayCast.Dot(PlusX, q)
  {
  }

  lemma Quotient(p: real, p': real, x: real, x': real)
    requires p != 0.0 && p == p' && x == x'
    ensures (1.0 / p) * x == (1.0 / p') * x'
  {
  }

  /** The inline test is rayTriangleIntersection for the direction +x. */
  lemma XRayIsRayTriangle(o: Vertex, v0: Vertex, v1: Vertex, v2: Vertex, t0: real)
    ensures XRayTriangle(o, v0, v1, v2) == RayCast.RayTriangle(o, PlusX, v0, v1, v2, t0).hit
  {
    XDetIsDot(RayCast.Sub(v1, v0), RayCast.Sub(v2, v0));
    if !RayCast.Parallel(PlusX, v0, v1, v2) {
      XBaryU(o, v0, v1, v2);
      XBaryV(o, v0, v1, v2);
      XDistance(o, v0, v1, v2);
    }
  }

  lemma XBaryU(o: Vertex, v0: Vertex, v1: Vertex, v2: Vertex)
    requires !RayCast.Parallel(PlusX, v0, v1, v2)
    ensures XDet(RayCast.Sub(v1, v0), RayCast.Sub(v2, v0)) != 0.0
    ensures XU(o, v0, v1, v2) == RayCast.BaryU(o, PlusX, v0, v1, v2)
  {
    var e1, e2, s := RayCast.Sub(v1, v0), RayCast.Sub(v2, v0), RayCast.Sub(o, v0);
    XDetIsDot(e1, e2);
    XDetIsDot(s, e2);
    Quotient(XDet(e1, e2), RayCast.Det(PlusX, e1, e2), XDet(s, e2), RayCast.Dot(s, RayCast.Cross(PlusX, e2)));
  }

  lemma XBaryV(o: Vertex, v0: Vertex, v1: Vertex, v2: Vertex)
    requires !RayCast.Parallel(PlusX, v0, v1, v2)
    ensures XDet(RayCast.Sub(v1, v0), RayCast.Sub(v2, v0)) != 0.0
    ensures XV(o, v0, v1, v2) == RayCast.BaryV(o, PlusX, v0, v1, v2)
  {
    var e1, e2, s := RayCast.Sub(v1, v0), RayCast.Sub(v2, v0), RayCast.Sub(o, v0);
    var q := RayCast.Cross(s, e1);
    XDetIsDot(e1, e2);
    XComponentIsDot(q);
    Quotient(XDet(e1, e2), RayCast.Det(PlusX, e1, e2), q.x, RayCast.Dot(PlusX, q));
  }

  lemma XDistance(o: Vertex, v0: Vertex, v1: Vertex, v2: Vertex)
    requires !RayCast.Parallel(PlusX, v0, v1, v2)
    ensures XDet(RayCast.Sub(v1, v0), RayCast.Sub(v2, v0)) != 0.0
    ensures XT(o, v0, v1, v2) == RayCast.Distance(o, PlusX, v0, v1, v2)
  {
    var e1, e2, s := RayCast.Sub(v1, v0), RayCast.Sub(v2, v0), RayCast.Sub(o, v0);
    var q := RayCast.Cross(s, e1);
    XDetIsDot(e1, e2);
    Quotient(XDet(e1, e2), RayCast.Det(PlusX, e1, e2), e2.x * q.x + e2.y * q.y + e2.z * q.z, RayCast.Dot(e2, q));
  }

  /** The number of triangles 0 .. n - 1 that the ray from o along +x
      crosses, as the triangle loop of LBM_SetSolidMesh counts them. */
  function Crossings(tris: seq<real>, n: int, o: Vertex): nat
    requires HoldsTriangles(tris, n)
    decreases n
  {
    if n <= 0 then 0
    else Crossings(tris, n - 1, o) + if XRayHit(tris, n - 1, o.x, o.y, o.z) then 1 else 0
  }

  /** The same count taken with rayTriangleIntersection of the model loader. */
  function RayHits(tris: seq<real>, n: int, o: Vertex): nat
    requires HoldsTriangles(tris, n)
    decreases n
  {
    if n <= 0 then 0
    else
      RayHits(tris, n - 1, o) +
      if RayCast.RayTriangle(o, PlusX, Corner(tris, n - 1, 0), Corner(tris, n - 1, 1), Corner(tris, n - 1, 2), 0.0).hit
      then 1 else 0
  }

  /** The inline test counts exactly the crossings the general
      Moller-Trumbore routine reports. */
  lemma {:induction false} CrossingsAreRayHits(tris: seq<real>, n: int, o: Vertex)
    requires HoldsTriangles(tris, n)
    ensures Crossings(tris, n, o) == RayHits(tris, n, o)
    decreases n
  {
    if n > 0 {
      CrossingsAreRayHits(tris, n - 1, o);
      XRayIsRayTriangle(o, Corner(tris, n - 1, 0), Corner(tris, n - 1, 1), Corner(tris, n - 1, 2), 0.0);
    }
  }

  /** No more crossings than triangles. */
  lemma {:induction false} CrossingsBound(tris: seq<real>, n: int, o: Vertex)
    requires HoldsTriangles(tris, n)
    ensures Crossings(tris, n, o) <= if n < 0 then 0 else n
    decreases n
  {
    if n > 0 {
      CrossingsBound(tris, n - 1, o);
    }
  }

  /** Two buffers with the same corners for triangles 0 .. n - 1 (their
      padding floats may differ). */
  predicate SameCorners(tris: seq<real>, tris': seq<real>, n: int)
    requires HoldsTriangles(tris, n) && HoldsTriangles(tris', n)
  {
    forall t, c :: 0 <= t < n && 0 <= c < 3 ==> Corner(tris, t, c) == Corner(tris', t, c)
  }

  /** The padding floats never matter. */
  lemma {:induction false} CrossingsIgnorePadding(tris: seq<real>, tris': seq<real>, n: int, o: Vertex)
    requires HoldsTriangles(tris, n) && HoldsTriangles(tris', n) && SameCorners(tris, tris', n)
    ensures Crossings(tris, n, o) == Crossings(tris', n, o)
    decreases n
  {
    if n > 0 {
      assert HoldsTriangles(tris, n - 1) && HoldsTriangles(tris', n - 1);
      CrossingsIgnorePadding(tris, tris', n - 1, o);
      assert Corner(tris, n - 1, 0) == Corner(tris', n - 1, 0);
      assert Corner(tris, n - 1, 1) == Corner(tris', n - 1, 1);
      assert Corner(tris, n - 1, 2) == Corner(tris', n - 1, 2);
    }
  }

  /** The world coordinates of the centre of cell (x, y, z). */
  function CellCentre(d: Dims, x: int, y: int, z: int): Vertex
    requires d.sx > 0 && d.sy > 0 && d.sz > 0
  {
    Vertex(Centre(x, d.sx, 8.0, 4.0), Centre(y, d.sy, 4.0, 2.0), Centre(z, d.sz, 4.0, 2.0))
  }

  /** The quick bounding-box test of LBM_SetSolidMesh (bounds inclusive). */
  predicate InWorldBox(w: WorldBox, p: Vertex) {
    !(p.x < w.minX || p.x > w.maxX || p.y < w.minY || p.y > w.maxY || p.z < w.minZ || p.z > w.maxZ)
  }

  /** LBM_SetSolidMesh marks a cell when its centre lies in the bounding
      box and the +x ray from it crosses an odd number of triangles. */
  predicate MeshSolid(d: Dims, tris: seq<real>, n: int, w: WorldBox, x: int, y: int, z: int)
    requires d.Contains(x, y, z) && HoldsTriangles(tris, n)
  {
    var o := CellCentre(d, x, y, z);
    InWorldBox(w, o) && Crossings(tris, n, o) % 2 == 1
  }

  function MeshCell(d: Dims, tris: seq<real>, n: int, w: WorldBox, idx: int): int
    requires 0 <= idx < d.Cells() && HoldsTriangles(tris, n)
  {
    Encode(d, idx);
    if MeshSolid(d, tris, n, w, d.X(idx), d.Y(idx), d.Z(idx)) then 1 else 0
  }

  /** The solid mask LBM_SetSolidMesh uploads. */
  function MeshMask(d: Dims, tris: seq<real>, n: int, w: WorldBox): (m: seq<int>)
    requires HoldsTriangles(tris, n)
    ensures |m| == d.Cells()
  {
    seq(d.Cells(), idx requires 0 <= idx < d.Cells() => MeshCell(d, tris, n, w, idx))
  }

  /** Cell (x, y, z) of the mesh mask is 1 exactly when the cell is solid. */
  lemma MeshMaskAt(d: Dims, tris: seq<real>, n: int, w: WorldBox, x: int, y: int, z: int)
    requires d.Contains(x, y, z) && HoldsTriangles(tris, n)
    ensures 0 <= d.Ix(x, y, z) < d.Cells()
    ensures MeshMask(d, tris, n, w)[d.Ix(x, y, z)] == if MeshSolid(d, tris, n, w, x, y, z) then 1 else 0
  {
    IxRange(d, x, y, z);
    Decode(d, x, y, z);
  }

  /** Without triangles no cell is solid. */
  lemma NoTrianglesNoSolid(d: Dims, tris: seq<real>, n: int, w: WorldBox, idx: int)
    requires n <= 0 && 0 <= idx < d.Cells()
    ensures MeshMask(d, tris, n, w)[idx] == 0
  {
  }

  /** A cell whose centre lies outside the bounding box is never solid. */
  lemma OutsideBoxNotSolid(d: Dims, tris: seq<real>, n: int, w: WorldBox, x: int, y: int, z: int)
    requires d.Contains(x, y, z) && HoldsTriangles(tris, n) && !InWorldBox(w, CellCentre(d, x, y, z))
    ensures 0 <= d.Ix(x, y, z) < d.Cells()
    ensures MeshMask(d, tris, n, w)[d.Ix(x, y, z)] == 0
  {
    MeshMaskAt(d, tris, n, w, x, y, z);
  }

  /** The mask is a function of the triangle corners: the padding floats
      do not change it. */
  lemma MeshMaskIgnoresPadding(d: Dims, tris: seq<real>, tris': seq<real>, n: int, w: WorldBox)
    requires HoldsTriangles(tris, n) && HoldsTriangles(tris', n) && SameCorners(tris, tris', n)
    ensures MeshMask(d, tris, n, w) == MeshMask(d, tris', n, w)
  {
    forall idx | 0 <= idx < d.Cells()
      ensures MeshMask(d, tris, n, w)[idx] == MeshMask(d, tris', n, w)[idx]
    {
      Encode(d, idx);
      CrossingsIgnorePadding(tris, tris', n, CellCentre(d, d.X(idx), d.Y(idx), d.Z(idx)));
    }
  }

  /** The triangle loop of one cell. */
  method CountCrossings(tris: seq<real>, n: int, o: Vertex) returns (count: nat)
    requires HoldsTriangles(tris, n)
    ensures count == Crossings(tris, n, o)
  {
    count := 0;
    var t := 0;
    while t < n
      invariant 0 <= t && (t <= n || t == 0)
      invariant HoldsTriangles(tris, t) && count == Crossings(tris, t, o)
    {
      if XRayHit(tris, t, o.x, o.y, o.z) {
        count := count + 1;
      }
      t := t + 1;
    }
  }

  // ---------------------------------------------------------------------
  // Filling a box of cells

  /** Cell n is set once the z, y, x loops of LBM_SetSolidAABB have reached
      (z, y, x): it lies in the box and comes earlier in the loop order. */
  function Marked(d: Dims, b: CellBox, n: int, z: int, y: int, x: int): int
    requires 0 <= n < d.Cells()
  {
    PositiveSides(d, n);
    if InCellBox(b, d.X(n), d.Y(n), d.Z(n)) && Before(d.Z(n), d.Y(n), d.X(n), z, y, x) then 1 else 0
  }

  /** The loops of LBM_SetSolidAABB over a zeroed buffer. */
  method FillBox(data: array<int>, d: Dims, b: CellBox)
    requires data.Length == d.Cells() && forall n :: 0 <= n < data.Length ==> data[n] == 0
    requires 0 <= b.x0 && b.x1 < d.sx && 0 <= b.y0 && b.y1 < d.sy && 0 <= b.z0 && b.z1 < d.sz
    modifies data
    ensures data[..] == BoxMask(d, b)
  {
    var z := b.z0;
    while z <= b.z1
      invariant b.z0 <= z && (z <= b.z1 + 1 || z == b.z0)
      invariant forall n :: 0 <= n < data.Length ==> data[n] == Marked(d, b, n, z, b.y0, b.x0)
    {
      var y := b.y0;
      while y <= b.y1
        invariant b.y0 <= y && (y <= b.y1 + 1 || y == b.y0)
        invariant forall n :: 0 <= n < data.Length ==> data[n] == Marked(d, b, n, z, y, b.x0)
      {
        var x := b.x0;
        while x <= b.x1
          invariant b.x0 <= x && (x <= b.x1 + 1 || x == b.x0)
          invariant forall n :: 0 <= n < data.Length ==> data[n] == Marked(d, b, n, z, y, x)
        {
          MarkCell(data, d, b, z, y, x);
          x := x + 1;
        }
        y := y + 1;
      }
      z := z + 1;
    }
    assert forall n :: 0 <= n < data.Length ==> data[n] == BoxCell(d, b, n);
  }

  /** One write of the innermost loop: solidData[idx] = 1. */
  method MarkCell(data: array<int>, d: Dims, b: CellBox, z: int, y: int, x: int)
    requires data.Length == d.Cells() && d.Contains(x, y, z) && InCellBox(b, x, y, z)
    requires forall n :: 0 <= n < data.Length ==> data[n] == Marked(d, b, n, z, y, x)
    modifies data
    ensures forall n :: 0 <= n < data.Length ==> data[n] == Marked(d, b, n, z, y, x + 1)
  {
    IxRange(d, x, y, z);
    Decode(d, x, y, z);
    var idx := x + y * d.sx + z * d.sx * d.sy;
    data[idx] := 1;
    forall n | 0 <= n < data.Length
      ensures data[n] == Marked(d, b, n, z, y, x + 1)
    {
      Encode(d, n);
    }
  }

  // ---------------------------------------------------------------------
  // Filling the mesh mask

  /** The z, y, x loops of LBM_SetSolidMesh over a zeroed buffer; they
      visit the cells in the order of their flat index. */
  method FillMesh(data: array<int>, d: Dims, tris: seq<real>, n: int, w: WorldBox)
    requires HoldsTriangles(tris, n)
    requires data.Length == d.Cells() && forall m :: 0 <= m < data.Length ==> data[m] == 0
    modifies data
    ensures data[..] == MeshMask(d, tris, n, w)
  {
    ghost var pos := 0;
    var gz := 0;
    while gz < d.sz
      invariant 0 <= gz <= d.sz && pos == d.Ix(0, 0, gz)
      invariant forall m :: 0 <= m < data.Length ==> data[m] == if m < pos then MeshCell(d, tris, n, w, m) else 0
    {
      var gy := 0;
      while gy < d.sy
        invariant 0 <= gy <= d.sy && pos == d.Ix(0, gy, gz)
        invariant forall m :: 0 <= m < data.Length ==> data[m] == if m < pos then MeshCell(d, tris, n, w, m) else 0
      {
        var gx := 0;
        while gx < d.sx
          invariant 0 <= gx <= d.sx && pos == d.Ix(gx, gy, gz)
          invariant forall m :: 0 <= m < data.Length ==> data[m] == if m < pos then MeshCell(d, tris, n, w, m) else 0
        {
          MeshCellStep(data, d, tris, n, w, gx, gy, gz);
          pos := pos + 1;
          gx := gx + 1;
        }
        gy := gy + 1;
      }
      gz := gz + 1;
    }
    if d.Cells() > 0 {
      PositiveSides(d, 0);
      MulAssoc(d.sz, d.sx, d.sy);
      assert pos == d.Cells();
    }
  }

  /** The body of the innermost loop for cell (gx, gy, gz). */
  method MeshCellStep(data: array<int>, d: Dims, tris: seq<real>, n: int, w: WorldBox, gx: int, gy: int, gz: int)
    requires HoldsTriangles(tris, n) && d.Contains(gx, gy, gz) && data.Length == d.Cells()
    requires forall m :: 0 <= m < data.Length ==> data[m] == if m < d.Ix(gx, gy, gz) then MeshCell(d, tris, n, w, m) else 0
    modifies data
    ensures forall m :: 0 <= m < data.Length ==> data[m] == if m <= d.Ix(gx, gy, gz) then MeshCell(d, tris, n, w, m) else 0
  {
    IxRange(d, gx, gy, gz);
    Decode(d, gx, gy, gz);
    var o := CellCentre(d, gx, gy, gz);
    if InWorldBox(w, o) {
      var intersections := CountCrossings(tris, n, o);
      if intersections % 2 == 1 {
        var idx := gx + gy * d.sx + gz * d.sx * d.sy;
        data[idx] := 1;
      }
    }
  }

  // ---------------------------------------------------------------------
  // Flow initialisation

  /** The distributions LBM_InitializeFlow uploads for n cells: slot
      19c + i holds feq(i, 1, u). */
  function FlowDistributions(n: nat, ux: real, uy: real, uz: real): (f: seq<real>)
    ensures |f| == 19 * n
  {
    seq(19 * n, s requires 0 <= s < 19 * n => Feq(s % 19, 1.0, ux, uy, uz))
  }

  /** Component k of the velocity record of a cell: (ux, uy, uz, rho = 1). */
  function VelocitySlot(k: int, ux: real, uy: real, uz: real): real {
    if k == 0 then ux else if k == 1 then uy else if k == 2 then uz else 1.0
  }

  /** The velocity buffer LBM_InitializeFlow uploads for n cells. */
  function FlowVelocity(n: nat, ux: real, uy: real, uz: real): (v: seq<real>)
    ensures |v| == 4 * n
  {
    seq(4 * n, s requires 0 <= s < 4 * n => VelocitySlot(s % 4, ux, uy, uz))
  }

  /** f[19c] + ... + f[19c + k - 1]: the density of cell c over its first k
      directions. */
  function CellDensity(f: seq<real>, c: nat, k: nat): real
    requires k <= 19 && 19 * c + k <= |f|
  {
    if k == 0 then 0.0 else CellDensity(f, c, k - 1) + f[19 * c + k - 1]
  }

  /** Slot i of cell c holds the equilibrium of direction i. */
  lemma FlowSlot(n: nat, ux: real, uy: real, uz: real, c: nat, i: nat)
    requires c < n && i < 19
    ensures 19 * c + i < 19 * n
    ensures FlowDistributions(n, ux, uy, uz)[19 * c + i] == Feq(i, 1.0, ux, uy, uz)
  {
    DivModUnique(19 * c + i, 19, c, i);
  }

  lemma {:induction false} FlowCellPartialDensity(n: nat, ux: real, uy: real, uz: real, c: nat, k: nat)
    requires c < n && k <= 19
    ensures CellDensity(FlowDistributions(n, ux, uy, uz), c, k) == FeqSum(k, 1.0, ux, uy, uz)
  {
    if k > 0 {
      var f := FlowDistributions(n, ux, uy, uz);
      FlowCellPartialDensity(n, ux, uy, uz, c, k - 1);
      FlowSlot(n, ux, uy, uz, c, k - 1);
      assert CellDensity(f, c, k) == CellDensity(f, c, k - 1) + f[19 * c + k - 1];
    }
  }

  /** Every cell starts with density 1, whatever the velocity. */
  lemma FlowCellDensity(n: nat, ux: real, uy: real, uz: real, c: nat)
    requires c < n
    ensures CellDensity(FlowDistributions(n, ux, uy, uz), c, 19) == 1.0
  {
    FlowCellPartialDensity(n, ux, uy, uz, c, 19);
    FeqSumIsDensity(1.0, ux, uy, uz);
  }

  /** Every cell's velocity record is (ux, uy, uz, 1). */
  lemma FlowVelocityAt(n: nat, ux: real, uy: real, uz: real, c: nat)
    requires c < n
    ensures 4 * c + 3 < 4 * n
    ensures FlowVelocity(n, ux, uy, uz)[4 * c .. 4 * c + 4] == [ux, uy, uz, 1.0]
  {
    DivModUnique(4 * c, 4, c, 0);
    DivModUnique(4 * c + 1, 4, c, 1);
    DivModUnique(4 * c + 2, 4, c, 2);
    DivModUnique(4 * c + 3, 4, c, 3);
  }

  /** A fluid at rest starts at the lattice weights. */
  lemma FlowAtRest(n: nat, s: nat)
    requires s < 19 * n
    ensures FlowDistributions(n, 0.0, 0.0, 0.0)[s] == W[s % 19]
  {
    FeqAtRest(s % 19, 1.0);
  }

  /** The loop of LBM_InitializeFlow, filling the host copies of the
      distribution and velocity buffers. */
  method FlowBuffers(cells: nat, ux: real, uy: real, uz: real) returns (fData: array<real>, velData: array<real>)
    ensures fresh(fData) && fresh(velData)
    ensures fData[..] == FlowDistributions(cells, ux, uy, uz)
    ensures velData[..] == FlowVelocity(cells, ux, uy, uz)
  {
    fData := new real[19 * cells];
    velData := new real[4 * cells];
    var idx := 0;
    while idx < cells
      invariant 0 <= idx <= cells
      invariant forall s :: 0 <= s < 19 * idx ==> fData[s] == Feq(s % 19, 1.0, ux, uy, uz)
      invariant forall s :: 0 <= s < 4 * idx ==> velData[s] == VelocitySlot(s % 4, ux, uy, uz)
    {
      FlowCell(fData, idx, ux, uy, uz);
      VelocityCell(velData, idx, ux, uy, uz);
      idx := idx + 1;
    }
    assert forall s :: 0 <= s < fData.Length ==> fData[s] == FlowDistributions(cells, ux, uy, uz)[s];
    assert forall s :: 0 <= s < velData.Length ==> velData[s] == FlowVelocity(cells, ux, uy, uz)[s];
  }

  /** The inner loop: the 19 distributions of cell idx. */
  method FlowCell(fData: array<real>, idx: nat, ux: real, uy: real, uz: real)
    requires 19 * idx + 19 <= fData.Length
    requires forall s :: 0 <= s < 19 * idx ==> fData[s] == Feq(s % 19, 1.0, ux, uy, uz)
    modifies fData
    ensures forall s :: 0 <= s < 19 * idx + 19 ==> fData[s] == Feq(s % 19, 1.0, ux, uy, uz)
  {
    var i := 0;
    while i < 19
      invariant 0 <= i <= 19
      invariant forall s :: 0 <= s < 19 * idx + i ==> fData[s] == Feq(s % 19, 1.0, ux, uy, uz)
    {
      DivModUnique(19 * idx + i, 19, idx, i);
      fData[19 * idx + i] := Feq(i, 1.0, ux, uy, uz);
      i := i + 1;
    }
  }

  /** The velocity record (ux, uy, uz, 1) of cell idx. */
  method VelocityCell(velData: array<real>, idx: nat, ux: real, uy: real, uz: real)
    requires 4 * idx + 4 <= velData.Length
    requires forall s :: 0 <= s < 4 * idx ==> velData[s] == VelocitySlot(s % 4, ux, uy, uz)
    modifies velData
    ensures forall s :: 0 <= s < 4 * idx + 4 ==> velData[s] == VelocitySlot(s % 4, ux, uy, uz)
  {
    DivModUnique(4 * idx, 4, idx, 0);
    DivModUnique(4 * idx + 1, 4, idx, 1);
    DivModUnique(4 * idx + 2, 4, idx, 2);
    DivModUnique(4 * idx + 3, 4, idx, 3);
    velData[4 * idx] := ux;
    velData[4 * idx + 1] := uy;
    velData[4 * idx + 2] := uz;
    velData[4 * idx + 3] := 1.0;
  }

  // ---------------------------------------------------------------------
  // Drag

  /** The force LBM_ComputeDragForce reports. */
  datatype Force = Force(x: real, y: real, z: real)

  /** The force kernel accumulates each component as an int scaled by
      10000; the host divides it back. */
  function DecodeForce(results: seq<int>): (r: Force)
    requires |results| >= 3
    ensures r.x * 10000.0 == results[0] as real
    ensures r.y * 10000.0 == results[1] as real
    ensures r.z * 10000.0 == results[2] as real
  {
    Force(results[0] as real / 10000.0, results[1] as real / 10000.0, results[2] as real / 10000.0)
  }

  /** A force that is a whole number of 1/10000 units decodes from its
      scaled ints. */
  lemma DecodeForceRoundTrip(kx: int, ky: int, kz: int)
    ensures DecodeForce([kx, ky, kz, 0]) ==
      Force(kx as real / 10000.0, ky as real / 10000.0, kz as real / 10000.0)
    ensures DecodeForce([kx, ky, kz, 0]).x * 10000.0 == kx as real
  {
  }

  /** fabsf. */
  function Magnitude(x: real): real {
    if x < 0.0 then -x else x
  }

  /** The dynamic pressure 0.5 * rho * U^2 with rho = 1. */
  function DynamicPressure(u: real): real {
    0.5 * 1.0 * u * u
  }

  /** The floor below which LBM_ComputeDragCoefficient reports 0 (1e-10). */
  const DragFloor: real := 0.0000000001

  /** Cd = |fx| / (0.5 U^2 A), reported as 0 when 0.5 U^2 A < 1e-10. */
  function DragCoefficient(fx: real, u: real, area: real): (cd: real)
    ensures cd >= 0.0
    ensures DynamicPressure(u) * area < DragFloor ==> cd == 0.0
    ensures DynamicPressure(u) * area >= DragFloor ==> cd * (DynamicPressure(u) * area) == Magnitude(fx)
  {
    var q := DynamicPressure(u) * area;
    if q < DragFloor then 0.0 else Magnitude(fx) / q
  }

  /** No inlet velocity or no reference area gives Cd = 0. */
  lemma NoFlowNoDrag(fx: real, u: real, area: real)
    requires u == 0.0 || area <= 0.0
    ensures DragCoefficient(fx, u, area) == 0.0
  {
    assert DynamicPressure(u) >= 0.0;
    assert DynamicPressure(u) * area <= 0.0;
  }

  /** Cd does not depend on the sign of the force. */
  lemma DragIgnoresDirection(fx: real, u: real, area: real)
    ensures DragCoefficient(-fx, u, area) == DragCoefficient(fx, u, area)
  {
  }

  // ---------------------------------------------------------------------
  // Dispatch

  /** (size + 7) / 8: the work groups of 8 along one axis. */
  function Groups(size: nat): (g: nat)
    ensures 8 * g >= size && 8 * (g - 1) < size
  {
    (size + 7) / 8
  }

  /** The count is the least that covers the axis. */
  lemma GroupsLeast(size: nat, k: int)
    requires 8 * k >= size
    ensures k >= Groups(size)
  {
  }

  // ---------------------------------------------------------------------
  // The grid

  /** An LBMGrid: its sizes, its relaxation time, whether the force kernel
      loaded, and the contents of its GPU buffers. */
  class LbmGrid {
    const d: Dims
    const tau: real
    const hasForceShader: bool
    /** fBuffer and fNewBuffer: 19 distributions per cell. */
    var f: seq<real>
    var fNew: seq<real>
    /** velocityBuffer: (ux, uy, uz, rho) per cell. */
    var velocity: seq<real>
    /** solidBuffer: 1 for solid, 0 for fluid. */
    var solid: seq<int>
    /** forceBuffer: three scaled force components and a count. */
    var force: seq<int>

    predicate Valid()
      reads this
    {
      |f| == 19 * d.Cells() && |fNew| == 19 * d.Cells() && |velocity| == 4 * d.Cells() &&
      |solid| == d.Cells() && |force| == 4
    }

    /** The record LBM_Create builds once both required kernels have
        loaded: every cell fluid, tau from the viscosity. */
    constructor (d: Dims, viscosity: real, forceOk: bool)
      ensures Valid() && this.d == d && tau == Tau(viscosity) && hasForceShader == forceOk
      ensures solid == seq(d.Cells(), _ => 0)
    {
      this.d := d;
      tau := Tau(viscosity);
      hasForceShader := forceOk;
      f := seq(19 * d.Cells(), _ => 0.0);
      fNew := seq(19 * d.Cells(), _ => 0.0);
      velocity := seq(4 * d.Cells(), _ => 0.0);
      solid := seq(d.Cells(), _ => 0);
      force := [0, 0, 0, 0];
    }

    /** LBM_SetSolidAABB, converting world to cell coordinates by rounding
        down. */
    method SetSolidAABB(w: WorldBox)
      requires Valid()
      modifies this
      ensures Valid() && solid == BoxMask(d, AabbCells(d, w))
      ensures f == old(f) && fNew == old(fNew) && velocity == old(velocity) && force == old(force)
    {
      var data := new int[d.Cells()](_ => 0);
      FillBox(data, d, AabbCells(d, w));
      solid := data[..];
    }

    /** LBM_SetSolidAABB as written, converting with (int). */
    method SetSolidAABBAsWritten(w: WorldBox)
      requires Valid()
      modifies this
      ensures Valid() && solid == BoxMask(d, AabbCellsAsWritten(d, w))
      ensures f == old(f) && fNew == old(fNew) && velocity == old(velocity) && force == old(force)
    {
      var data := new int[d.Cells()](_ => 0);
      FillBox(data, d, AabbCellsAsWritten(d, w));
      solid := data[..];
    }

    /** LBM_SetSolidMesh over n triangles of 12 floats each. */
    method SetSolidMesh(tris: seq<real>, n: int, w: WorldBox)
      requires Valid() && HoldsTriangles(tris, n)
      modifies this
      ensures Valid() && solid == MeshMask(d, tris, n, w)
      ensures f == old(f) && fNew == old(fNew) && velocity == old(velocity) && force == old(force)
    {
      var data := new int[d.Cells()](_ => 0);
      FillMesh(data, d, tris, n, w);
      solid := data[..];
    }

    /** LBM_InitializeFlow: every cell at the equilibrium of density 1 and
        velocity u, in both distribution buffers. */
    method InitializeFlow(ux: real, uy: real, uz: real)
      requires Valid()
      modifies this
      ensures Valid()
      ensures f == FlowDistributions(d.Cells(), ux, uy, uz) && fNew == f
      ensures velocity == FlowVelocity(d.Cells(), ux, uy, uz)
      ensures solid == old(solid) && force == old(force)
    {
      var fData, velData := FlowBuffers(d.Cells(), ux, uy, uz);
      f := fData[..];
      fNew := fData[..];
      velocity := velData[..];
    }

    /** The work groups LBM_Step dispatches for each of its two kernels
        (and LBM_ComputeDragForce for its one): enough groups of 8 to
        cover every axis. */
    method StepGroups() returns (gx: int, gy: int, gz: int)
      ensures 8 * gx >= d.sx && 8 * (gx - 1) < d.sx
      ensures 8 * gy >= d.sy && 8 * (gy - 1) < d.sy
      ensures 8 * gz >= d.sz && 8 * (gz - 1) < d.sz
    {
      gx, gy, gz := (d.sx + 7) / 8, (d.sy + 7) / 8, (d.sz + 7) / 8;
    }

    /** LBM_ComputeDragForce, given the four ints the force kernel leaves
        in the cleared force buffer. */
    method ComputeDragForce(results: seq<int>) returns (r: Force)
      requires Valid() && |results| == 4
      modifies this
      ensures Valid()
      ensures !hasForceShader ==> r == Force(0.0, 0.0, 0.0) && force == old(force)
      ensures hasForceShader ==> force == results && r == DecodeForce(results)
      ensures f == old(f) && fNew == old(fNew) && velocity == old(velocity) && solid == old(solid)
    {
      r := Force(0.0, 0.0, 0.0);
      if !hasForceShader {
        return;
      }
      force := [0, 0, 0, 0];
      force := results;
      r := Force(force[0] as real / 10000.0, force[1] as real / 10000.0, force[2] as real / 10000.0);
    }

    /** LBM_ComputeDragCoefficient: Cd from the streamwise force. */
    method ComputeDragCoefficient(results: seq<int>, inletVelocity: real, refArea: real) returns (cd: real)
      requires Valid() && |results| == 4
      modifies this
      ensures Valid() && cd >= 0.0
      ensures !hasForceShader ==> cd == 0.0
      ensures hasForceShader ==> cd == DragCoefficient(DecodeForce(results).x, inletVelocity, refArea)
      ensures hasForceShader ==> force == results
      ensures !hasForceShader ==> force == old(force)
      ensures f == old(f) && fNew == old(fNew) && velocity == old(velocity) && solid == old(solid)
    {
      var r := ComputeDragForce(results);
      var dragForce := Magnitude(r.x);
      var dynamicPressure := DynamicPressure(inletVelocity);
      if dynamicPressure * refArea < DragFloor {
        return 0.0;
      }
      cd := dragForce / (dynamicPressure * refArea);
    }
  }

  /** LBM_Create: no grid when the collide or the stream kernel failed to
      load; a missing force kernel only disables drag. */
  method Create(sizeX: nat, sizeY: nat, sizeZ: nat, viscosity: real, collideOk: bool, streamOk: bool, forceOk: bool)
    returns (grid: LbmGrid?)
    ensures grid == null <==> !(collideOk && streamOk)
    ensures grid != null ==>
      (fresh(grid) && grid.Valid() && grid.d == Dims(sizeX, sizeY, sizeZ) &&
       grid.tau == Tau(viscosity) && grid.hasForceShader == forceOk &&
       grid.solid == seq(sizeX * sizeY * sizeZ, _ => 0))
  {
    if !collideOk || !streamOk {
      return null;
    }
    grid := new LbmGrid(Dims(sizeX, sizeY, sizeZ), viscosity, forceOk);
  }
}
