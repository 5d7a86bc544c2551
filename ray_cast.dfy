/** Point-in-mesh classification of obj-file-loader/lib/model_loader.c:
    the Moller-Trumbore ray/triangle test and the even/odd crossing count of
    isInsideCarModel. Coordinates are real numbers; the single-precision
    rounding of the C code is not modelled. */
module RayCast {
  import opened ObjModel

  // ---------------------------------------------------------------------
  // Vector arithmetic on Vertex

  function Add(a: Vertex, b: Vertex): Vertex { Vertex(a.x + b.x, a.y + b.y, a.z + b.z) }

  function Sub(a: Vertex, b: Vertex): Vertex { Vertex(a.x - b.x, a.y - b.y, a.z - b.z) }

  function Scale(c: real, a: Vertex): Vertex { Vertex(c * a.x, c * a.y, c * a.z) }

  function Dot(a: Vertex, b: Vertex): real { a.x * b.x + a.y * b.y + a.z * b.z }

  function Cross(a: Vertex, b: Vertex): Vertex {
    Vertex(a.y * b.z - a.z * b.y, a.z * b.x - a.x * b.z, a.x * b.y - a.y * b.x)
  }

  /** The tolerance 0.00001f used for both the parallel test and t. */
  const Eps: real := 0.00001

  /** The point v0 + u*e1 + v*e2 of the plane spanned at v0. */
  function Affine(v0: Vertex, e1: Vertex, e2: Vertex, u: real, v: real): Vertex {
    Add(v0, Add(Scale(u, e1), Scale(v, e2)))
  }

  /** Barycentric coordinates inside the closed triangle. */
  predicate InTriangle(u: real, v: real) {
    u >= 0.0 && v >= 0.0 && u + v <= 1.0
  }

  /** The determinant a = e1 . (d x e2) of the ray direction d and the
      edges e1 = v1 - v0, e2 = v2 - v0; |a| < Eps counts as parallel. */
  function Det(d: Vertex, e1: Vertex, e2: Vertex): real {
    Dot(e1, Cross(d, e2))
  }

  predicate Parallel(d: Vertex, v0: Vertex, v1: Vertex, v2: Vertex) {
    -Eps < Det(d, Sub(v1, v0), Sub(v2, v0)) < Eps
  }

  /** The return value and the final value of *t. */
  datatype Intersection = Intersection(hit: bool, t: real)

  /** u = f * (s . h) with f = 1/a, s = o - v0 and h = d x e2. */
  function CoordU(d: Vertex, e1: Vertex, e2: Vertex, s: Vertex): real
    requires Det(d, e1, e2) != 0.0
  {
    (1.0 / Det(d, e1, e2)) * Dot(s, Cross(d, e2))
  }

  /** v = f * (d . q) with q = s x e1. */
  function CoordV(d: Vertex, e1: Vertex, e2: Vertex, s: Vertex): real
    requires Det(d, e1, e2) != 0.0
  {
    (1.0 / Det(d, e1, e2)) * Dot(d, Cross(s, e1))
  }

  /** The value stored in *t: f * (e2 . q). */
  function CoordT(d: Vertex, e1: Vertex, e2: Vertex, s: Vertex): real
    requires Det(d, e1, e2) != 0.0
  {
    (1.0 / Det(d, e1, e2)) * Dot(e2, Cross(s, e1))
  }

  function BaryU(o: Vertex, d: Vertex, v0: Vertex, v1: Vertex, v2: Vertex): real
    requires !Parallel(d, v0, v1, v2)
  {
    CoordU(d, Sub(v1, v0), Sub(v2, v0), Sub(o, v0))
  }

  function BaryV(o: Vertex, d: Vertex, v0: Vertex, v1: Vertex, v2: Vertex): real
    requires !Parallel(d, v0, v1, v2)
  {
    CoordV(d, Sub(v1, v0), Sub(v2, v0), Sub(o, v0))
  }

  function Distance(o: Vertex, d: Vertex, v0: Vertex, v1: Vertex, v2: Vertex): real
    requires !Parallel(d, v0, v1, v2)
  {
    CoordT(d, Sub(v1, v0), Sub(v2, v0), Sub(o, v0))
  }

  /** rayTriangleIntersection (model_loader.c:160-210); t is the value *t
      holds on entry. *t is overwritten exactly when the ray is not
      parallel and both barycentric tests pass, even if the distance test
      then rejects. */
  function RayTriangle(o: Vertex, d: Vertex, v0: Vertex, v1: Vertex, v2: Vertex, t: real): (r: Intersection)
    ensures r.hit ==> !Parallel(d, v0, v1, v2) && r.t > Eps
    ensures Parallel(d, v0, v1, v2) ==> r == Intersection(false, t)
    ensures !Parallel(d, v0, v1, v2) ==>
      var u, v := BaryU(o, d, v0, v1, v2), BaryV(o, d, v0, v1, v2);
      if InTriangle(u, v) then r == Intersection(Distance(o, d, v0, v1, v2) > Eps, Distance(o, d, v0, v1, v2))
      else r == Intersection(false, t)
  {
    if Parallel(d, v0, v1, v2) then Intersection(false, t)
    else
      var u := BaryU(o, d, v0, v1, v2);
      if u < 0.0 || u > 1.0 then Intersection(false, t)
      else
        var v := BaryV(o, d, v0, v1, v2);
        if v < 0.0 || u + v > 1.0 then Intersection(false, t)
        else
          var t' := Distance(o, d, v0, v1, v2);
          Intersection(t' > Eps, t')
  }

  /** The point u*e1 + v*e2 - t*d, relative to v0, of the ray/plane
      equation o + t*d = v0 + u*e1 + v*e2. */
  function Combo(d: Vertex, e1: Vertex, e2: Vertex, u: real, v: real, t: real): Vertex {
    Sub(Add(Scale(u, e1), Scale(v, e2)), Scale(t, d))
  }

  /** The ray/plane equation, moved to one side. */
  lemma PlaneEquation(o: Vertex, d: Vertex, v0: Vertex, e1: Vertex, e2: Vertex, u: real, v: real, t: real)
    ensures Add(o, Scale(t, d)) == Affine(v0, e1, e2, u, v) <==> Sub(o, v0) == Combo(d, e1, e2, u, v, t)
  {
  }

  // Linearity of the dot and cross products, and the scalar triple
  // product (the building blocks of Cramer's rule).

  lemma DotComboLeft(a: Vertex, b: Vertex, c: Vertex, w: Vertex, u: real, v: real, t: real)
    ensures Dot(Combo(c, a, b, u, v, t), w) == u * Dot(a, w) + v * Dot(b, w) - t * Dot(c, w)
  {
  }

  lemma TripleCyclic(a: Vertex, b: Vertex, c: Vertex)
    ensures Dot(a, Cross(b, c)) == Dot(b, Cross(c, a))
  {
  }

  lemma TripleRepeated(a: Vertex, b: Vertex)
    ensures Dot(a, Cross(a, b)) == 0.0 && Dot(b, Cross(a, b)) == 0.0
  {
  }

  lemma TripleSwap(a: Vertex, b: Vertex, c: Vertex)
    ensures Dot(a, Cross(b, c)) == -Dot(a, Cross(c, b))
  {
  }

  /** With a = e1 . (d x e2), the three triple products MT computes from
      s = u*e1 + v*e2 - t*d are u*a, v*a and t*a. */
  lemma SolveU(d: Vertex, e1: Vertex, e2: Vertex, u: real, v: real, t: real)
    ensures Dot(Combo(d, e1, e2, u, v, t), Cross(d, e2)) == u * Dot(e1, Cross(d, e2))
  {
    DotComboLeft(e1, e2, d, Cross(d, e2), u, v, t);
    TripleRepeated(d, e2);
  }

  lemma SolveV(d: Vertex, e1: Vertex, e2: Vertex, u: real, v: real, t: real)
    ensures Dot(d, Cross(Combo(d, e1, e2, u, v, t), e1)) == v * Dot(e1, Cross(d, e2))
  {
    var s := Combo(d, e1, e2, u, v, t);
    TripleCyclic(d, s, e1);
    DotComboLeft(e1, e2, d, Cross(e1, d), u, v, t);
    TripleRepeated(e1, d);
    TripleCyclic(e2, e1, d);
  }

  lemma SolveT(d: Vertex, e1: Vertex, e2: Vertex, u: real, v: real, t: real)
    ensures Dot(e2, Cross(Combo(d, e1, e2, u, v, t), e1)) == t * Dot(e1, Cross(d, e2))
  {
    var s := Combo(d, e1, e2, u, v, t);
    TripleCyclic(e2, s, e1);
    DotComboLeft(e1, e2, d, Cross(e1, e2), u, v, t);
    TripleRepeated(e1, e2);
    TripleCyclic(e1, d, e2);
    TripleSwap(d, e2, e1);
  }

  /** Cramer's rule, one component at a time: with h = d x e2 and
      q = s x e1, a*s = (s.h)*e1 + (d.q)*e2 - (e2.q)*d. */
  lemma CramerX(d: Vertex, e1: Vertex, e2: Vertex, s: Vertex)
    ensures Dot(e1, Cross(d, e2)) * s.x
         == Dot(s, Cross(d, e2)) * e1.x + Dot(d, Cross(s, e1)) * e2.x - Dot(e2, Cross(s, e1)) * d.x
  {
  }

  lemma CramerY(d: Vertex, e1: Vertex, e2: Vertex, s: Vertex)
    ensures Dot(e1, Cross(d, e2)) * s.y
         == Dot(s, Cross(d, e2)) * e1.y + Dot(d, Cross(s, e1)) * e2.y - Dot(e2, Cross(s, e1)) * d.y
  {
  }

  lemma CramerZ(d: Vertex, e1: Vertex, e2: Vertex, s: Vertex)
    ensures Dot(e1, Cross(d, e2)) * s.z
         == Dot(s, Cross(d, e2)) * e1.z + Dot(d, Cross(s, e1)) * e2.z - Dot(e2, Cross(s, e1)) * d.z
  {
  }

  /** Undoing the scaling by a != 0: from a*s = p*e + m*c - n*d. */
  lemma Unscale(a: real, s: real, p: real, m: real, n: real, e: real, c: real, d: real)
    requires a != 0.0 && a * s == p * e + m * c - n * d
    ensures s == ((1.0 / a) * p) * e + ((1.0 / a) * m) * c - ((1.0 / a) * n) * d
  {
    var f := 1.0 / a;
    assert a * f == 1.0;
    assert f * (a * s) == s * (a * f);
    assert f * (p * e + m * c - n * d) == (f * p) * e + (f * m) * c - (f * n) * d;
  }

  /** The coordinates MT computes solve s = u*e1 + v*e2 - t*d, component
      by component. */
  lemma CramerSolvesX(d: Vertex, e1: Vertex, e2: Vertex, s: Vertex)
    requires Det(d, e1, e2) != 0.0
    ensures s.x == CoordU(d, e1, e2, s) * e1.x + CoordV(d, e1, e2, s) * e2.x - CoordT(d, e1, e2, s) * d.x
  {
    CramerX(d, e1, e2, s);
    Unscale(Det(d, e1, e2), s.x, Dot(s, Cross(d, e2)), Dot(d, Cross(s, e1)), Dot(e2, Cross(s, e1)), e1.x, e2.x, d.x);
  }

  lemma CramerSolvesY(d: Vertex, e1: Vertex, e2: Vertex, s: Vertex)
    requires Det(d, e1, e2) != 0.0
    ensures s.y == CoordU(d, e1, e2, s) * e1.y + CoordV(d, e1, e2, s) * e2.y - CoordT(d, e1, e2, s) * d.y
  {
    CramerY(d, e1, e2, s);
    Unscale(Det(d, e1, e2), s.y, Dot(s, Cross(d, e2)), Dot(d, Cross(s, e1)), Dot(e2, Cross(s, e1)), e1.y, e2.y, d.y);
  }

  lemma CramerSolvesZ(d: Vertex, e1: Vertex, e2: Vertex, s: Vertex)
    requires Det(d, e1, e2) != 0.0
    ensures s.z == CoordU(d, e1, e2, s) * e1.z + CoordV(d, e1, e2, s) * e2.z - CoordT(d, e1, e2, s) * d.z
  {
    CramerZ(d, e1, e2, s);
    Unscale(Det(d, e1, e2), s.z, Dot(s, Cross(d, e2)), Dot(d, Cross(s, e1)), Dot(e2, Cross(s, e1)), e1.z, e2.z, d.z);
  }

  lemma CramerSolves(d: Vertex, e1: Vertex, e2: Vertex, s: Vertex)
    requires Det(d, e1, e2) != 0.0
    ensures s == Combo(d, e1, e2, CoordU(d, e1, e2, s), CoordV(d, e1, e2, s), CoordT(d, e1, e2, s))
  {
    CramerSolvesX(d, e1, e2, s);
    CramerSolvesY(d, e1, e2, s);
    CramerSolvesZ(d, e1, e2, s);
  }

  /** p == x*a with a != 0 gives (1/a)*p == x. */
  lemma Cancel(a: real, p: real, x: real)
    requires a != 0.0 && p == x * a
    ensures (1.0 / a) * p == x
  {
    assert (1.0 / a) * (x * a) == x * ((1.0 / a) * a);
  }

  /** ... and they are the only solution, coordinate by coordinate. */
  lemma CramerUniqueU(d: Vertex, e1: Vertex, e2: Vertex, u: real, v: real, t: real)
    requires Det(d, e1, e2) != 0.0
    ensures CoordU(d, e1, e2, Combo(d, e1, e2, u, v, t)) == u
  {
    SolveU(d, e1, e2, u, v, t);
    Cancel(Det(d, e1, e2), Dot(Combo(d, e1, e2, u, v, t), Cross(d, e2)), u);
  }

  lemma CramerUniqueV(d: Vertex, e1: Vertex, e2: Vertex, u: real, v: real, t: real)
    requires Det(d, e1, e2) != 0.0
    ensures CoordV(d, e1, e2, Combo(d, e1, e2, u, v, t)) == v
  {
    SolveV(d, e1, e2, u, v, t);
    Cancel(Det(d, e1, e2), Dot(d, Cross(Combo(d, e1, e2, u, v, t), e1)), v);
  }

  lemma CramerUniqueT(d: Vertex, e1: Vertex, e2: Vertex, u: real, v: real, t: real)
    requires Det(d, e1, e2) != 0.0
    ensures CoordT(d, e1, e2, Combo(d, e1, e2, u, v, t)) == t
  {
    SolveT(d, e1, e2, u, v, t);
    Cancel(Det(d, e1, e2), Dot(e2, Cross(Combo(d, e1, e2, u, v, t), e1)), t);
  }

  /** The Cramer coordinates solve the ray/plane equation. */
  lemma CoordinatesSolve(o: Vertex, d: Vertex, v0: Vertex, v1: Vertex, v2: Vertex)
    requires !Parallel(d, v0, v1, v2)
    ensures Add(o, Scale(Distance(o, d, v0, v1, v2), d))
         == Affine(v0, Sub(v1, v0), Sub(v2, v0), BaryU(o, d, v0, v1, v2), BaryV(o, d, v0, v1, v2))
  {
    var e1, e2, s := Sub(v1, v0), Sub(v2, v0), Sub(o, v0);
    CramerSolves(d, e1, e2, s);
    PlaneEquation(o, d, v0, e1, e2, BaryU(o, d, v0, v1, v2), BaryV(o, d, v0, v1, v2), Distance(o, d, v0, v1, v2));
  }

  /** The solution is unique: any (t, u, v) meeting the plane equation are
      the Cramer coordinates. */
  lemma CoordinatesUnique(o: Vertex, d: Vertex, v0: Vertex, v1: Vertex, v2: Vertex, t: real, u: real, v: real)
    requires !Parallel(d, v0, v1, v2)
    requires Add(o, Scale(t, d)) == Affine(v0, Sub(v1, v0), Sub(v2, v0), u, v)
    ensures BaryU(o, d, v0, v1, v2) == u && BaryV(o, d, v0, v1, v2) == v && Distance(o, d, v0, v1, v2) == t
  {
    var e1, e2 := Sub(v1, v0), Sub(v2, v0);
    PlaneEquation(o, d, v0, e1, e2, u, v, t);
    CramerUniqueU(d, e1, e2, u, v, t);
    CramerUniqueV(d, e1, e2, u, v, t);
    CramerUniqueT(d, e1, e2, u, v, t);
  }

  /** A reported hit is a point of the triangle, t units along the ray. */
  lemma HitLiesOnTriangle(o: Vertex, d: Vertex, v0: Vertex, v1: Vertex, v2: Vertex, t: real)
    ensures var r := RayTriangle(o, d, v0, v1, v2, t);
      r.hit ==> r.t > Eps && exists u, v :: InTriangle(u, v) && Add(o, Scale(r.t, d)) == Affine(v0, Sub(v1, v0), Sub(v2, v0), u, v)
  {
    var r := RayTriangle(o, d, v0, v1, v2, t);
    if r.hit {
      CoordinatesSolve(o, d, v0, v1, v2);
      var u, v := BaryU(o, d, v0, v1, v2), BaryV(o, d, v0, v1, v2);
      assert InTriangle(u, v);
    }
  }

  /** Conversely, a non-parallel ray that meets the triangle beyond Eps is
      reported, with *t set to the distance of the meeting point. */
  lemma TriangleHitIsFound(o: Vertex, d: Vertex, v0: Vertex, v1: Vertex, v2: Vertex, t: real, t': real, u: real, v: real)
    requires !Parallel(d, v0, v1, v2)
    requires InTriangle(u, v) && t' > Eps
    requires Add(o, Scale(t', d)) == Affine(v0, Sub(v1, v0), Sub(v2, v0), u, v)
    ensures RayTriangle(o, d, v0, v1, v2, t) == Intersection(true, t')
  {
    CoordinatesUnique(o, d, v0, v1, v2, t', u, v);
  }

  /** The test u > 1 never rejects a ray that the later test u + v > 1
      would accept: it is implied by v >= 0 and u + v <= 1. */
  lemma UpperBoundOnURedundant(u: real, v: real)
    requires v >= 0.0 && u + v <= 1.0
    ensures u <= 1.0
  {
  }

  // ---------------------------------------------------------------------
  // isInsideCarModel

  /** Face f names three vertices among the first vc (1-based indices). */
  predicate ValidFace(f: Face, vc: int) {
    0 <= f.v1 - 1 < vc && 0 <= f.v2 - 1 < vc && 0 <= f.v3 - 1 < vc
  }

  /** Whether the ray o + t*d crosses face f of the vertex table vs. */
  predicate Crosses(vs: seq<Vertex>, vc: int, f: Face, o: Vertex, d: Vertex)
    requires vc <= |vs|
  {
    ValidFace(f, vc) && RayTriangle(o, d, vs[f.v1 - 1], vs[f.v2 - 1], vs[f.v3 - 1], 0.0).hit
  }

  /** Number of faces that the ray crosses; invalid faces are skipped. */
  function Hits(vs: seq<Vertex>, vc: int, faces: seq<Face>, o: Vertex, d: Vertex): nat
    requires vc <= |vs|
  {
    if faces == [] then 0
    else Hits(vs, vc, faces[..|faces| - 1], o, d) + (if Crosses(vs, vc, faces[|faces| - 1], o, d) then 1 else 0)
  }

  /** Grid coordinate c of an axis of n cells mapped to [-1, 1). */
  function ToUnit(c: int, n: int): real
    requires n != 0
  {
    (c as real) / (n as real) * 2.0 - 1.0
  }

  /** The vertical ray below the column of cell (x, y): from z = -2 along +z. */
  function ColumnOrigin(x: int, y: int, sx: int, sy: int): Vertex
    requires sx != 0 && sy != 0
  {
    Vertex(ToUnit(x, sx), ToUnit(y, sy), -2.0)
  }

  const Up := Vertex(0.0, 0.0, 1.0)

  /** The classification isInsideCarModel computes: an odd number of the
      model's faces cross the column ray of (x, y). */
  predicate InsideModel(m: Model, x: int, y: int, sx: int, sy: int)
    requires m.Valid() && sx != 0 && sy != 0
  {
    Hits(m.vertices, m.vertexCount, m.faces[..m.faceCount], ColumnOrigin(x, y, sx, sy), Up) % 2 == 1
  }

  /** isInsideCarModel (model_loader.c:212-245). The z argument and sizeZ
      take no part in the result. */
  method IsInsideCarModel(x: int, y: int, z: int, m: Model, sx: int, sy: int, sz: int) returns (inside: bool)
    requires m.Valid() && sx != 0 && sy != 0
    ensures inside == InsideModel(m, x, y, sx, sy)
  {
    var o := ColumnOrigin(x, y, sx, sy);
    var count := 0;
    var i := 0;
    while i < m.faceCount
      invariant 0 <= i <= m.faceCount
      invariant count == Hits(m.vertices, m.vertexCount, m.faces[..i], o, Up)
    {
      HitsStep(m.vertices, m.vertexCount, m.faces, i, o, Up);
      var f := m.faces[i];
      var idx0, idx1, idx2 := f.v1 - 1, f.v2 - 1, f.v3 - 1;
      if !(idx0 < 0 || idx0 >= m.vertexCount || idx1 < 0 || idx1 >= m.vertexCount
           || idx2 < 0 || idx2 >= m.vertexCount) {
        var r := RayTriangle(o, Up, m.vertices[idx0], m.vertices[idx1], m.vertices[idx2], 0.0);
        if r.hit {
          count := count + 1;
        }
      }
      i := i + 1;
    }
    inside := count % 2 == 1;
  }

  /** One more face adds one exactly when the ray crosses it. */
  lemma HitsStep(vs: seq<Vertex>, vc: int, faces: seq<Face>, i: nat, o: Vertex, d: Vertex)
    requires vc <= |vs| && i < |faces|
    ensures Hits(vs, vc, faces[..i + 1], o, d) == Hits(vs, vc, faces[..i], o, d) + (if Crosses(vs, vc, faces[i], o, d) then 1 else 0)
  {
    assert faces[..i + 1][..i] == faces[..i];
  }

  /** The uninitialised local t of the loop does not affect the verdict. */
  lemma HitIgnoresEntryT(o: Vertex, d: Vertex, v0: Vertex, v1: Vertex, v2: Vertex, t1: real, t2: real)
    ensures RayTriangle(o, d, v0, v1, v2, t1).hit == RayTriangle(o, d, v0, v1, v2, t2).hit
  {
  }

  /** A model without faces contains nothing. */
  lemma NoFacesOutside(m: Model, x: int, y: int, sx: int, sy: int)
    requires m.Valid() && sx != 0 && sy != 0 && m.faceCount == 0
    ensures !InsideModel(m, x, y, sx, sy)
  {
  }

  /** Faces with an out-of-range index never change the verdict. */
  lemma {:induction false} InvalidFacesIgnored(vs: seq<Vertex>, vc: int, a: seq<Face>, f: Face, b: seq<Face>, o: Vertex, d: Vertex)
    requires vc <= |vs| && !ValidFace(f, vc)
    ensures Hits(vs, vc, a + [f] + b, o, d) == Hits(vs, vc, a + b, o, d)
    decreases |b|
  {
    if b == [] {
      assert a + [f] + b == a + [f];
      assert (a + [f])[..|a|] == a;
      assert a + b == a;
    } else {
      var b' := b[..|b| - 1];
      assert (a + [f] + b)[..|a + [f] + b| - 1] == a + [f] + b';
      assert (a + b)[..|a + b| - 1] == a + b';
      InvalidFacesIgnored(vs, vc, a, f, b', o, d);
    }
  }

  /** Hits counts at most the valid faces. */
  lemma {:induction false} HitsBound(vs: seq<Vertex>, vc: int, faces: seq<Face>, o: Vertex, d: Vertex)
    requires vc <= |vs|
    ensures Hits(vs, vc, faces, o, d) <= |faces|
    ensures (forall n :: 0 <= n < |faces| ==> !ValidFace(faces[n], vc)) ==> Hits(vs, vc, faces, o, d) == 0
  {
    if faces != [] {
      var init := faces[..|faces| - 1];
      HitsBound(vs, vc, init, o, d);
      assert forall n :: 0 <= n < |init| ==> init[n] == faces[n];
    }
  }

  /** Cells of an axis of n cells map into [-1, 1). */
  lemma ToUnitRange(c: int, n: int)
    requires 0 <= c < n
    ensures -1.0 <= ToUnit(c, n) < 1.0
  {
    var q := (c as real) / (n as real);
    assert q * (n as real) == c as real;
    assert 0.0 <= q < 1.0;
  }
}
