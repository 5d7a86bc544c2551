/** The D3Q19 lattice of the lattice-Boltzmann solver (src/lbm.c:8-27):
    19 discrete velocities, their weights, the equilibrium distribution
    the host writes when it initialises the flow, and the relaxation time
    LBM_Create derives from the viscosity. */
module D3Q19 {

  /** Number of discrete velocities. */
  const Q: nat := 19

  /** w[19]: the rest weight, six axis weights, twelve diagonal weights. */
  const W: seq<real> := [1.0 / 3.0,
    1.0 / 18.0, 1.0 / 18.0, 1.0 / 18.0, 1.0 / 18.0, 1.0 / 18.0, 1.0 / 18.0,
    1.0 / 36.0, 1.0 / 36.0, 1.0 / 36.0, 1.0 / 36.0,
    1.0 / 36.0, 1.0 / 36.0, 1.0 / 36.0, 1.0 / 36.0,
    1.0 / 36.0, 1.0 / 36.0, 1.0 / 36.0, 1.0 / 36.0]

  /** ex[19], ey[19], ez[19]: the components of the 19 velocities. */
  const Ex: seq<int> := [0, 1, -1, 0, 0, 0, 0, 1, -1, 1, -1, 1, -1, 1, -1, 0, 0, 0, 0]
  const Ey: seq<int> := [0, 0, 0, 1, -1, 0, 0, 1, 1, -1, -1, 0, 0, 0, 0, 1, -1, 1, -1]
  const Ez: seq<int> := [0, 0, 0, 0, 0, 1, -1, 0, 0, 0, 0, 1, 1, -1, -1, 1, 1, -1, -1]

  /** The squared lattice speed of sound. */
  const Cs2: real := 1.0 / 3.0

  // ---------------------------------------------------------------------
  // The tables

  function Abs(a: int): nat { if a < 0 then -a else a }

  /** The number of non-zero components of velocity i. */
  function Norm(i: int): nat
    requires 0 <= i < Q
  {
    Abs(Ex[i]) + Abs(Ey[i]) + Abs(Ez[i])
  }

  /** The weight the lattice gives a velocity with n non-zero components. */
  function ClassWeight(n: nat): real {
    if n == 0 then 1.0 / 3.0 else if n == 1 then 1.0 / 18.0 else 1.0 / 36.0
  }

  /** A vector of the lattice: components in {-1, 0, 1}, at most two of
      them non-zero. */
  predicate LatticeVector(a: int, b: int, c: int) {
    -1 <= a <= 1 && -1 <= b <= 1 && -1 <= c <= 1 && Abs(a) + Abs(b) + Abs(c) <= 2
  }

  /** The table position of a lattice vector, by its components. */
  function IndexOf(a: int, b: int, c: int): int {
    if c == 0 then
      if b == 0 then (if a == 0 then 0 else if a == 1 then 1 else 2)
      else if a == 0 then (if b == 1 then 3 else 4)
      else if b == 1 then (if a == 1 then 7 else 8)
      else (if a == 1 then 9 else 10)
    else if a == 0 && b == 0 then (if c == 1 then 5 else 6)
    else if b == 0 then
      if c == 1 then (if a == 1 then 11 else 12) else (if a == 1 then 13 else 14)
    else if c == 1 then (if b == 1 then 15 else 16) else (if b == 1 then 17 else 18)
  }

  /** Partial sums of the weights. */
  function WeightSum(n: nat): real
    requires n <= Q
  {
    if n == 0 then 0.0 else WeightSum(n - 1) + W[n - 1]
  }

  /** The 19 weights sum to one. */
  lemma WeightsSumToOne()
    ensures WeightSum(Q) == 1.0
  {
    assert WeightSum(19) == WeightSum(18) + W[18];
    assert WeightSum(18) == WeightSum(17) + W[17];
    assert WeightSum(17) == WeightSum(16) + W[16];
    assert WeightSum(16) == WeightSum(15) + W[15];
    assert WeightSum(15) == WeightSum(14) + W[14];
    assert WeightSum(14) == WeightSum(13) + W[13];
    assert WeightSum(13) == WeightSum(12) + W[12];
    assert WeightSum(12) == WeightSum(11) + W[11];
    assert WeightSum(11) == WeightSum(10) + W[10];
    assert WeightSum(10) == WeightSum(9) + W[9];
    assert WeightSum(9) == WeightSum(8) + W[8];
    assert WeightSum(8) == WeightSum(7) + W[7];
    assert WeightSum(7) == WeightSum(6) + W[6];
    assert WeightSum(6) == WeightSum(5) + W[5];
    assert WeightSum(5) == WeightSum(4) + W[4];
    assert WeightSum(4) == WeightSum(3) + W[3];
    assert WeightSum(3) == WeightSum(2) + W[2];
    assert WeightSum(2) == WeightSum(1) + W[1];
    assert WeightSum(1) == WeightSum(0) + W[0];
  }

  /** Velocity 0 is the rest velocity, 1-6 the axis velocities and 7-18 the
      two-axis diagonals, each weighted by its class. */
  lemma DirectionClasses(i: int)
    requires 0 <= i < Q
    ensures Norm(i) == (if i == 0 then 0 else if i <= 6 then 1 else 2)
    ensures W[i] == ClassWeight(Norm(i))
  {
  }

  /** Every table entry is a lattice vector, and it sits at the position
      of its components. */
  lemma TableIsLattice(i: int)
    requires 0 <= i < Q
    ensures LatticeVector(Ex[i], Ey[i], Ez[i]) && IndexOf(Ex[i], Ey[i], Ez[i]) == i
  {
  }

  /** Every lattice vector is in the table. */
  lemma LatticeIsTable(a: int, b: int, c: int)
    requires LatticeVector(a, b, c)
    ensures 0 <= IndexOf(a, b, c) < Q
    ensures Ex[IndexOf(a, b, c)] == a && Ey[IndexOf(a, b, c)] == b && Ez[IndexOf(a, b, c)] == c
  {
  }

  /** No velocity appears twice. */
  lemma DirectionsDistinct(i: int, j: int)
    requires 0 <= i < Q && 0 <= j < Q && i != j
    ensures Ex[i] != Ex[j] || Ey[i] != Ey[j] || Ez[i] != Ez[j]
  {
    TableIsLattice(i);
    TableIsLattice(j);
  }

  /** The velocity opposite to velocity i. */
  function Opposite(i: int): (r: int)
    requires 0 <= i < Q
    ensures 0 <= r < Q
    ensures Ex[r] == -Ex[i] && Ey[r] == -Ey[i] && Ez[r] == -Ez[i] && W[r] == W[i]
    ensures (r == i) == (i == 0)
  {
    TableIsLattice(i);
    LatticeIsTable(-Ex[i], -Ey[i], -Ez[i]);
    DirectionClasses(i);
    DirectionClasses(IndexOf(-Ex[i], -Ey[i], -Ez[i]));
    IndexOf(-Ex[i], -Ey[i], -Ez[i])
  }

  /** Reversing twice gives the velocity back. */
  lemma OppositeInvolution(i: int)
    requires 0 <= i < Q
    ensures Opposite(Opposite(i)) == i
  {
    var r := Opposite(i);
    TableIsLattice(i);
    assert Ex[Opposite(r)] == Ex[i] && Ey[Opposite(r)] == Ey[i] && Ez[Opposite(r)] == Ez[i];
    TableIsLattice(Opposite(r));
  }

  // ---------------------------------------------------------------------
  // The equilibrium distribution

  function Dot3(a: real, b: real, c: real, x: real, y: real, z: real): real {
    a * x + b * y + c * z
  }

  /** 1 + e.u/cs2 + (e.u)^2/(2 cs2^2) - u.u/(2 cs2). */
  function Factor(eu: real, u2: real): real {
    1.0 + eu / Cs2 + (eu * eu) / (2.0 * Cs2 * Cs2) - u2 / (2.0 * Cs2)
  }

  /** feq for a velocity (a, b, c) of weight w. */
  function Equilibrium(w: real, a: int, b: int, c: int, rho: real, ux: real, uy: real, uz: real): real {
    w * rho * Factor(Dot3(a as real, b as real, c as real, ux, uy, uz), Dot3(ux, uy, uz, ux, uy, uz))
  }

  /** feq(i, rho, ux, uy, uz). */
  function Feq(i: int, rho: real, ux: real, uy: real, uz: real): real
    requires 0 <= i < Q
  {
    Equilibrium(W[i], Ex[i], Ey[i], Ez[i], rho, ux, uy, uz)
  }

  /** feq(0) + ... + feq(n - 1). */
  function FeqSum(n: nat, rho: real, ux: real, uy: real, uz: real): real
    requires n <= Q
  {
    if n == 0 then 0.0 else FeqSum(n - 1, rho, ux, uy, uz) + Feq(n - 1, rho, ux, uy, uz)
  }

  /** At zero velocity the equilibrium is the weighted density. */
  lemma FeqAtRest(i: int, rho: real)
    requires 0 <= i < Q
    ensures Feq(i, rho, 0.0, 0.0, 0.0) == W[i] * rho
  {
  }

  /** The equilibrium distributions of a cell add up to its density, for
      every velocity. */
  lemma FeqSumIsDensity(rho: real, ux: real, uy: real, uz: real)
    ensures FeqSum(Q, rho, ux, uy, uz) == rho
  {
    FeqSumTables(Q, rho, ux, uy, uz);
    EqSumIsTSum(W, Ex, Ey, Ez, Q, rho, ux, uy, uz);
    TSumIsOne(ux, uy, uz, ux * ux, uy * uy, uz * uz, ux * uy, ux * uz, uy * uz);
  }

  // The proof of FeqSumIsDensity: feq is rho times a polynomial that is
  // linear in the monomials of u; the sum runs over tables given as
  // arguments, so that no step has to evaluate W[n - 1] symbolically.

  /** Factor with the powers of 1/cs2 worked out. */
  function Shape(eu: real, u2: real): real {
    1.0 + 3.0 * eu + 4.5 * (eu * eu) - 1.5 * u2
  }

  /** Shape with (e.u)^2 expanded; the monomials of u are arguments. */
  function Expanded(a: real, b: real, c: real, ux: real, uy: real, uz: real, xx: real, yy: real, zz: real, xy: real, xz: real, yz: real): real {
    1.0 + 3.0 * (a * ux + b * uy + c * uz) +
      4.5 * ((a * a) * xx + (b * b) * yy + (c * c) * zz + 2.0 * (a * b) * xy + 2.0 * (a * c) * xz + 2.0 * (b * c) * yz) -
      1.5 * (xx + yy + zz)
  }

  function Term(w: real, a: int, b: int, c: int, ux: real, uy: real, uz: real, xx: real, yy: real, zz: real, xy: real, xz: real, yz: real): real {
    w * Expanded(a as real, b as real, c as real, ux, uy, uz, xx, yy, zz, xy, xz, yz)
  }

  predicate Tables(ws: seq<real>, xs: seq<int>, ys: seq<int>, zs: seq<int>, n: nat) {
    n <= |ws| && n <= |xs| && n <= |ys| && n <= |zs|
  }

  function EqSum(ws: seq<real>, xs: seq<int>, ys: seq<int>, zs: seq<int>, n: nat, rho: real, ux: real, uy: real, uz: real): real
    requires Tables(ws, xs, ys, zs, n)
  {
    if n == 0 then 0.0
    else EqSum(ws, xs, ys, zs, n - 1, rho, ux, uy, uz) + Equilibrium(ws[n - 1], xs[n - 1], ys[n - 1], zs[n - 1], rho, ux, uy, uz)
  }

  function TSum(ws: seq<real>, xs: seq<int>, ys: seq<int>, zs: seq<int>, n: nat, ux: real, uy: real, uz: real, xx: real, yy: real, zz: real, xy: real, xz: real, yz: real): real
    requires Tables(ws, xs, ys, zs, n)
  {
    if n == 0 then 0.0
    else TSum(ws, xs, ys, zs, n - 1, ux, uy, uz, xx, yy, zz, xy, xz, yz) + Term(ws[n - 1], xs[n - 1], ys[n - 1], zs[n - 1], ux, uy, uz, xx, yy, zz, xy, xz, yz)
  }

  lemma FactorIsShape(eu: real, u2: real)
    ensures Factor(eu, u2) == Shape(eu, u2)
  {
  }

  lemma SquareOfSum(a: real, b: real, c: real, x: real, y: real, z: real)
    ensures Dot3(a, b, c, x, y, z) * Dot3(a, b, c, x, y, z) ==
      (a * a) * (x * x) + (b * b) * (y * y) + (c * c) * (z * z) + 2.0 * (a * b) * (x * y) + 2.0 * (a * c) * (x * z) + 2.0 * (b * c) * (y * z)
  {
  }

  lemma ShapeExpanded(a: real, b: real, c: real, ux: real, uy: real, uz: real)
    ensures Shape(Dot3(a, b, c, ux, uy, uz), Dot3(ux, uy, uz, ux, uy, uz)) == Expanded(a, b, c, ux, uy, uz, ux * ux, uy * uy, uz * uz, ux * uy, ux * uz, uy * uz)
  {
    SquareOfSum(a, b, c, ux, uy, uz);
  }

  /** rho * x, kept as a term of its own so that sums of such products
      are matched by congruence rather than by nonlinear arithmetic. */
  function Scaled(rho: real, x: real): real {
    rho * x
  }

  lemma EquilibriumIsTerm(w: real, a: int, b: int, c: int, rho: real, ux: real, uy: real, uz: real)
    ensures Equilibrium(w, a, b, c, rho, ux, uy, uz) == Scaled(rho, Term(w, a, b, c, ux, uy, uz, ux * ux, uy * uy, uz * uz, ux * uy, ux * uz, uy * uz))
  {
    FactorIsShape(Dot3(a as real, b as real, c as real, ux, uy, uz), Dot3(ux, uy, uz, ux, uy, uz));
    ShapeExpanded(a as real, b as real, c as real, ux, uy, uz);
  }

  lemma Distribute(rho: real, e: real, f: real, a: real, b: real)
    requires e == Scaled(rho, a) && f == Scaled(rho, b)
    ensures e + f == Scaled(rho, a + b)
  {
  }

  lemma {:induction false} FeqSumTables(n: nat, rho: real, ux: real, uy: real, uz: real)
    requires n <= Q
    ensures FeqSum(n, rho, ux, uy, uz) == EqSum(W, Ex, Ey, Ez, n, rho, ux, uy, uz)
  {
    if n > 0 {
      FeqSumTables(n - 1, rho, ux, uy, uz);
    }
  }

  lemma {:induction false} EqSumIsTSum(ws: seq<real>, xs: seq<int>, ys: seq<int>, zs: seq<int>, n: nat, rho: real, ux: real, uy: real, uz: real)
    requires Tables(ws, xs, ys, zs, n)
    ensures EqSum(ws, xs, ys, zs, n, rho, ux, uy, uz) == Scaled(rho, TSum(ws, xs, ys, zs, n, ux, uy, uz, ux * ux, uy * uy, uz * uz, ux * uy, ux * uz, uy * uz))
  {
    if n > 0 {
      EqSumIsTSum(ws, xs, ys, zs, n - 1, rho, ux, uy, uz);
      EquilibriumIsTerm(ws[n - 1], xs[n - 1], ys[n - 1], zs[n - 1], rho, ux, uy, uz);
      var prefix := TSum(ws, xs, ys, zs, n - 1, ux, uy, uz, ux * ux, uy * uy, uz * uz, ux * uy, ux * uz, uy * uz);
      var last := Term(ws[n - 1], xs[n - 1], ys[n - 1], zs[n - 1], ux, uy, uz, ux * ux, uy * uy, uz * uz, ux * uy, ux * uz, uy * uz);
      var before := EqSum(ws, xs, ys, zs, n - 1, rho, ux, uy, uz);
      var added := Equilibrium(ws[n - 1], xs[n - 1], ys[n - 1], zs[n - 1], rho, ux, uy, uz);
      assert TSum(ws, xs, ys, zs, n, ux, uy, uz, ux * ux, uy * uy, uz * uz, ux * uy, ux * uz, uy * uz) == prefix + last;
      assert EqSum(ws, xs, ys, zs, n, rho, ux, uy, uz) == before + added;
      Distribute(rho, before, added, prefix, last);
    }
  }

  /** The weighted moments of the lattice: sum w = 1, sum w e = 0 and
      sum w e e = cs2 I make the polynomial sum to one. */
  lemma TSumIsOne(ux: real, uy: real, uz: real, xx: real, yy: real, zz: real, xy: real, xz: real, yz: real)
    ensures TSum(W, Ex, Ey, Ez, Q, ux, uy, uz, xx, yy, zz, xy, xz, yz) == 1.0
  {
    assert TSum(W, Ex, Ey, Ez, 19, ux, uy, uz, xx, yy, zz, xy, xz, yz) == TSum(W, Ex, Ey, Ez, 18, ux, uy, uz, xx, yy, zz, xy, xz, yz) + Term(W[18], Ex[18], Ey[18], Ez[18], ux, uy, uz, xx, yy, zz, xy, xz, yz);
    assert TSum(W, Ex, Ey, Ez, 18, ux, uy, uz, xx, yy, zz, xy, xz, yz) == TSum(W, Ex, Ey, Ez, 17, ux, uy, uz, xx, yy, zz, xy, xz, yz) + Term(W[17], Ex[17], Ey[17], Ez[17], ux, uy, uz, xx, yy, zz, xy, xz, yz);
    assert TSum(W, Ex, Ey, Ez, 17, ux, uy, uz, xx, yy, zz, xy, xz, yz) == TSum(W, Ex, Ey, Ez, 16, ux, uy, uz, xx, yy, zz, xy, xz, yz) + Term(W[16], Ex[16], Ey[16], Ez[16], ux, uy, uz, xx, yy, zz, xy, xz, yz);
    assert TSum(W, Ex, Ey, Ez, 16, ux, uy, uz, xx, yy, zz, xy, xz, yz) == TSum(W, Ex, Ey, Ez, 15, ux, uy, uz, xx, yy, zz, xy, xz, yz) + Term(W[15], Ex[15], Ey[15], Ez[15], ux, uy, uz, xx, yy, zz, xy, xz, yz);
    assert TSum(W, Ex, Ey, Ez, 15, ux, uy, uz, xx, yy, zz, xy, xz, yz) == TSum(W, Ex, Ey, Ez, 14, ux, uy, uz, xx, yy, zz, xy, xz, yz) + Term(W[14], Ex[14], Ey[14], Ez[14], ux, uy, uz, xx, yy, zz, xy, xz, yz);
    assert TSum(W, Ex, Ey, Ez, 14, ux, uy, uz, xx, yy, zz, xy, xz, yz) == TSum(W, Ex, Ey, Ez, 13, ux, uy, uz, xx, yy, zz, xy, xz, yz) + Term(W[13], Ex[13], Ey[13], Ez[13], ux, uy, uz, xx, yy, zz, xy, xz, yz);
    assert TSum(W, Ex, Ey, Ez, 13, ux, uy, uz, xx, yy, zz, xy, xz, yz) == TSum(W, Ex, Ey, Ez, 12, ux, uy, uz, xx, yy, zz, xy, xz, yz) + Term(W[12], Ex[12], Ey[12], Ez[12], ux, uy, uz, xx, yy, zz, xy, xz, yz);
    assert TSum(W, Ex, Ey, Ez, 12, ux, uy, uz, xx, yy, zz, xy, xz, yz) == TSum(W, Ex, Ey, Ez, 11, ux, uy, uz, xx, yy, zz, xy, xz, yz) + Term(W[11], Ex[11], Ey[11], Ez[11], ux, uy, uz, xx, yy, zz, xy, xz, yz);
    assert TSum(W, Ex, Ey, Ez, 11, ux, uy, uz, xx, yy, zz, xy, xz, yz) == TSum(W, Ex, Ey, Ez, 10, ux, uy, uz, xx, yy, zz, xy, xz, yz) + Term(W[10], Ex[10], Ey[10], Ez[10], ux, uy, uz, xx, yy, zz, xy, xz, yz);
    assert TSum(W, Ex, Ey, Ez, 10, ux, uy, uz, xx, yy, zz, xy, xz, yz) == TSum(W, Ex, Ey, Ez, 9, ux, uy, uz, xx, yy, zz, xy, xz, yz) + Term(W[9], Ex[9], Ey[9], Ez[9], ux, uy, uz, xx, yy, zz, xy, xz, yz);
    assert TSum(W, Ex, Ey, Ez, 9, ux, uy, uz, xx, yy, zz, xy, xz, yz) == TSum(W, Ex, Ey, Ez, 8, ux, uy, uz, xx, yy, zz, xy, xz, yz) + Term(W[8], Ex[8], Ey[8], Ez[8], ux, uy, uz, xx, yy, zz, xy, xz, yz);
    assert TSum(W, Ex, Ey, Ez, 8, ux, uy, uz, xx, yy, zz, xy, xz, yz) == TSum(W, Ex, Ey, Ez, 7, ux, uy, uz, xx, yy, zz, xy, xz, yz) + Term(W[7], Ex[7], Ey[7], Ez[7], ux, uy, uz, xx, yy, zz, xy, xz, yz);
    assert TSum(W, Ex, Ey, Ez, 7, ux, uy, uz, xx, yy, zz, xy, xz, yz) == TSum(W, Ex, Ey, Ez, 6, ux, uy, uz, xx, yy, zz, xy, xz, yz) + Term(W[6], Ex[6], Ey[6], Ez[6], ux, uy, uz, xx, yy, zz, xy, xz, yz);
    assert TSum(W, Ex, Ey, Ez, 6, ux, uy, uz, xx, yy, zz, xy, xz, yz) == TSum(W, Ex, Ey, Ez, 5, ux, uy, uz, xx, yy, zz, xy, xz, yz) + Term(W[5], Ex[5], Ey[5], Ez[5], ux, uy, uz, xx, yy, zz, xy, xz, yz);
    assert TSum(W, Ex, Ey, Ez, 5, ux, uy, uz, xx, yy, zz, xy, xz, yz) == TSum(W, Ex, Ey, Ez, 4, ux, uy, uz, xx, yy, zz, xy, xz, yz) + Term(W[4], Ex[4], Ey[4], Ez[4], ux, uy, uz, xx, yy, zz, xy, xz, yz);
    assert TSum(W, Ex, Ey, Ez, 4, ux, uy, uz, xx, yy, zz, xy, xz, yz) == TSum(W, Ex, Ey, Ez, 3, ux, uy, uz, xx, yy, zz, xy, xz, yz) + Term(W[3], Ex[3], Ey[3], Ez[3], ux, uy, uz, xx, yy, zz, xy, xz, yz);
    assert TSum(W, Ex, Ey, Ez, 3, ux, uy, uz, xx, yy, zz, xy, xz, yz) == TSum(W, Ex, Ey, Ez, 2, ux, uy, uz, xx, yy, zz, xy, xz, yz) + Term(W[2], Ex[2], Ey[2], Ez[2], ux, uy, uz, xx, yy, zz, xy, xz, yz);
    assert TSum(W, Ex, Ey, Ez, 2, ux, uy, uz, xx, yy, zz, xy, xz, yz) == TSum(W, Ex, Ey, Ez, 1, ux, uy, uz, xx, yy, zz, xy, xz, yz) + Term(W[1], Ex[1], Ey[1], Ez[1], ux, uy, uz, xx, yy, zz, xy, xz, yz);
    assert TSum(W, Ex, Ey, Ez, 1, ux, uy, uz, xx, yy, zz, xy, xz, yz) == TSum(W, Ex, Ey, Ez, 0, ux, uy, uz, xx, yy, zz, xy, xz, yz) + Term(W[0], Ex[0], Ey[0], Ez[0], ux, uy, uz, xx, yy, zz, xy, xz, yz);
  }

  // ---------------------------------------------------------------------
  // The relaxation time

  const TauMin: real := 0.51
  const TauMax: real := 2.0

  /** tau = 0.5 + 3 viscosity, raised to 0.51 and then lowered to 2.0
      (LBM_Create). */
  function Tau(viscosity: real): (t: real)
    ensures TauMin <= t <= TauMax
    ensures TauMin <= 0.5 + 3.0 * viscosity <= TauMax ==> t == 0.5 + 3.0 * viscosity
    ensures 0.5 + 3.0 * viscosity < TauMin ==> t == TauMin
    ensures 0.5 + 3.0 * viscosity > TauMax ==> t == TauMax
  {
    var tau := 0.5 + 3.0 * viscosity;
    var tau := if tau < TauMin then TauMin else tau;
    if tau > TauMax then TauMax else tau
  }

  /** A larger viscosity never gives a smaller relaxation time. */
  lemma TauMonotone(v: real, v': real)
    requires v <= v'
    ensures Tau(v) <= Tau(v')
  {
  }
}
