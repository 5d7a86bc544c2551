/** The implicit 3D lattice shared by both solvers: a flat array of
    sx * sy * sz cells, cell (i, j, k) stored at i + j*sx + k*sx*sy
    (the IX3D macro of lib/config.h and lib/coloring.h). */
module Grid {

  /** Dimensions of one solver instance. */
  datatype Dims = Dims(sx: nat, sy: nat, sz: nat) {

    function Cells(): nat {
      sx * sy * sz
    }

    predicate Contains(i: int, j: int, k: int) {
      0 <= i < sx && 0 <= j < sy && 0 <= k < sz
    }

    /** IX3D(i, j, k, sx, sy). */
    function Ix(i: int, j: int, k: int): int {
      i + j * sx + k * sx * sy
    }

    /** Coordinates of a flat index (the inverse of Ix, see Encode/Decode). */
    function X(n: int): int requires sx > 0 { n % sx }
    function Y(n: int): int requires sx > 0 && sy > 0 { (n / sx) % sy }
    function Z(n: int): int requires sx > 0 && sy > 0 { n / sx / sy }

    /** Cell n lies strictly inside the grid (no coordinate on a face). */
    predicate Interior(n: int) requires sx > 0 && sy > 0 {
      1 <= X(n) < sx - 1 && 1 <= Y(n) < sy - 1 && 1 <= Z(n) < sz - 1
    }
  }

  /** q*m + r with 0 <= r < m has quotient q and remainder r. */
  lemma DivModUnique(n: int, m: int, q: int, r: int)
    requires m > 0 && 0 <= r < m && n == q * m + r
    ensures n / m == q && n % m == r
  {
    var q', r' := n / m, n % m;
    assert n == q' * m + r';
    assert (q - q') * m == r' - r;
    if q - q' >= 1 {
      MulMono(q - q', 1, m);
    } else if q - q' <= -1 {
      MulMono(q' - q, 1, m);
    }
  }

  lemma MulMono(a: int, b: int, m: int)
    requires m > 0 && a >= b
    ensures a * m >= b * m
  {
  }

  lemma MulAssoc(a: int, b: int, c: int)
    ensures a * b * c == a * (b * c)
  {
  }

  /** Every in-grid coordinate triple has an index in [0, Cells()). */
  lemma IxRange(d: Dims, i: int, j: int, k: int)
    requires d.Contains(i, j, k)
    ensures 0 <= d.Ix(i, j, k) < d.Cells()
  {
    var p := d.sx * d.sy;
    MulMono(d.sy - 1, j, d.sx);
    MulMono(d.sz - 1, k, p);
    MulAssoc(k, d.sx, d.sy);
    MulAssoc(d.sx, d.sy, d.sz);
    assert (d.sy - 1) * d.sx == p - d.sx;
    assert (d.sz - 1) * p == d.sz * p - p;
    assert d.Ix(i, j, k) == i + j * d.sx + k * p;
    assert j * d.sx >= 0 && k * p >= 0;
  }

  /** Ix is injective on the grid: the coordinates decode back. */
  lemma Decode(d: Dims, i: int, j: int, k: int)
    requires d.Contains(i, j, k)
    ensures d.X(d.Ix(i, j, k)) == i && d.Y(d.Ix(i, j, k)) == j && d.Z(d.Ix(i, j, k)) == k
  {
    var n := d.Ix(i, j, k);
    MulAssoc(k, d.sx, d.sy);
    assert n == (j + k * d.sy) * d.sx + i;
    DivModUnique(n, d.sx, j + k * d.sy, i);
    DivModUnique(j + k * d.sy, d.sy, k, j);
  }

  /** Every index of the flat array is the index of its decoded cell. */
  lemma Encode(d: Dims, n: int)
    requires 0 <= n < d.Cells()
    ensures d.Contains(d.X(n), d.Y(n), d.Z(n)) && d.Ix(d.X(n), d.Y(n), d.Z(n)) == n
  {
    PositiveSides(d, n);
    var q := n / d.sx;
    MulAssoc(d.sx, d.sy, d.sz);
    QuotientBound(n, d.sx, d.sy * d.sz);
    QuotientBound(q, d.sy, d.sz);
    RecomposeIndex(d, n);
  }

  /** A grid with a cell has no empty side. */
  lemma PositiveSides(d: Dims, n: int)
    requires 0 <= n < d.Cells()
    ensures d.sx > 0 && d.sy > 0 && d.sz > 0
  {
  }

  /** n < k*m gives n / m < k. */
  lemma QuotientBound(n: int, m: int, k: int)
    requires 0 <= n && m > 0 && n < m * k
    ensures n / m < k
  {
    if n / m >= k {
      MulMono(n / m, k, m);
    }
  }

  lemma RecomposeIndex(d: Dims, n: int)
    requires d.sx > 0 && d.sy > 0 && 0 <= n
    ensures d.Ix(d.X(n), d.Y(n), d.Z(n)) == n
  {
    var q := n / d.sx;
    assert n == q * d.sx + d.X(n);
    assert q == d.Z(n) * d.sy + d.Y(n);
    MulAssoc(d.Z(n), d.sx, d.sy);
    assert d.Z(n) * d.sx * d.sy == (d.Z(n) * d.sy) * d.sx;
    assert q * d.sx == d.Z(n) * d.sy * d.sx + d.Y(n) * d.sx;
  }

  lemma EncodeAll(d: Dims)
    ensures forall n :: 0 <= n < d.Cells() ==>
      d.Contains(d.X(n), d.Y(n), d.Z(n)) && d.Ix(d.X(n), d.Y(n), d.Z(n)) == n
  {
    forall n | 0 <= n < d.Cells()
      ensures d.Contains(d.X(n), d.Y(n), d.Z(n)) && d.Ix(d.X(n), d.Y(n), d.Z(n)) == n
    {
      Encode(d, n);
    }
  }

  /** Cell (i', j', k') comes before (i, j, k) when the cells are visited
      i outermost and k innermost, as every triple loop of the solvers does. */
  predicate Before(i': int, j': int, k': int, i: int, j: int, k: int) {
    i' < i || (i' == i && (j' < j || (j' == j && k' < k)))
  }

  /** The value of a field at cell (i, j, k). */
  function At(s: seq<real>, d: Dims, i: int, j: int, k: int): real
    requires |s| == d.Cells() && d.Contains(i, j, k)
  {
    IxRange(d, i, j, k);
    s[d.Ix(i, j, k)]
  }
}
