/** The shape shared by the solver's loops that visit the interior cells
    i outermost, k innermost, and write each visited cell from values the
    loop does not write: after visiting every cell before (i, j, k) the
    array holds the target on those cells and its old value elsewhere. */
module InteriorLoop {
  import opened Grid

  /** Cell n is an interior cell visited before position (i, j, k). */
  predicate Visited(d: Dims, n: int, i: int, j: int, k: int)
    requires d.sx > 0 && d.sy > 0
  {
    d.Interior(n) && Before(d.X(n), d.Y(n), d.Z(n), i, j, k)
  }

  /** a is orig with the target written on the cells visited so far. */
  ghost predicate Partial(a: seq<real>, target: seq<real>, orig: seq<real>, d: Dims, i: int, j: int, k: int)
    requires d.sx > 0 && d.sy > 0
  {
    |a| == |target| == |orig| &&
    forall n :: 0 <= n < |a| ==> a[n] == if Visited(d, n, i, j, k) then target[n] else orig[n]
  }

  /** target differs from orig only on the interior. */
  ghost predicate InteriorUpdate(target: seq<real>, orig: seq<real>, d: Dims)
    requires d.sx > 0 && d.sy > 0
  {
    |target| == |orig| && forall n :: 0 <= n < |orig| && !d.Interior(n) ==> target[n] == orig[n]
  }

  /** Nothing has been written before the first interior cell. */
  lemma PartialStart(a: seq<real>, target: seq<real>, d: Dims)
    requires d.sx > 0 && d.sy > 0 && |a| == |target|
    ensures Partial(a, target, a, d, 1, 1, 1)
  {
  }

  /** Writing the target at interior cell (i, j, k) moves the position on. */
  lemma PartialStep(a: seq<real>, target: seq<real>, orig: seq<real>, d: Dims, i: int, j: int, k: int)
    requires d.Contains(i, j, k) && 1 <= i < d.sx - 1 && 1 <= j < d.sy - 1 && 1 <= k < d.sz - 1
    requires |a| == d.Cells() && Partial(a, target, orig, d, i, j, k)
    ensures 0 <= d.Ix(i, j, k) < |a|
    ensures Partial(a[d.Ix(i, j, k) := target[d.Ix(i, j, k)]], target, orig, d, i, j, k + 1)
  {
    IxRange(d, i, j, k);
    Decode(d, i, j, k);
    var c := d.Ix(i, j, k);
    forall n | 0 <= n < |a|
      ensures a[c := target[c]][n] == if Visited(d, n, i, j, k + 1) then target[n] else orig[n]
    {
      Encode(d, n);
    }
  }

  /** The end of a row of k is the start of the next row. */
  lemma PartialRow(a: seq<real>, target: seq<real>, orig: seq<real>, d: Dims, i: int, j: int)
    requires d.sx > 0 && d.sy > 0 && Partial(a, target, orig, d, i, j, d.sz - 1)
    ensures Partial(a, target, orig, d, i, j + 1, 1)
  {
  }

  /** The end of a plane of j is the start of the next plane. */
  lemma PartialPlane(a: seq<real>, target: seq<real>, orig: seq<real>, d: Dims, i: int)
    requires d.sx > 0 && d.sy > 0 && Partial(a, target, orig, d, i, d.sy - 1, 1)
    ensures Partial(a, target, orig, d, i + 1, 1, 1)
  {
  }

  /** After the last plane the whole target has been written. */
  lemma PartialDone(a: seq<real>, target: seq<real>, orig: seq<real>, d: Dims)
    requires d.sx > 0 && d.sy > 0 && Partial(a, target, orig, d, d.sx - 1, 1, 1)
    requires InteriorUpdate(target, orig, d)
    ensures a == target
  {
  }
}
