/** The CPU particle table (src/particle_system.c): a fixed buffer of
    particles with a count, a GRID_CELL_SIZE x GRID_CELL_SIZE table of
    buckets of bounded capacity, the box collision test and push-out, and
    the update loop. A bucket is modelled by the particles it holds, its
    count being their number. Values of rand() / RAND_MAX are inputs. */
module Particles {
  import Lbm
  import ObjModel

  /** MAX_PARTICLES (lib/config.h). */
  const MaxParticles: nat := 10000

  /** One particle: position, the padding float, velocity and life. */
  datatype Particle = Particle(x: real, y: real, z: real, padding: real, vx: real, vy: real, vz: real, life: real)

  /** The collision box of the car: its extent and its centre. */
  datatype Bounds = Bounds(
    minX: real, minY: real, minZ: real,
    maxX: real, maxY: real, maxZ: real,
    centerX: real, centerY: real, centerZ: real)

  // ---------------------------------------------------------------------
  // Collision

  /** ParticleSystem_CheckCollision: the point lies in the box, bounds
      included. */
  function CheckCollision(x: real, y: real, z: real, b: Bounds): (r: bool)
    ensures r <==> b.minX <= x <= b.maxX && b.minY <= y <= b.maxY && b.minZ <= z <= b.maxZ
  {
    x >= b.minX && x <= b.maxX && y >= b.minY && y <= b.maxY && z >= b.minZ && z <= b.maxZ
  }

  datatype Axis = AxisX | AxisY | AxisZ

  /** The collision normal: the axis of least penetration, x only when it
      is strictly smaller than both others, otherwise y when strictly
      smaller than z, otherwise z. */
  function NormalAxis(penX: real, penY: real, penZ: real): (a: Axis)
    ensures a == AxisX <==> penX < penY && penX < penZ
    ensures a == AxisY ==> penY < penZ
    ensures a == AxisX ==> penX <= penY && penX <= penZ
    ensures a == AxisY ==> penY <= penX && penY <= penZ
    ensures a == AxisZ ==> penZ <= penX && penZ <= penY
  {
    if penX < penY && penX < penZ then AxisX
    else if penY < penZ then AxisY
    else AxisZ
  }

  /** (t > 0) ? 1 : -1. */
  function Side(t: real): real {
    if t > 0.0 then 1.0 else -1.0
  }

  /** Half the extent of a box side. */
  function Half(lo: real, hi: real): real {
    (hi - lo) * 0.5
  }

  /** The depth of a coordinate inside a box side. */
  function Penetration(lo: real, hi: real, toParticle: real): real {
    Half(lo, hi) - Lbm.Magnitude(toParticle)
  }

  /** The axis ResolveCollision pushes the particle out along. */
  function PushAxis(p: Particle, b: Bounds): Axis {
    NormalAxis(
      Penetration(b.minX, b.maxX, p.x - b.centerX),
      Penetration(b.minY, b.maxY, p.y - b.centerY),
      Penetration(b.minZ, b.maxZ, p.z - b.centerZ))
  }

  /** The outward normal: the sign of the offset from the centre on the
      push axis. */
  function Normal(p: Particle, b: Bounds): (real, real, real) {
    match PushAxis(p, b)
    case AxisX => (Side(p.x - b.centerX), 0.0, 0.0)
    case AxisY => (0.0, Side(p.y - b.centerY), 0.0)
    case AxisZ => (0.0, 0.0, Side(p.z - b.centerZ))
  }

  /** The restitution of a bounce. */
  const Restitution: real := 0.3

  /** The gap left between a pushed particle and the box. */
  const Skin: real := 0.01

  /** The position part of ParticleSystem_ResolveCollision: the push axis
      coordinate is set to the centre plus or minus half the side and the
      skin. */
  function PushOut(p: Particle, b: Bounds): Particle {
    var n := Normal(p, b);
    match PushAxis(p, b)
    case AxisX => p.(x := b.centerX + n.0 * (Half(b.minX, b.maxX) + Skin))
    case AxisY => p.(y := b.centerY + n.1 * (Half(b.minY, b.maxY) + Skin))
    case AxisZ => p.(z := b.centerZ + n.2 * (Half(b.minZ, b.maxZ) + Skin))
  }

  /** The turbulence kick ((r - 0.5) * 0.1) of a value r of rand() / RAND_MAX. */
  function Kick(r: real): real {
    (r - 0.5) * 0.1
  }

  /** ParticleSystem_ResolveCollision. The velocity is reflected with loss,
      and kicked in y and z, only when it points into the box; ry and rz
      stand for the two rand() / RAND_MAX values. */
  function Resolve(p: Particle, b: Bounds, ry: real, rz: real): Particle {
    var n := Normal(p, b);
    var q := PushOut(p, b);
    var vn := q.vx * n.0 + q.vy * n.1 + q.vz * n.2;
    if vn < 0.0 then
      q.(vx := q.vx - (1.0 + Restitution) * vn * n.0,
         vy := q.vy - (1.0 + Restitution) * vn * n.1 + Kick(ry),
         vz := q.vz - (1.0 + Restitution) * vn * n.2 + Kick(rz))
    else q
  }

  /** The particle moves along the axis of least penetration only, to the
      skin outside the box face on its side of the centre. */
  lemma ResolveMovesOneAxis(p: Particle, b: Bounds, ry: real, rz: real)
    ensures var r := Resolve(p, b, ry, rz);
      match PushAxis(p, b)
      case AxisX =>
        r.y == p.y && r.z == p.z &&
        r.x == b.centerX + Side(p.x - b.centerX) * (Half(b.minX, b.maxX) + Skin)
      case AxisY =>
        r.x == p.x && r.z == p.z &&
        r.y == b.centerY + Side(p.y - b.centerY) * (Half(b.minY, b.maxY) + Skin)
      case AxisZ =>
        r.x == p.x && r.y == p.y &&
        r.z == b.centerZ + Side(p.z - b.centerZ) * (Half(b.minZ, b.maxZ) + Skin)
    ensures Resolve(p, b, ry, rz).life == p.life && Resolve(p, b, ry, rz).padding == p.padding
  {
  }

  /** The velocity component along the normal. */
  function NormalVelocity(p: Particle, b: Bounds): real {
    var n := Normal(p, b);
    p.vx * n.0 + p.vy * n.1 + p.vz * n.2
  }

  /** A particle already moving out of the box keeps its velocity. */
  lemma ResolveKeepsOutgoingVelocity(p: Particle, b: Bounds, ry: real, rz: real)
    requires NormalVelocity(p, b) >= 0.0
    ensures var r := Resolve(p, b, ry, rz);
      r.vx == p.vx && r.vy == p.vy && r.vz == p.vz
  {
  }

  /** A particle moving into the box bounces: its normal velocity becomes
      0.3 times its old speed in the outward direction, the other
      components only receive their kicks. */
  lemma ResolveBounces(p: Particle, b: Bounds, ry: real, rz: real)
    requires NormalVelocity(p, b) < 0.0
    ensures var r := Resolve(p, b, ry, rz);
      NormalVelocity(p, b) * -Restitution > 0.0 &&
      match PushAxis(p, b)
      case AxisX =>
        r.vx == -Restitution * p.vx && r.vy == p.vy + Kick(ry) && r.vz == p.vz + Kick(rz)
      case AxisY =>
        r.vx == p.vx && r.vy == -Restitution * p.vy + Kick(ry) && r.vz == p.vz + Kick(rz)
      case AxisZ =>
        r.vx == p.vx && r.vy == p.vy + Kick(ry) && r.vz == -Restitution * p.vz + Kick(rz)
  {
  }

  /** The box is centred between its bounds. */
  predicate Centred(b: Bounds) {
    b.minX <= b.maxX && b.minY <= b.maxY && b.minZ <= b.maxZ &&
    b.centerX == (b.minX + b.maxX) * 0.5 && b.centerY == (b.minY + b.maxY) * 0.5 &&
    b.centerZ == (b.minZ + b.maxZ) * 0.5
  }

  /** For a centred box the pushed particle no longer collides. */
  lemma ResolveEscapes(p: Particle, b: Bounds, ry: real, rz: real)
    requires Centred(b)
    ensures var r := Resolve(p, b, ry, rz); !CheckCollision(r.x, r.y, r.z, b)
  {
    ResolveMovesOneAxis(p, b, ry, rz);
  }

  // ---------------------------------------------------------------------
  // One particle of the update loop

  /** The rand() / RAND_MAX values one iteration of the update loop draws:
      two for the collision kick, three for a respawn. */
  datatype Noise = Noise(kickY: real, kickZ: real, spawnY: real, spawnZ: real, spawnVx: real)

  /** The wall constraint on y or z: a coordinate beyond [-2, 2] is put on
      the wall and its velocity reversed at half speed. */
  function Wall(c: real, v: real): (real, real) {
    if c < -2.0 || c > 2.0 then ((if c < -2.0 then -2.0 else 2.0), v * -0.5) else (c, v)
  }

  /** A particle whose life ran out or that left through x = 4 respawns at
      the inlet x = -4 with life 1. */
  function Respawn(p: Particle, n: Noise): Particle {
    if p.life <= 0.0 || p.x > 4.0 then
      p.(x := -4.0, y := (n.spawnY - 0.5) * 3.0, z := (n.spawnZ - 0.5) * 3.0,
         vx := 0.5 + n.spawnVx * 0.2, vy := 0.0, vz := 0.0, life := 1.0)
    else p
  }

  /** The body of the update loop for one particle. */
  function Advance(p: Particle, dt: real, bounds: ObjModel.Option<Bounds>, n: Noise): Particle {
    var moved := p.(x := p.x + p.vx * dt, y := p.y + p.vy * dt, z := p.z + p.vz * dt);
    var hit :=
      if bounds.Some? && CheckCollision(moved.x, moved.y, moved.z, bounds.value)
      then Resolve(moved, bounds.value, n.kickY, n.kickZ) else moved;
    var aged := hit.(life := hit.life - 0.01 * dt);
    var live := Respawn(aged, n);
    var wy := Wall(live.y, live.vy);
    var wz := Wall(live.z, live.vz);
    live.(y := wy.0, vy := wy.1, z := wz.0, vz := wz.1)
  }

  /** The wall puts the coordinate in [-2, 2] and leaves a coordinate
      already there, and its velocity, alone. */
  lemma WallConfines(c: real, v: real)
    ensures -2.0 <= Wall(c, v).0 <= 2.0
    ensures -2.0 <= c <= 2.0 ==> Wall(c, v) == (c, v)
  {
  }

  /** After the update every particle's y and z lie in [-2, 2]. */
  lemma AdvanceConfines(p: Particle, dt: real, bounds: ObjModel.Option<Bounds>, n: Noise)
    ensures -2.0 <= Advance(p, dt, bounds, n).y <= 2.0
    ensures -2.0 <= Advance(p, dt, bounds, n).z <= 2.0
  {
    var moved := p.(x := p.x + p.vx * dt, y := p.y + p.vy * dt, z := p.z + p.vz * dt);
    var hit :=
      if bounds.Some? && CheckCollision(moved.x, moved.y, moved.z, bounds.value)
      then Resolve(moved, bounds.value, n.kickY, n.kickZ) else moved;
    var live := Respawn(hit.(life := hit.life - 0.01 * dt), n);
    WallConfines(live.y, live.vy);
    WallConfines(live.z, live.vz);
  }

  /** A particle that respawns sits at the inlet with full life and no
      cross-stream velocity. */
  lemma RespawnAtInlet(p: Particle, n: Noise)
    requires p.life <= 0.0 || p.x > 4.0
    ensures Respawn(p, n).x == -4.0 && Respawn(p, n).life == 1.0
    ensures Respawn(p, n).vy == 0.0 && Respawn(p, n).vz == 0.0
  {
  }

  /** A particle alive and inside x <= 4 is not respawned. */
  lemma NoRespawnWhileAlive(p: Particle, n: Noise)
    requires p.life > 0.0 && p.x <= 4.0
    ensures Respawn(p, n) == p
  {
  }

  // ---------------------------------------------------------------------
  // Buckets

  /** MAX_PARTICLES / GRID_CELL_SIZE: the capacity of a bucket. */
  function Capacity(cellSize: nat): nat
    requires cellSize > 0
  {
    MaxParticles / cellSize
  }

  /** The bucket ParticleSystem_AddParticle files a new particle under:
      ((int)(x / GRID_CELL_SIZE), (int)(y / GRID_CELL_SIZE)). */
  function AddBucket(x: real, y: real, cellSize: nat): (int, int)
    requires cellSize > 0
  {
    (Lbm.Trunc(x / cellSize as real), Lbm.Trunc(y / cellSize as real))
  }

  /** The bucket of a particle in the update: its x in [-4, 4] and y in
      [-2, 2] spread over GRID_CELL_SIZE columns each, converted with (int). */
  function UpdateBucket(p: Particle, cellSize: nat): (int, int) {
    (Lbm.Trunc((p.x + 4.0) / 8.0 * cellSize as real), Lbm.Trunc((p.y + 2.0) / 4.0 * cellSize as real))
  }

  /** With (int), a particle up to one column left of x = -4 is still
      filed under column 0. */
  lemma UpdateBucketTruncates(p: Particle, cellSize: nat)
    requires cellSize > 0 && -1.0 < (p.x + 4.0) / 8.0 * cellSize as real < 0.0
    ensures UpdateBucket(p, cellSize).0 == 0
  {
    TruncBelowZero((p.x + 4.0) / 8.0 * cellSize as real);
  }

  lemma TruncBelowZero(w: real)
    requires -1.0 < w < 0.0
    ensures Lbm.Trunc(w) == 0
  {
    var n := Lbm.Trunc(w);
    assert n as real - 1.0 < w <= n as real;
    assert -1 < n < 1;
  }

  /** The particles of ps that the update files under bucket (i, j), in
      order. */
  function Filed(ps: seq<Particle>, cellSize: nat, i: int, j: int): (r: seq<Particle>)
    ensures |r| <= |ps|
  {
    if |ps| == 0 then []
    else
      Filed(ps[..|ps| - 1], cellSize, i, j) +
      if UpdateBucket(ps[|ps| - 1], cellSize) == (i, j) then [ps[|ps| - 1]] else []
  }

  /** The first cap elements of s. */
  function Capped(s: seq<Particle>, cap: nat): (r: seq<Particle>)
    ensures |r| <= cap && |r| <= |s| && r <= s
    ensures |s| <= cap ==> r == s
    ensures |s| > cap ==> r == s[..cap]
  {
    if |s| <= cap then s else s[..cap]
  }

  /** Appending to a bucket that still has room. */
  lemma CappedAppend(s: seq<Particle>, cap: nat, q: Particle)
    ensures Capped(s + [q], cap) == if |Capped(s, cap)| < cap then Capped(s, cap) + [q] else Capped(s, cap)
  {
    if |s| >= cap {
      assert (s + [q])[..cap] == s[..cap];
    }
  }

  /** The bucket (i, j) the reinsert loop leaves: the first Capacity
      particles filed under it. */
  function Bucket(ps: seq<Particle>, cellSize: nat, i: int, j: int): seq<Particle>
    requires cellSize > 0
  {
    Capped(Filed(ps, cellSize, i, j), Capacity(cellSize))
  }

  /** All buckets of the table, row i, column j. */
  function Buckets(ps: seq<Particle>, cellSize: nat): (t: seq<seq<seq<Particle>>>)
    requires cellSize > 0
    ensures |t| == cellSize && forall i :: 0 <= i < cellSize ==> |t[i]| == cellSize
  {
    seq(cellSize, i => seq(cellSize, j => Bucket(ps, cellSize, i, j)))
  }

  /** The number of entries of a bucket table, row by row. */
  function Total(t: seq<seq<seq<Particle>>>): nat {
    if |t| == 0 then 0 else Total(t[..|t| - 1]) + RowTotal(t[|t| - 1])
  }

  function RowTotal(r: seq<seq<Particle>>): nat {
    if |r| == 0 then 0 else RowTotal(r[..|r| - 1]) + |r[|r| - 1]|
  }

  /** The number of particles of ps filed under row i, columns 0 .. m - 1. */
  function FiledInRow(ps: seq<Particle>, cellSize: nat, i: int, m: nat): nat {
    if m == 0 then 0 else FiledInRow(ps, cellSize, i, m - 1) + |Filed(ps, cellSize, i, m - 1)|
  }

  /** The number filed under rows 0 .. m - 1. */
  function FiledInRows(ps: seq<Particle>, cellSize: nat, m: nat): nat {
    if m == 0 then 0 else FiledInRows(ps, cellSize, m - 1) + FiledInRow(ps, cellSize, m - 1, cellSize)
  }

  /** A particle adds one to the row count of the row and the column range
      its bucket lies in. */
  lemma {:induction false} FiledInRowStep(ps: seq<Particle>, q: Particle, cellSize: nat, i: int, m: nat)
    ensures FiledInRow(ps + [q], cellSize, i, m) ==
      FiledInRow(ps, cellSize, i, m) + if UpdateBucket(q, cellSize).0 == i && 0 <= UpdateBucket(q, cellSize).1 < m then 1 else 0
  {
    if m > 0 {
      FiledInRowStep(ps, q, cellSize, i, m - 1);
      assert (ps + [q])[..|ps + [q]| - 1] == ps;
    }
  }

  lemma {:induction false} FiledInRowsStep(ps: seq<Particle>, q: Particle, cellSize: nat, m: nat)
    ensures FiledInRows(ps + [q], cellSize, m) ==
      FiledInRows(ps, cellSize, m) +
        if 0 <= UpdateBucket(q, cellSize).0 < m && 0 <= UpdateBucket(q, cellSize).1 < cellSize then 1 else 0
  {
    if m > 0 {
      FiledInRowsStep(ps, q, cellSize, m - 1);
      FiledInRowStep(ps, q, cellSize, m - 1, cellSize);
    }
  }

  /** Every particle is filed at most once: the buckets together hold no
      more particles than the table has. */
  lemma {:induction false} FiledAtMostOnce(ps: seq<Particle>, cellSize: nat)
    ensures FiledInRows(ps, cellSize, cellSize) <= |ps|
  {
    if |ps| == 0 {
      NothingFiled(cellSize, cellSize);
    } else {
      var init := ps[..|ps| - 1];
      assert ps == init + [ps[|ps| - 1]];
      FiledAtMostOnce(init, cellSize);
      FiledInRowsStep(init, ps[|ps| - 1], cellSize, cellSize);
    }
  }

  lemma {:induction false} NothingFiledInRow(cellSize: nat, i: int, m: nat)
    ensures FiledInRow([], cellSize, i, m) == 0
  {
    if m > 0 {
      NothingFiledInRow(cellSize, i, m - 1);
    }
  }

  lemma {:induction false} NothingFiled(cellSize: nat, m: nat)
    ensures FiledInRows([], cellSize, m) == 0
  {
    if m > 0 {
      NothingFiled(cellSize, m - 1);
      NothingFiledInRow(cellSize, m - 1, cellSize);
    }
  }

  /** One more particle joins its own bucket if that is on the grid and
      not full, and no other bucket changes. */
  lemma BucketStep(ps: seq<Particle>, q: Particle, cellSize: nat)
    requires cellSize > 0
    ensures forall i, j :: 0 <= i < cellSize && 0 <= j < cellSize ==>
      Bucket(ps + [q], cellSize, i, j) ==
        if (i, j) == UpdateBucket(q, cellSize) && |Bucket(ps, cellSize, i, j)| < Capacity(cellSize)
        then Bucket(ps, cellSize, i, j) + [q] else Bucket(ps, cellSize, i, j)
  {
    assert (ps + [q])[..|ps + [q]| - 1] == ps;
    forall i, j | 0 <= i < cellSize && 0 <= j < cellSize
      ensures Bucket(ps + [q], cellSize, i, j) ==
        if (i, j) == UpdateBucket(q, cellSize) && |Bucket(ps, cellSize, i, j)| < Capacity(cellSize)
        then Bucket(ps, cellSize, i, j) + [q] else Bucket(ps, cellSize, i, j)
    {
      CappedAppend(Filed(ps, cellSize, i, j), Capacity(cellSize), q);
    }
  }

  lemma {:induction false} RowTotalBound(ps: seq<Particle>, cellSize: nat, i: int, m: nat)
    requires 0 < cellSize && m <= cellSize
    ensures RowTotal(seq(cellSize, j => Bucket(ps, cellSize, i, j))[..m]) <= FiledInRow(ps, cellSize, i, m)
  {
    var row := seq(cellSize, j => Bucket(ps, cellSize, i, j));
    if m > 0 {
      RowTotalBound(ps, cellSize, i, m - 1);
      assert row[..m][..m - 1] == row[..m - 1];
    }
  }

  lemma {:induction false} TotalBound(ps: seq<Particle>, cellSize: nat, m: nat)
    requires 0 < cellSize && m <= cellSize
    ensures Total(Buckets(ps, cellSize)[..m]) <= FiledInRows(ps, cellSize, m)
  {
    var t := Buckets(ps, cellSize);
    if m > 0 {
      TotalBound(ps, cellSize, m - 1);
      assert t[..m][..m - 1] == t[..m - 1];
      RowTotalBound(ps, cellSize, m - 1, cellSize);
      assert t[m - 1][..cellSize] == t[m - 1];
    }
  }

  /** After the reinsert loop the bucket counts add up to at most the
      number of particles, and no bucket is over capacity. */
  lemma BucketsHoldAtMostAll(ps: seq<Particle>, cellSize: nat)
    requires cellSize > 0
    ensures Total(Buckets(ps, cellSize)) <= |ps|
    ensures forall i, j :: 0 <= i < cellSize && 0 <= j < cellSize ==>
      |Buckets(ps, cellSize)[i][j]| <= Capacity(cellSize)
  {
    TotalBound(ps, cellSize, cellSize);
    assert Buckets(ps, cellSize)[..cellSize] == Buckets(ps, cellSize);
    FiledAtMostOnce(ps, cellSize);
  }

  /** A bucket holds only particles that belong there. */
  lemma BucketsAreSorted(ps: seq<Particle>, cellSize: nat, i: int, j: int, q: Particle)
    requires cellSize > 0 && q in Bucket(ps, cellSize, i, j)
    ensures q in ps && UpdateBucket(q, cellSize) == (i, j)
  {
    FiledBelong(ps, cellSize, i, j, q);
  }

  lemma {:induction false} FiledBelong(ps: seq<Particle>, cellSize: nat, i: int, j: int, q: Particle)
    requires q in Filed(ps, cellSize, i, j)
    ensures q in ps && UpdateBucket(q, cellSize) == (i, j)
  {
    if |ps| > 0 {
      var init := ps[..|ps| - 1];
      if q in Filed(init, cellSize, i, j) {
        FiledBelong(init, cellSize, i, j, q);
        assert q in init;
      }
    }
  }

  // ---------------------------------------------------------------------
  // The system

  /** A ParticleSystem: the particle buffer, the live count and the bucket
      table; a bucket's count is the number of particles it holds. */
  class ParticleSystem {
    /** GRID_CELL_SIZE. */
    const cellSize: nat
    const particles: array<Particle>
    const grid: array2<seq<Particle>>
    var numParticles: int

    predicate Valid()
      reads this, grid
    {
      cellSize > 0 && particles.Length == MaxParticles &&
      grid.Length0 == cellSize && grid.Length1 == cellSize &&
      0 <= numParticles <= MaxParticles &&
      forall i, j :: 0 <= i < cellSize && 0 <= j < cellSize ==> |grid[i, j]| <= Capacity(cellSize)
    }

    /** The storage of a system; ParticleSystem_Init then resets it. */
    constructor (cellSize: nat)
      requires cellSize > 0
      ensures Valid() && this.cellSize == cellSize && fresh(particles) && fresh(grid)
      ensures numParticles == 0
      ensures forall i, j :: 0 <= i < cellSize && 0 <= j < cellSize ==> grid[i, j] == []
    {
      this.cellSize := cellSize;
      particles := new Particle[MaxParticles](_ => Particle(0.0, 0.0, 0.0, 0.0, 0.0, 0.0, 0.0, 0.0));
      grid := new seq<Particle>[cellSize, cellSize]((_, _) => []);
      numParticles := 0;
    }

    /** Every bucket emptied. */
    method ClearBuckets()
      requires Valid()
      modifies grid
      ensures Valid()
      ensures forall i, j :: 0 <= i < cellSize && 0 <= j < cellSize ==> grid[i, j] == []
    {
      for i := 0 to cellSize
        invariant forall i', j :: 0 <= i' < cellSize && 0 <= j < cellSize ==>
          grid[i', j] == if i' < i then [] else old(grid[i', j])
      {
        for j := 0 to cellSize
          invariant forall i', j' :: 0 <= i' < cellSize && 0 <= j' < cellSize ==>
            grid[i', j'] == if i' < i || (i' == i && j' < j) then [] else old(grid[i', j'])
        {
          grid[i, j] := [];
        }
      }
    }

    /** ParticleSystem_Init: no particles and every bucket empty. */
    method Init()
      requires Valid()
      modifies this, grid
      ensures Valid() && numParticles == 0
      ensures forall i, j :: 0 <= i < cellSize && 0 <= j < cellSize ==> grid[i, j] == []
      ensures particles[..] == old(particles[..])
    {
      numParticles := 0;
      ClearBuckets();
    }

    /** ParticleSystem_AddParticle: with room, the particle takes the next
        slot with padding 0 and life 1, and a copy joins its bucket when
        the bucket is on the grid and not full; with no room nothing
        changes. */
    method AddParticle(x: real, y: real, z: real, vx: real, vy: real, vz: real)
      requires Valid()
      modifies this, particles, grid
      ensures Valid()
      ensures old(numParticles) == MaxParticles ==>
        numParticles == old(numParticles) && particles[..] == old(particles[..]) &&
        forall i, j :: 0 <= i < cellSize && 0 <= j < cellSize ==> grid[i, j] == old(grid[i, j])
      ensures old(numParticles) < MaxParticles ==>
        var q := Particle(x, y, z, 0.0, vx, vy, vz, 1.0);
        var c := AddBucket(x, y, cellSize);
        numParticles == old(numParticles) + 1 &&
        particles[..] == old(particles[..])[old(numParticles) := q] &&
        forall i, j :: 0 <= i < cellSize && 0 <= j < cellSize ==>
          grid[i, j] == if (i, j) == c && |old(grid[i, j])| < Capacity(cellSize) then old(grid[i, j]) + [q] else old(grid[i, j])
    {
      if numParticles < MaxParticles {
        var q := Particle(x, y, z, 0.0, vx, vy, vz, 1.0);
        particles[numParticles] := q;
        numParticles := numParticles + 1;
        var c := AddBucket(x, y, cellSize);
        if 0 <= c.0 < cellSize && 0 <= c.1 < cellSize {
          if |grid[c.0, c.1]| < Capacity(cellSize) {
            grid[c.0, c.1] := grid[c.0, c.1] + [q];
          }
        }
      }
    }

    /** ParticleSystem_UpdateWithCollision: every live particle advanced by
        one loop iteration (noise[i] standing for its rand() draws), then
        the buckets rebuilt from the advanced particles. */
    method UpdateWithCollision(dt: real, bounds: ObjModel.Option<Bounds>, noise: seq<Noise>)
      requires Valid() && |noise| == numParticles
      modifies particles, grid
      ensures Valid() && numParticles == old(numParticles)
      ensures forall i :: 0 <= i < numParticles ==> particles[i] == Advance(old(particles[i]), dt, bounds, noise[i])
      ensures forall i :: numParticles <= i < MaxParticles ==> particles[i] == old(particles[i])
      ensures forall i, j :: 0 <= i < cellSize && 0 <= j < cellSize ==>
        grid[i, j] == Bucket(particles[..numParticles], cellSize, i, j)
    {
      ClearBuckets();
      for i := 0 to numParticles
        modifies particles
        invariant forall k :: 0 <= k < i ==> particles[k] == Advance(old(particles[k]), dt, bounds, noise[k])
        invariant forall k :: i <= k < MaxParticles ==> particles[k] == old(particles[k])
      {
        particles[i] := Advance(particles[i], dt, bounds, noise[i]);
      }
      Reinsert();
    }

    /** The reinsert loop, over emptied buckets. */
    method Reinsert()
      requires Valid()
      requires forall i, j :: 0 <= i < cellSize && 0 <= j < cellSize ==> grid[i, j] == []
      modifies grid
      ensures Valid()
      ensures forall i, j :: 0 <= i < cellSize && 0 <= j < cellSize ==>
        grid[i, j] == Bucket(particles[..numParticles], cellSize, i, j)
    {
      for k := 0 to numParticles
        invariant Valid()
        invariant forall i, j :: 0 <= i < cellSize && 0 <= j < cellSize ==>
          grid[i, j] == Bucket(particles[..k], cellSize, i, j)
      {
        var q := particles[k];
        var c := UpdateBucket(q, cellSize);
        assert particles[..k + 1] == particles[..k] + [q];
        BucketStep(particles[..k], q, cellSize);
        if 0 <= c.0 < cellSize && 0 <= c.1 < cellSize {
          if |grid[c.0, c.1]| < Capacity(cellSize) {
            grid[c.0, c.1] := grid[c.0, c.1] + [q];
          }
        }
      }
    }
  }
}
