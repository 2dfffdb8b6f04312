/** Material removal (core/stock/index.js, `carveWithTool` and
    `runStockRemoval`): the tool is swept along each move as a sphere of the
    tool radius, sampled at evenly spaced points, and every cell whose
    centre it reaches is cleared. */
module StockCarve {
  import opened Numbers
  import opened Vectors
  import opened Stock
  import opened MotionPlanner

  /** `Math.max(1, Math.ceil(len / (voxelSize * 0.5)))`: enough sub-steps
      that consecutive sweep points are at most half a cell apart (for a
      positive cell size). */
  function SweepSteps(h: Length, g: Grid, from: Vec3, to: Vec3): (r: nat)
    requires g.voxelSize != 0.0
    ensures r >= 1
    ensures Dist(h, from, to) / (g.voxelSize * 0.5) <= r as real
    ensures Dist(h, from, to) / (g.voxelSize * 0.5) > 0.0 ==> (r as real) < Dist(h, from, to) / (g.voxelSize * 0.5) + 1.0
    ensures Dist(h, from, to) / (g.voxelSize * 0.5) <= 1.0 ==> r == 1
  {
    MaxInt(1, Ceil(Dist(h, from, to) / (g.voxelSize * 0.5)))
  }

  /** Sweep point `k` of `steps`, at `u = k / steps` along the move. */
  function SweepPoint(from: Vec3, to: Vec3, k: nat, steps: nat): Vec3
    requires steps >= 1
  {
    Lerp(from, to, k as real / steps as real)
  }

  /** The centre of cell (x, y, z). */
  function Center(g: Grid, x: int, y: int, z: int): Vec3 {
    Vec3((x as real + 0.5) * g.voxelSize, (y as real + 0.5) * g.voxelSize, (z as real + 0.5) * g.voxelSize)
  }

  /** The first and last cell, along one axis of `n` cells, that the loops
      visit around coordinate `c`: the cells under `[c - r, c + r]`,
      clipped to the grid. */
  function WindowLo(c: real, r: real, vs: real): int
    requires vs != 0.0
  {
    MaxInt(0, Floor((c - r) / vs))
  }

  function WindowHi(c: real, r: real, vs: real, n: nat): int
    requires vs != 0.0
  {
    MinInt(n - 1, Floor((c + r) / vs))
  }

  predicate InWindow(g: Grid, p: Vec3, r: real, x: int, y: int, z: int)
    requires g.voxelSize != 0.0
  {
    && WindowLo(p.x, r, g.voxelSize) <= x <= WindowHi(p.x, r, g.voxelSize, g.nx)
    && WindowLo(p.y, r, g.voxelSize) <= y <= WindowHi(p.y, r, g.voxelSize, g.ny)
    && WindowLo(p.z, r, g.voxelSize) <= z <= WindowHi(p.z, r, g.voxelSize, g.nz)
  }

  /** The test the innermost loop applies to cell (x, y, z) for tool
      position `p`: the cell is visited and its centre is within `r`. */
  predicate Clears(h: Length, g: Grid, p: Vec3, r: real, x: int, y: int, z: int)
    requires g.voxelSize != 0.0
  {
    InWindow(g, p, r, x, y, z) && Dist(h, p, Center(g, x, y, z)) <= r
  }

  /** `Clears` for the cell at flat position `i`. */
  predicate ClearsAt(h: Length, g: Grid, p: Vec3, r: real, i: int)
    requires ValidGrid(g)
  {
    var c := Coords(g, i);
    Clears(h, g, p, r, c.0, c.1, c.2)
  }

  /** Whether one of the first `k` sweep points clears the cell at `i`. */
  predicate SweptUpTo(h: Length, g: Grid, from: Vec3, to: Vec3, r: real, steps: nat, k: nat, i: int)
    requires ValidGrid(g) && steps >= 1
  {
    k > 0 && (SweptUpTo(h, g, from, to, r, steps, k - 1, i)
              || ClearsAt(h, g, SweepPoint(from, to, k - 1, steps), r, i))
  }

  /** Whether the move from `from` to `to` clears the cell at `i`: one of
      its `steps + 1` sweep points, both ends included, does. */
  predicate Swept(h: Length, g: Grid, from: Vec3, to: Vec3, r: real, i: int)
    requires ValidGrid(g)
  {
    var steps := SweepSteps(h, g, from, to);
    SweptUpTo(h, g, from, to, r, steps, steps + 1, i)
  }

  lemma {:induction false} SweptUpToIffSomePoint(h: Hypot, g: Grid, from: Vec3, to: Vec3, r: real,
                                                 steps: nat, k: nat, i: int)
    requires ValidGrid(g) && steps >= 1
    ensures SweptUpTo(h, g, from, to, r, steps, k, i)
            <==> exists j :: 0 <= j < k && ClearsAt(h, g, SweepPoint(from, to, j, steps), r, i)
  {
    if k > 0 {
      SweptUpToIffSomePoint(h, g, from, to, r, steps, k - 1, i);
    }
  }

  /** A cell is cleared by a move exactly when some sweep point, from `u = 0`
      to `u = 1`, clears it. */
  lemma SweptIffSomePoint(h: Hypot, g: Grid, from: Vec3, to: Vec3, r: real, i: int)
    requires ValidGrid(g)
    ensures var steps := SweepSteps(h, g, from, to);
            Swept(h, g, from, to, r, i)
            <==> exists j :: 0 <= j <= steps && ClearsAt(h, g, SweepPoint(from, to, j, steps), r, i)
  {
    var steps := SweepSteps(h, g, from, to);
    SweptUpToIffSomePoint(h, g, from, to, r, steps, steps + 1, i);
  }

  /** Clearing one cell: the loops' body. */
  function ClearCell(v: seq<bv8>, i: int): (r: seq<bv8>)
    requires 0 <= i < |v|
    ensures |r| == |v| && r[i] == 0
    ensures forall j :: 0 <= j < |v| && j != i ==> r[j] == v[j]
  {
    v[i := 0]
  }

  /** Which cells the loops over (x, y, z) have visited: whole layers below
      `z`, whole rows below `y` in layer `z`, cells before `x` in row `y`. */
  predicate Before(c: (int, int, int), x: int, y: int, z: int) {
    c.2 < z || (c.2 == z && c.1 < y) || (c.2 == z && c.1 == y && c.0 < x)
  }

  /** The three nested loops of `carveWithTool` for one sweep point `p`:
      they clear exactly the cells that `Clears` selects and leave every
      other byte as it was. */
  method CarveAt(h: Length, g: Grid, v: seq<bv8>, p: Vec3, r: real) returns (w: seq<bv8>)
    requires ValidGrid(g) && |v| == CellTotal(g)
    ensures |w| == |v|
    ensures forall i :: 0 <= i < |v| ==> w[i] == if ClearsAt(h, g, p, r, i) then 0 else v[i]
  {
    var vs := g.voxelSize;
    var minX, maxX := WindowLo(p.x, r, vs), WindowHi(p.x, r, vs, g.nx);
    var minY, maxY := WindowLo(p.y, r, vs), WindowHi(p.y, r, vs, g.ny);
    var minZ, maxZ := WindowLo(p.z, r, vs), WindowHi(p.z, r, vs, g.nz);
    AllCoords(g);
    w := v;
    var z := minZ;
    while z <= maxZ
      invariant minZ <= z <= Max1(minZ, maxZ)
      invariant |w| == |v|
      invariant forall i :: 0 <= i < |v| ==>
                  w[i] == if ClearsAt(h, g, p, r, i) && Coords(g, i).2 < z then 0 else v[i]
    {
      var y := minY;
      while y <= maxY
        invariant minY <= y <= Max1(minY, maxY)
        invariant |w| == |v|
        invariant forall i :: 0 <= i < |v| ==>
                    w[i] == if ClearsAt(h, g, p, r, i) && Before(Coords(g, i), minX, y, z) then 0 else v[i]
      {
        var x := minX;
        while x <= maxX
          invariant minX <= x <= Max1(minX, maxX)
          invariant |w| == |v|
          invariant forall i :: 0 <= i < |v| ==>
                      w[i] == if ClearsAt(h, g, p, r, i) && Before(Coords(g, i), x, y, z) then 0 else v[i]
        {
          if Dist(h, p, Center(g, x, y, z)) <= r {
            w := ClearCell(w, Idx(g, x, y, z));
          }
          x := x + 1;
        }
        y := y + 1;
      }
      z := z + 1;
    }
  }

  /** The loop cursor's bound: one past the last cell, or the first when
      there is none. */
  function Max1(lo: int, hi: int): int {
    if hi + 1 < lo then lo else hi + 1
  }

  /** `carveWithTool`: the sweep points in order, each carved as above.
      The geometry is untouched, and a cell ends up cleared exactly when
      the move sweeps it or it was clear already. */
  method CarveWithTool(h: Length, s: VoxelStock, from: Vec3, to: Vec3, r: real) returns (t: VoxelStock)
    requires Valid(s)
    ensures Valid(t) && t.grid == s.grid
    ensures forall i :: 0 <= i < |s.voxels| ==>
              t.voxels[i] == if Swept(h, s.grid, from, to, r, i) then 0 else s.voxels[i]
  {
    var g := s.grid;
    var steps := SweepSteps(h, g, from, to);
    var v := s.voxels;
    var k := 0;
    while k <= steps
      invariant 0 <= k <= steps + 1
      invariant |v| == |s.voxels|
      invariant forall i :: 0 <= i < |v| ==>
                  v[i] == if SweptUpTo(h, g, from, to, r, steps, k, i) then 0 else s.voxels[i]
    {
      var p := SweepPoint(from, to, k, steps);
      v := CarveAt(h, g, v, p, r);
      k := k + 1;
    }
    t := VoxelStock(g, v);
  }

  /** Whether one of the first `n - 1` consecutive sample pairs of the
      timeline sweeps the cell at `i`. */
  predicate RemovedUpTo(h: Length, g: Grid, timeline: seq<Sample>, r: real, n: nat, i: int)
    requires ValidGrid(g)
  {
    2 <= n <= |timeline|
    && (RemovedUpTo(h, g, timeline, r, n - 1, i)
        || Swept(h, g, timeline[n - 2].axes, timeline[n - 1].axes, r, i))
  }

  /** `runStockRemoval`: every consecutive pair of samples, by their axis
      positions, is carved with half the tool diameter as radius, whatever
      the spindle or motion mode. */
  method RunStockRemoval(h: Length, s: VoxelStock, timeline: seq<Sample>, toolDiameter: real)
    returns (t: VoxelStock)
    requires Valid(s)
    ensures Valid(t) && t.grid == s.grid
    ensures forall i :: 0 <= i < |s.voxels| ==>
              t.voxels[i] == if RemovedUpTo(h, s.grid, timeline, toolDiameter / 2.0, |timeline|, i)
                             then 0 else s.voxels[i]
    ensures Occupied(t) <= Occupied(s)
  {
    t := s;
    var n := 1;
    while n < |timeline|
      invariant 1 <= n && (|timeline| >= 1 ==> n <= |timeline|)
      invariant Valid(t) && t.grid == s.grid
      invariant forall i :: 0 <= i < |s.voxels| ==>
                  t.voxels[i] == if RemovedUpTo(h, s.grid, timeline, toolDiameter / 2.0, n, i)
                                 then 0 else s.voxels[i]
    {
      t := CarveWithTool(h, t, timeline[n - 1].axes, timeline[n].axes, toolDiameter / 2.0);
      n := n + 1;
    }
    OccupancyOnlyDrops(s.voxels, t.voxels, |s.voxels|);
  }

  /** A timeline of fewer than two samples removes nothing. */
  lemma ShortTimelineRemovesNothing(h: Hypot, g: Grid, timeline: seq<Sample>, r: real, i: int)
    requires ValidGrid(g) && |timeline| < 2
    ensures !RemovedUpTo(h, g, timeline, r, |timeline|, i)
  {
  }

  /** A cell is removed by the timeline exactly when one of its moves
      sweeps it. */
  lemma {:induction false} RemovedIffSomeMove(h: Hypot, g: Grid, timeline: seq<Sample>, r: real, n: nat, i: int)
    requires ValidGrid(g) && n <= |timeline|
    ensures RemovedUpTo(h, g, timeline, r, n, i)
            <==> exists k :: 1 <= k < n && Swept(h, g, timeline[k - 1].axes, timeline[k].axes, r, i)
  {
    if n >= 2 {
      RemovedIffSomeMove(h, g, timeline, r, n - 1, i);
      if Swept(h, g, timeline[n - 2].axes, timeline[n - 1].axes, r, i) {
        assert 1 <= n - 1 < n;
      }
    }
  }

  /** Along one axis, a cell whose centre lies within `r` of `c` is inside
      the window the loops visit around `c`, when cells have positive
      size. */
  lemma AxisWindowCovers(c: real, r: real, vs: real, x: int, n: nat)
    requires vs > 0.0 && 0 <= x < n
    requires c - r <= (x as real + 0.5) * vs <= c + r
    ensures WindowLo(c, r, vs) <= x <= WindowHi(c, r, vs, n)
  {
    DivAtMost(c - r, x as real + 0.5, vs);
    DivAtLeast(c + r, x as real + 0.5, vs);
  }

  /** A cell whose centre lies within `r` of `p` along every axis is
      inside the window around `p`, when cells have positive size. */
  lemma WindowCovers(g: Grid, p: Vec3, r: real, x: int, y: int, z: int)
    requires ValidGrid(g) && g.voxelSize > 0.0 && InGrid(g, x, y, z)
    requires var c := Center(g, x, y, z);
             p.x - r <= c.x <= p.x + r && p.y - r <= c.y <= p.y + r && p.z - r <= c.z <= p.z + r
    ensures InWindow(g, p, r, x, y, z)
  {
    var vs := g.voxelSize;
    var c := Center(g, x, y, z);
    assert c.x == (x as real + 0.5) * vs && c.y == (y as real + 0.5) * vs && c.z == (z as real + 0.5) * vs;
    AxisWindowCovers(p.x, r, vs, x, g.nx);
    AxisWindowCovers(p.y, r, vs, y, g.ny);
    AxisWindowCovers(p.z, r, vs, z, g.nz);
  }

  /** For a positive cell size the window only saves work: a cell of the
      grid is cleared by tool position `p` exactly when its centre is
      within `r` of `p`. */
  lemma ClearsIffNear(h: Hypot, g: Grid, p: Vec3, r: real, x: int, y: int, z: int)
    requires ValidGrid(g) && g.voxelSize > 0.0 && InGrid(g, x, y, z)
    ensures Clears(h, g, p, r, x, y, z) <==> Dist(h, p, Center(g, x, y, z)) <= r
  {
    var c := Center(g, x, y, z);
    if Dist(h, p, c) <= r {
      assert p.x - r <= c.x <= p.x + r && p.y - r <= c.y <= p.y + r && p.z - r <= c.z <= p.z + r;
      WindowCovers(g, p, r, x, y, z);
    }
  }
}
