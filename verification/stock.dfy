/** The voxel stock (core/stock/index.js): a dense occupancy grid of
    `nx * ny * nz` byte cells, 1 for material and 0 for removed, stored
    with X varying fastest, then Y, then Z. */
module Stock {
  import opened Numbers

  /** The geometry of a stock: its requested size, the cell edge, and the
      number of cells along each axis. */
  datatype Grid = Grid(
    width: real,
    height: real,
    depth: real,
    voxelSize: real,
    nx: nat,
    ny: nat,
    nz: nat)

  /** The stock object: its geometry and one occupancy byte per cell. */
  datatype VoxelStock = VoxelStock(grid: Grid, voxels: seq<bv8>)

  predicate ValidGrid(g: Grid) {
    g.voxelSize != 0.0 && g.nx >= 1 && g.ny >= 1 && g.nz >= 1
  }

  function CellTotal(g: Grid): nat {
    g.nx * g.ny * g.nz
  }

  /** A stock as `createVoxelStock` makes it and every later operation keeps
      it: at least one cell per axis and one byte per cell. */
  predicate Valid(s: VoxelStock) {
    ValidGrid(s.grid) && |s.voxels| == CellTotal(s.grid)
  }

  /** `Math.max(1, Math.ceil(dim / voxelSize))`: enough cells to cover the
      dimension, and at least one. */
  function CellCount(dim: real, voxelSize: real): (r: nat)
    requires voxelSize != 0.0
    ensures r >= 1
    ensures dim / voxelSize <= r as real
    ensures dim / voxelSize > 0.0 ==> (r as real) < dim / voxelSize + 1.0
    ensures dim / voxelSize <= 1.0 ==> r == 1
  {
    MaxInt(1, Ceil(dim / voxelSize))
  }

  /** `createVoxelStock`: every cell full. A zero voxel size is excluded
      (the division yields an infinite or undefined cell count). */
  function Create(width: real, height: real, depth: real, voxelSize: real): (s: VoxelStock)
    requires voxelSize != 0.0
    ensures Valid(s)
    ensures s.grid.width == width && s.grid.height == height && s.grid.depth == depth
    ensures s.grid.voxelSize == voxelSize
    ensures s.grid.nx == CellCount(width, voxelSize) && s.grid.ny == CellCount(height, voxelSize)
            && s.grid.nz == CellCount(depth, voxelSize)
    ensures forall i :: 0 <= i < |s.voxels| ==> s.voxels[i] == 1
  {
    var nx, ny, nz := CellCount(width, voxelSize), CellCount(height, voxelSize), CellCount(depth, voxelSize);
    VoxelStock(Grid(width, height, depth, voxelSize, nx, ny, nz), seq(nx * ny * nz, _ => 1))
  }

  /** `idx`: the flat position of cell (x, y, z). A cell of the grid lands
      inside the voxel array, and `Coords` gives the cell back. */
  function Idx(g: Grid, x: int, y: int, z: int): (r: int)
    ensures ValidGrid(g) && InGrid(g, x, y, z) ==> 0 <= r < CellTotal(g) && Coords(g, r) == (x, y, z)
  {
    if ValidGrid(g) && InGrid(g, x, y, z) then
      assert z * g.nx * g.ny + y * g.nx + x == (z * g.ny + y) * g.nx + x;
      RowMajorBelow(z, g.nz, y, g.ny);
      RowMajorBelow(z * g.ny + y, g.nz * g.ny, x, g.nx);
      assert g.nx * g.ny * g.nz == (g.nz * g.ny) * g.nx;
      DivModOf(z * g.ny + y, x, g.nx);
      DivModOf(z, y, g.ny);
      z * g.nx * g.ny + y * g.nx + x
    else
      z * g.nx * g.ny + y * g.nx + x
  }

  /** Whether (x, y, z) names a cell of the grid. */
  predicate InGrid(g: Grid, x: int, y: int, z: int) {
    0 <= x < g.nx && 0 <= y < g.ny && 0 <= z < g.nz
  }

  /** The cell a flat position stands for; the inverse of `Idx`. */
  function Coords(g: Grid, i: int): (int, int, int)
    requires g.nx >= 1 && g.ny >= 1
  {
    (i % g.nx, (i / g.nx) % g.ny, (i / g.nx) / g.ny)
  }

  /** The quotient and remainder of `q * n + r` by `n` are `q` and `r`. */
  lemma DivModOf(q: int, r: int, n: int)
    requires n > 0 && 0 <= r < n
    ensures (q * n + r) / n == q && (q * n + r) % n == r
  {
    var a := q * n + r;
    var k := q - a / n;
    assert a == (a / n) * n + a % n;
    assert k * n == a % n - r;
  }

  /** A quotient by `a` of a number below `a * b` is below `b`. */
  lemma QuotientBelow(i: int, a: int, b: int)
    requires a > 0 && 0 <= i < a * b
    ensures 0 <= i / a < b
  {
    assert i == (i / a) * a + i % a;
  }

  /** Position `x` of row `row` lies before the start of row `rows`. */
  lemma RowMajorBelow(row: int, rows: int, x: int, n: int)
    requires 0 <= row < rows && 0 <= x < n
    ensures 0 <= row * n + x < rows * n
  {
    assert row * n + n == (row + 1) * n;
    assert (row + 1) * n <= rows * n;
  }

  /** `Idx` written with Horner's rule. */
  lemma IdxHorner(g: Grid, x: int, y: int, z: int)
    ensures Idx(g, x, y, z) == (z * g.ny + y) * g.nx + x
  {
    assert z * g.nx * g.ny == (z * g.ny) * g.nx;
  }

  /** `Idx` undoes `Coords` on the positions of the array, so the two are
      inverse bijections between the cells and the positions. */
  lemma IdxOfCoords(g: Grid, i: int)
    requires ValidGrid(g) && 0 <= i < CellTotal(g)
    ensures InGrid(g, Coords(g, i).0, Coords(g, i).1, Coords(g, i).2)
    ensures Idx(g, Coords(g, i).0, Coords(g, i).1, Coords(g, i).2) == i
  {
    var nx, ny := g.nx, g.ny;
    var row, x := i / nx, i % nx;
    var z, y := row / ny, row % ny;
    assert i == row * nx + x;
    assert row == z * ny + y;
    assert nx * ny * g.nz == nx * (ny * g.nz);
    QuotientBelow(i, nx, ny * g.nz);
    QuotientBelow(row, ny, g.nz);
    IdxHorner(g, x, y, z);
  }

  /** `IdxOfCoords` for every position at once. */
  lemma AllCoords(g: Grid)
    requires ValidGrid(g)
    ensures forall i :: 0 <= i < CellTotal(g) ==>
              InGrid(g, Coords(g, i).0, Coords(g, i).1, Coords(g, i).2)
              && Idx(g, Coords(g, i).0, Coords(g, i).1, Coords(g, i).2) == i
  {
    forall i | 0 <= i < CellTotal(g)
      ensures InGrid(g, Coords(g, i).0, Coords(g, i).1, Coords(g, i).2)
              && Idx(g, Coords(g, i).0, Coords(g, i).1, Coords(g, i).2) == i
    {
      IdxOfCoords(g, i);
    }
  }

  /** The number of occupied (non-zero) cells among the first `n` bytes. */
  function OccupiedIn(v: seq<bv8>, n: nat): (r: nat)
    requires n <= |v|
    ensures r <= n
  {
    if n == 0 then 0 else OccupiedIn(v, n - 1) + (if v[n - 1] != 0 then 1 else 0)
  }

  function Occupied(s: VoxelStock): nat {
    OccupiedIn(s.voxels, |s.voxels|)
  }

  /** A fresh stock is full: every cell counts as occupied. */
  lemma CreateIsFull(width: real, height: real, depth: real, voxelSize: real)
    requires voxelSize != 0.0
    ensures Occupied(Create(width, height, depth, voxelSize)) == CellTotal(Create(width, height, depth, voxelSize).grid)
  {
    var v := Create(width, height, depth, voxelSize).voxels;
    FullCount(v, |v|);
  }

  /** Among `n` non-zero bytes all `n` count as occupied. */
  lemma {:induction false} FullCount(v: seq<bv8>, n: nat)
    requires n <= |v| && forall i :: 0 <= i < n ==> v[i] != 0
    ensures OccupiedIn(v, n) == n
  {
    if n > 0 {
      FullCount(v, n - 1);
    }
  }

  /** Clearing cells never raises the count: if every byte of `w` is
      either cleared or the byte of `v`, `w` has at most as many occupied
      cells. */
  lemma {:induction false} OccupancyOnlyDrops(v: seq<bv8>, w: seq<bv8>, n: nat)
    requires |w| == |v| && n <= |v|
    requires forall i :: 0 <= i < n ==> w[i] == 0 || w[i] == v[i]
    ensures OccupiedIn(w, n) <= OccupiedIn(v, n)
  {
    if n > 0 {
      OccupancyOnlyDrops(v, w, n - 1);
    }
  }
}
