/** The rest-stock export (core/stock/index.js, `exportStockToAsciiStl`):
    the top face of every occupied cell, as two triangles facing +Z, in
    ASCII STL. How a coordinate is written as text is a parameter: the
    model does not fix the number-to-string conversion. */
module StockExport {
  import opened Vectors
  import opened Stock

  /** One triangle, its corners in the order they are written. */
  datatype Facet = Facet(a: Vec3, b: Vec3, c: Vec3)

  /** The lines of the file; vertex lines carry their point, the others are
      fixed text. */
  datatype StlLine = Header | FacetNormal | OuterLoop | VertexLine(v: Vec3) | EndLoop | EndFacet | Footer

  /** The top face of cell (x, y, z): the square at height `(z + 1) * vs`
      over the cell's footprint, split along its diagonal. */
  function CellFacets(g: Grid, x: int, y: int, z: int): seq<Facet> {
    var vs := g.voxelSize;
    var x0, y0 := x as real * vs, y as real * vs;
    var x1, y1 := x0 + vs, y0 + vs;
    var z1 := (z as real + 1.0) * vs;
    [Facet(Vec3(x0, y0, z1), Vec3(x1, y0, z1), Vec3(x1, y1, z1)),
     Facet(Vec3(x0, y0, z1), Vec3(x1, y1, z1), Vec3(x0, y1, z1))]
  }

  /** The facets of the occupied cells among the first `n` flat positions,
      in position order. */
  function FacetsUpTo(s: VoxelStock, n: nat): seq<Facet>
    requires Valid(s) && n <= |s.voxels|
  {
    if n == 0 then []
    else
      var c := Coords(s.grid, n - 1);
      FacetsUpTo(s, n - 1) + (if s.voxels[n - 1] != 0 then CellFacets(s.grid, c.0, c.1, c.2) else [])
  }

  /** The seven lines of one facet. */
  function FacetLines(f: Facet): seq<StlLine> {
    [FacetNormal, OuterLoop, VertexLine(f.a), VertexLine(f.b), VertexLine(f.c), EndLoop, EndFacet]
  }

  function AllFacetLines(fs: seq<Facet>): seq<StlLine> {
    if |fs| == 0 then [] else AllFacetLines(fs[..|fs| - 1]) + FacetLines(fs[|fs| - 1])
  }

  function ExportLines(s: VoxelStock): seq<StlLine>
    requires Valid(s)
  {
    [Header] + AllFacetLines(FacetsUpTo(s, |s.voxels|)) + [Footer]
  }

  const HeaderText: string := "solid reststock"
  const FooterText: string := "endsolid reststock"

  /** The text of one line; `num` writes a coordinate. */
  function LineText(l: StlLine, num: real -> string): string {
    match l
    case Header => HeaderText
    case FacetNormal => " facet normal 0 0 1"
    case OuterLoop => "  outer loop"
    case VertexLine(v) => "   vertex " + num(v.x) + " " + num(v.y) + " " + num(v.z)
    case EndLoop => "  endloop"
    case EndFacet => " endfacet"
    case Footer => FooterText
  }

  /** `lines.join('\n')`. */
  function Join(lines: seq<string>): string {
    if |lines| == 0 then ""
    else if |lines| == 1 then lines[0]
    else Join(lines[..|lines| - 1]) + "\n" + lines[|lines| - 1]
  }

  function Render(lines: seq<StlLine>, num: real -> string): string {
    Join(seq(|lines|, i requires 0 <= i < |lines| => LineText(lines[i], num)))
  }

  /** `exportStockToAsciiStl`: the facets, then the lines, then the
      text. */
  method ExportStockToAsciiStl(s: VoxelStock, num: real -> string) returns (text: string)
    requires Valid(s)
    ensures text == Render(ExportLines(s), num)
  {
    var tris := CollectFacets(s);
    var lines := [Header];
    var k := 0;
    while k < |tris|
      invariant 0 <= k <= |tris|
      invariant lines == [Header] + AllFacetLines(tris[..k])
    {
      assert tris[..k + 1][..k] == tris[..k];
      lines := lines + FacetLines(tris[k]);
      k := k + 1;
    }
    assert tris[..k] == tris;
    lines := lines + [Footer];
    text := Render(lines, num);
  }

  /** The three nested loops over z, y and x that collect the facets: they
      visit the cells in flat-position order. */
  method CollectFacets(s: VoxelStock) returns (tris: seq<Facet>)
    requires Valid(s)
    ensures tris == FacetsUpTo(s, |s.voxels|)
  {
    var g := s.grid;
    tris := [];
    var start := 0;
    var z := 0;
    while z < g.nz
      invariant 0 <= z <= g.nz
      invariant start == Idx(g, 0, 0, z) && start <= |s.voxels|
      invariant tris == FacetsUpTo(s, start)
    {
      var y := 0;
      while y < g.ny
        invariant 0 <= y <= g.ny
        invariant start == Idx(g, 0, y, z) && start <= |s.voxels|
        invariant tris == FacetsUpTo(s, start)
      {
        RowBounds(g, y, z);
        var row := CollectRow(s, y, z, start);
        tris := tris + row;
        start := start + g.nx;
        y := y + 1;
      }
      LayerEnd(g, z);
      z := z + 1;
    }
    LayerEnd(g, g.nz - 1);
  }

  /** The innermost loop, over the cells of row `y` of layer `z`, whose
      first cell sits at flat position `start`: it yields the facets that
      the row adds after those of the cells before it. */
  method CollectRow(s: VoxelStock, y: int, z: int, start: nat) returns (row: seq<Facet>)
    requires Valid(s) && 0 <= y < s.grid.ny && 0 <= z < s.grid.nz
    requires start == Idx(s.grid, 0, y, z) && start + s.grid.nx <= |s.voxels|
    ensures FacetsUpTo(s, start) + row == FacetsUpTo(s, start + s.grid.nx)
  {
    var g := s.grid;
    ghost var before := FacetsUpTo(s, start);
    row := [];
    assert before + row == before;
    var x := 0;
    while x < g.nx
      invariant 0 <= x <= g.nx
      invariant before + row == FacetsUpTo(s, start + x)
    {
      RowStep(s, x, y, z, start);
      if s.voxels[start + x] != 0 {
        var cell := CellFacets(g, x, y, z);
        assert before + (row + cell) == (before + row) + cell;
        row := row + cell;
      }
      x := x + 1;
    }
  }

  /** Cell `x` of the row adds its facets at flat position `start + x`. */
  lemma RowStep(s: VoxelStock, x: int, y: int, z: int, start: nat)
    requires Valid(s) && InGrid(s.grid, x, y, z)
    requires start == Idx(s.grid, 0, y, z) && start + s.grid.nx <= |s.voxels|
    ensures FacetsUpTo(s, start + x + 1)
            == FacetsUpTo(s, start + x) + (if s.voxels[start + x] != 0 then CellFacets(s.grid, x, y, z) else [])
  {
    assert Idx(s.grid, x, y, z) == start + x;
  }

  /** Row `y` of layer `z` fits in the array, and the next row starts
      right after it. */
  lemma RowBounds(g: Grid, y: int, z: int)
    requires ValidGrid(g) && 0 <= y < g.ny && 0 <= z < g.nz
    ensures Idx(g, 0, y, z) + g.nx <= CellTotal(g)
    ensures Idx(g, 0, y + 1, z) == Idx(g, 0, y, z) + g.nx
  {
    assert Idx(g, g.nx - 1, y, z) < CellTotal(g);
    RowEnd(g, y, z);
  }

  /** The position after the last cell of row `y` is the first of row
      `y + 1`. */
  lemma RowEnd(g: Grid, y: int, z: int)
    ensures Idx(g, g.nx, y, z) == Idx(g, 0, y + 1, z)
  {
    assert (y + 1) * g.nx == y * g.nx + g.nx;
  }

  /** The position after the last row of layer `z` is the first of layer
      `z + 1`, and after the last layer comes the end of the array. */
  lemma LayerEnd(g: Grid, z: int)
    ensures Idx(g, 0, g.ny, z) == Idx(g, 0, 0, z + 1)
    ensures Idx(g, 0, 0, g.nz) == CellTotal(g)
  {
    assert (z + 1) * g.nx * g.ny == z * g.nx * g.ny + g.nx * g.ny;
    assert g.nz * g.nx * g.ny == g.nx * g.ny * g.nz;
  }

  /** Two facets per occupied cell, seven lines per facet, a header and a
      footer. */
  lemma {:induction false} FacetsCount(s: VoxelStock, n: nat)
    requires Valid(s) && n <= |s.voxels|
    ensures |FacetsUpTo(s, n)| == 2 * OccupiedIn(s.voxels, n)
  {
    if n > 0 {
      FacetsCount(s, n - 1);
    }
  }

  lemma {:induction false} FacetLinesCount(fs: seq<Facet>)
    ensures |AllFacetLines(fs)| == 7 * |fs|
  {
    if |fs| > 0 {
      FacetLinesCount(fs[..|fs| - 1]);
    }
  }

  lemma ExportLinesShape(s: VoxelStock)
    requires Valid(s)
    ensures |ExportLines(s)| == 2 + 14 * Occupied(s)
    ensures ExportLines(s)[0] == Header && ExportLines(s)[|ExportLines(s)| - 1] == Footer
  {
    FacetsCount(s, |s.voxels|);
    FacetLinesCount(FacetsUpTo(s, |s.voxels|));
  }

  /** A fully cleared stock exports only the header and the footer. */
  lemma EmptyStockExport(s: VoxelStock)
    requires Valid(s) && forall i :: 0 <= i < |s.voxels| ==> s.voxels[i] == 0
    ensures ExportLines(s) == [Header, Footer]
  {
    ClearedCount(s.voxels, |s.voxels|);
    ExportLinesShape(s);
  }

  lemma {:induction false} ClearedCount(v: seq<bv8>, n: nat)
    requires n <= |v| && forall i :: 0 <= i < n ==> v[i] == 0
    ensures OccupiedIn(v, n) == 0
  {
    if n > 0 {
      ClearedCount(v, n - 1);
    }
  }

  /** Both triangles of a cell lie flat at the top of the cell and wind
      counter-clockwise seen from above, so the declared normal (0, 0, 1)
      is their true orientation when cells have positive size. */
  lemma CellFacetsFaceUp(g: Grid, x: int, y: int, z: int)
    ensures forall f :: f in CellFacets(g, x, y, z) ==>
              f.a.z == f.b.z == f.c.z == (z as real + 1.0) * g.voxelSize
              && Cross(Sub(f.b, f.a), Sub(f.c, f.a)) == Vec3(0.0, 0.0, g.voxelSize * g.voxelSize)
  {
    var vs := g.voxelSize;
    var fs := CellFacets(g, x, y, z);
    assert Sub(fs[0].b, fs[0].a) == Vec3(vs, 0.0, 0.0) && Sub(fs[0].c, fs[0].a) == Vec3(vs, vs, 0.0);
    assert Sub(fs[1].b, fs[1].a) == Vec3(vs, vs, 0.0) && Sub(fs[1].c, fs[1].a) == Vec3(0.0, vs, 0.0);
  }

  /** The text begins with the header line and ends with the footer. */
  lemma {:induction false} JoinEnds(lines: seq<string>)
    requires |lines| >= 2
    ensures |Join(lines)| >= |lines[0]| && Join(lines)[..|lines[0]|] == lines[0]
    ensures |Join(lines)| >= |lines[|lines| - 1]|
    ensures Join(lines)[|Join(lines)| - |lines[|lines| - 1]|..] == lines[|lines| - 1]
    decreases |lines|
  {
    var init := lines[..|lines| - 1];
    if |lines| > 2 {
      JoinEnds(init);
    } else {
      assert init == [lines[0]];
    }
  }

  lemma RenderEnds(s: VoxelStock, num: real -> string)
    requires Valid(s)
    ensures var text := Render(ExportLines(s), num);
            |text| >= |HeaderText| && text[..|HeaderText|] == HeaderText
            && |text| >= |FooterText| && text[|text| - |FooterText|..] == FooterText
  {
    ExportLinesShape(s);
    var lines := ExportLines(s);
    var texts := seq(|lines|, i requires 0 <= i < |lines| => LineText(lines[i], num));
    JoinEnds(texts);
  }
}
