/** The terrain mesh of the first exercise: a (gridX + 1) x (gridY + 1)
    lattice of vertices, column by column, two triangles per grid cell, a
    colour band per height, and for every vertex the four clamped
    neighbours its surface normal is computed from.

    Heights come from Perlin noise, which is a parameter here.  The float
    normal itself is not computed: a vertex's `normal` field records the
    four neighbour indices the normal is derived from. */
module Terrain {

  // ---------------------------------------------------------------------
  // Colour bands

  datatype Rgb = Rgb(r: real, g: real, b: real)

  /** ints_to_rgb: 0..255 channel values scaled to 0..1. */
  function IntsToRgb(r: real, g: real, b: real): Rgb {
    Rgb(r / 255.0, g / 255.0, b / 255.0)
  }

  const Water: Rgb := IntsToRgb(0.0, 117.0, 162.0)
  const Sand: Rgb := IntsToRgb(234.0, 248.0, 191.0)
  const Grass: Rgb := IntsToRgb(105.0, 143.0, 63.0)
  const Mountain: Rgb := IntsToRgb(88.0, 75.0, 83.0)
  const Snow: Rgb := IntsToRgb(255.0, 255.0, 255.0)

  /** The bands from lowest to highest, and the heights that separate them. */
  const Palette: seq<Rgb> := [Water, Sand, Grass, Mountain, Snow]
  const Boundaries: seq<real> := [-0.15, -0.05, 0.1, 0.3]

  /** How many of the (increasing) boundaries lie at or below z. */
  function Passed(bounds: seq<real>, z: real): (n: nat)
    ensures n <= |bounds|
  {
    if bounds == [] then 0
    else (if bounds[0] <= z then 1 else 0) + Passed(bounds[1..], z)
  }

  /** get_color: the colour of the band that height z falls in.  A step
      function of z: band k is chosen exactly when k boundaries lie at or
      below z, so everything from 0.3 up is snow. */
  function GetColor(z: real): Rgb {
    if z < -0.15 then Water
    else if z < -0.05 then Sand
    else if z < 0.1 then Grass
    else if z < 0.3 then Mountain
    else Snow
  }

  /** get_color picks band k exactly when k boundaries lie at or below z. */
  lemma GetColorIsBand(z: real)
    ensures GetColor(z) == Palette[Passed(Boundaries, z)]
  {
    var b1: seq<real> := [-0.05, 0.1, 0.3];
    var b2: seq<real> := [0.1, 0.3];
    var b3: seq<real> := [0.3];
    assert Boundaries[1..] == b1 && b1[1..] == b2 && b2[1..] == b3 && b3[1..] == [];
    assert Passed(b3, z) == if 0.3 <= z then 1 else 0;
    assert Passed(b2, z) == (if 0.1 <= z then 1 else 0) + Passed(b3, z);
    assert Passed(b1, z) == (if -0.05 <= z then 1 else 0) + Passed(b2, z);
    assert Passed(Boundaries, z) == (if -0.15 <= z then 1 else 0) + Passed(b1, z);
  }

  /** Every height gets one of the five colours; snow is exactly the
      heights from 0.3 up, water exactly those below -0.15. */
  lemma GetColorExtremes(z: real)
    ensures GetColor(z) in Palette
    ensures z >= 0.3 <==> GetColor(z) == Snow
    ensures z < -0.15 <==> GetColor(z) == Water
  {
  }

  /** The colour band never falls as the height grows. */
  lemma GetColorMonotone(z1: real, z2: real)
    requires z1 <= z2
    ensures GetColor(z1) == Palette[Passed(Boundaries, z1)]
    ensures GetColor(z2) == Palette[Passed(Boundaries, z2)]
    ensures Passed(Boundaries, z1) <= Passed(Boundaries, z2)
  {
    GetColorIsBand(z1);
    GetColorIsBand(z2);
    PassedMonotone(Boundaries, z1, z2);
  }

  /** The band index never decreases as the height grows. */
  lemma {:induction false} PassedMonotone(bounds: seq<real>, z1: real, z2: real)
    requires z1 <= z2
    ensures Passed(bounds, z1) <= Passed(bounds, z2)
  {
    if bounds != [] {
      PassedMonotone(bounds[1..], z1, z2);
    }
  }

  /** The five colours are pairwise distinct, so the colour identifies the band. */
  lemma PaletteDistinct()
    ensures forall i, j :: 0 <= i < j < |Palette| ==> Palette[i] != Palette[j]
  {
  }

  /** Each channel of every band colour lies in [0, 1]. */
  lemma PaletteInUnitRange()
    ensures forall i :: 0 <= i < |Palette| ==>
      0.0 <= Palette[i].r <= 1.0 && 0.0 <= Palette[i].g <= 1.0 && 0.0 <= Palette[i].b <= 1.0
  {
  }

  // ---------------------------------------------------------------------
  // Vertex layout

  /** The stored position of grid vertex (x, y): vertices are pushed one
      column at a time, `rows` = gridY + 1 of them per column. */
  function Index(x: int, y: int, rows: int): int {
    y + x * rows
  }

  /** The data a vertex's normal is computed from: its clamped neighbours. */
  datatype Normal = Unset | FromNeighbours(up: int, down: int, left: int, right: int)

  /** A vertex: its grid coordinates (also its texture coordinates), its
      height and band colour, and its normal. */
  datatype Vertex = Vertex(x: int, y: int, height: real, color: Rgb, normal: Normal)

  function GridVertex(x: int, y: int, height: (int, int) -> real): Vertex {
    var z := height(x, y);
    Vertex(x, y, z, GetColor(z), Unset)
  }

  /** Rows 0 .. k - 1 of column x, in push order. */
  function ColumnVertices(x: int, k: nat, height: (int, int) -> real): (r: seq<Vertex>)
    ensures |r| == k
  {
    if k == 0 then [] else ColumnVertices(x, k - 1, height) + [GridVertex(x, k - 1, height)]
  }

  /** Columns 0 .. n - 1 of the vertex buffer, each of `rows` vertices. */
  function GridVertices(n: nat, rows: nat, height: (int, int) -> real): seq<Vertex> {
    if n == 0 then [] else GridVertices(n - 1, rows, height) + ColumnVertices(n - 1, rows, height)
  }

  lemma {:induction false} ColumnVerticesAt(x: int, k: nat, height: (int, int) -> real, y: int)
    requires 0 <= y < k
    ensures ColumnVertices(x, k, height)[y] == GridVertex(x, y, height)
  {
    if y < k - 1 {
      ColumnVerticesAt(x, k - 1, height, y);
    }
  }

  /** Storing vertex (x, y) at Index(x, y) is a bijection between the grid
      and the positions 0 .. (gridX + 1) * rows - 1: division by `rows`
      recovers the column and the remainder the row. */
  lemma IndexDecode(x: int, y: int, rows: int)
    requires rows > 0 && x >= 0 && 0 <= y < rows
    ensures Index(x, y, rows) / rows == x && Index(x, y, rows) % rows == y
  {
    var i := Index(x, y, rows);
    var q, r := i / rows, i % rows;
    assert q * rows + r == x * rows + y;
    assert (q - x) * rows == y - r;
    if q > x {
      MulAtLeast(q - x, rows);
      assert false;
    } else if q < x {
      MulAtLeast(x - q, rows);
      assert false;
    }
  }

  /** Every grid vertex is stored inside the buffer. */
  lemma IndexInGrid(x: int, y: int, gridX: nat, gridY: nat)
    requires 0 <= x <= gridX && 0 <= y <= gridY
    ensures 0 <= Index(x, y, gridY + 1) < (gridX + 1) * (gridY + 1)
  {
    MulMonotone(x, gridX, gridY + 1);
    assert (gridX + 1) * (gridY + 1) == gridX * (gridY + 1) + gridY + 1;
  }

  /** Every position of the vertex buffer decodes to a column of the grid,
      and to the grid vertex stored there. */
  lemma IndexOfPosition(i: int, gridX: nat, gridY: nat)
    requires 0 <= i < (gridX + 1) * (gridY + 1)
    ensures 0 <= i / (gridY + 1) <= gridX
    ensures Index(i / (gridY + 1), i % (gridY + 1), gridY + 1) == i
  {
    var rows := gridY + 1;
    var q := i / rows;
    if q > gridX {
      MulMonotone(gridX + 1, q, rows);
      assert false;
    }
  }

  /** The buffer built column by column holds `rows` vertices per column. */
  lemma {:induction false} GridVerticesLength(n: nat, rows: nat, height: (int, int) -> real)
    ensures |GridVertices(n, rows, height)| == n * rows
  {
    if n > 0 {
      GridVerticesLength(n - 1, rows, height);
      assert n * rows == (n - 1) * rows + rows;
    }
  }

  /** ... and vertex (x, y) at position Index(x, y). */
  lemma {:induction false} GridVerticesAt(n: nat, rows: nat, height: (int, int) -> real, x: int, y: int)
    requires 0 <= x < n && 0 <= y < rows
    ensures 0 <= Index(x, y, rows) < |GridVertices(n, rows, height)|
    ensures GridVertices(n, rows, height)[Index(x, y, rows)] == GridVertex(x, y, height)
  {
    var before, last := GridVertices(n - 1, rows, height), ColumnVertices(n - 1, rows, height);
    assert GridVertices(n, rows, height) == before + last;
    GridVerticesLength(n - 1, rows, height);
    var i := Index(x, y, rows);
    if x < n - 1 {
      GridVerticesAt(n - 1, rows, height, x, y);
      assert i < |before|;
    } else {
      assert i == |before| + y;
      ColumnVerticesAt(n - 1, rows, height, y);
    }
  }

  // ---------------------------------------------------------------------
  // Triangle indices

  /** The six indices emitted for the cell whose top-right corner is
      vertex (x, y): corners a (current), b (one down), d (one left) and c
      (one left, one down), as triangles (c, d, b) and (d, a, b). */
  function CellIndices(x: int, y: int, rows: int): seq<int> {
    var a := y + x * rows;
    var b := a - 1;
    var c := y + x * rows - rows - 1;
    var d := a - rows;
    [c, d, b, d, a, b]
  }

  /** The indices of the cells (x, 1) .. (x, k) of column x. */
  function ColumnIndices(x: int, k: nat, rows: int): (r: seq<int>)
    ensures |r| == 6 * k
  {
    if k == 0 then [] else ColumnIndices(x, k - 1, rows) + CellIndices(x, k, rows)
  }

  /** The index buffer after columns 1 .. n: six indices per cell with
      x > 0 and y > 0, column by column. */
  function MeshIndices(n: nat, gridY: nat): seq<int> {
    if n == 0 then [] else MeshIndices(n - 1, gridY) + ColumnIndices(n, gridY, gridY + 1)
  }

  /** Six indices per cell, gridY cells per column. */
  lemma {:induction false} MeshLength(n: nat, gridY: nat)
    ensures |MeshIndices(n, gridY)| == 6 * n * gridY
  {
    if n > 0 {
      MeshLength(n - 1, gridY);
      assert 6 * n * gridY == 6 * (n - 1) * gridY + 6 * gridY;
    }
  }

  /** The corners of cell (x, y) are the grid vertices (x - 1, y - 1),
      (x - 1, y), (x, y - 1) and (x, y): the two triangles cover exactly
      the unit square left of and below vertex (x, y). */
  lemma CellCorners(x: int, y: int, rows: int)
    ensures CellIndices(x, y, rows) == [
      Index(x - 1, y - 1, rows), Index(x - 1, y, rows), Index(x, y - 1, rows),
      Index(x - 1, y, rows), Index(x, y, rows), Index(x, y - 1, rows)]
  {
    assert (x - 1) * rows == x * rows - rows;
  }

  /** Every index of a cell with x >= 1 and 1 <= y < rows lies between 0
      and the index of the cell's own vertex (x, y), which has just been
      pushed. */
  lemma CellIndicesInRange(x: int, y: int, rows: int)
    requires 1 <= x && 1 <= y < rows
    ensures forall k :: 0 <= k < |CellIndices(x, y, rows)| ==>
      0 <= CellIndices(x, y, rows)[k] <= Index(x, y, rows)
  {
    CellCorners(x, y, rows);
    MulMonotone(0, x - 1, rows);
  }

  lemma {:induction false} ColumnInRange(x: int, k: nat, rows: int)
    requires 1 <= x && k < rows
    ensures forall j :: 0 <= j < |ColumnIndices(x, k, rows)| ==>
      0 <= ColumnIndices(x, k, rows)[j] <= Index(x, k, rows)
  {
    if k > 0 {
      ColumnInRange(x, k - 1, rows);
      CellIndicesInRange(x, k, rows);
      var before := ColumnIndices(x, k - 1, rows);
      var cell := CellIndices(x, k, rows);
      var column := ColumnIndices(x, k, rows);
      assert column == before + cell;
      forall j | 0 <= j < |column|
        ensures 0 <= column[j] <= Index(x, k, rows)
      {
        if j < |before| {
          assert column[j] == before[j];
        } else {
          assert column[j] == cell[j - |before|];
        }
      }
    }
  }

  /** Every index in the buffer after n columns names one of the vertices
      of those columns. */
  lemma {:induction false} MeshInRange(n: nat, gridX: nat, gridY: nat)
    requires n <= gridX
    ensures forall j :: 0 <= j < |MeshIndices(n, gridY)| ==>
      0 <= MeshIndices(n, gridY)[j] < (n + 1) * (gridY + 1)
  {
    if n > 0 {
      var rows := gridY + 1;
      MeshInRange(n - 1, gridX, gridY);
      ColumnInRange(n, gridY, rows);
      IndexInGrid(n, gridY, n, gridY);
      MulMonotone(n, n + 1, rows);
      var before := MeshIndices(n - 1, gridY);
      var column := ColumnIndices(n, gridY, rows);
      var mesh := MeshIndices(n, gridY);
      assert mesh == before + column;
      forall j | 0 <= j < |mesh|
        ensures 0 <= mesh[j] < (n + 1) * rows
      {
        if j < |before| {
          assert mesh[j] == before[j];
        } else {
          assert mesh[j] == column[j - |before|];
        }
      }
    }
  }

  /** One pass of the inner loop of TerrainApplication::Initialize: the
      vertices of column x, and for x > 0 the two triangles of each cell
      whose top-right corner is one of them. */
  method PushColumn(x: nat, gridY: nat, height: (int, int) -> real, vertices0: seq<Vertex>, indices0: seq<int>)
    returns (vertices: seq<Vertex>, indices: seq<int>)
    ensures vertices == vertices0 + ColumnVertices(x, gridY + 1, height)
    ensures indices == if x == 0 then indices0 else indices0 + ColumnIndices(x, gridY, gridY + 1)
  {
    var rowCount := gridY + 1;
    vertices, indices := vertices0, indices0;
    var y := 0;
    while y < rowCount
      invariant 0 <= y <= rowCount
      invariant vertices == vertices0 + ColumnVertices(x, y, height)
      invariant x == 0 ==> indices == indices0
      invariant x > 0 ==> indices == indices0 + ColumnIndices(x, if y == 0 then 0 else y - 1, rowCount)
    {
      var z := height(x, y);
      vertices := vertices + [Vertex(x, y, z, GetColor(z), Unset)];
      assert vertices == vertices0 + ColumnVertices(x, y + 1, height);
      if x > 0 && y > 0 {
        var a := y + x * (gridY + 1);
        var b := a - 1;
        var c := y + x * (gridY + 1) - rowCount - 1;
        var d := a - rowCount;
        assert [c, d, b, d, a, b] == CellIndices(x, y, rowCount);
        indices := indices + [c, d, b, d, a, b];
        assert indices == indices0 + ColumnIndices(x, y, rowCount);
      }
      y := y + 1;
    }
  }

  /** The vertex and index loops of TerrainApplication::Initialize. */
  method BuildGrid(gridX: nat, gridY: nat, height: (int, int) -> real)
    returns (vertices: seq<Vertex>, indices: seq<int>)
    ensures |vertices| == (gridX + 1) * (gridY + 1)
    ensures forall i :: 0 <= i < |vertices| ==>
      vertices[i] == GridVertex(i / (gridY + 1), i % (gridY + 1), height)
    ensures indices == MeshIndices(gridX, gridY)
    ensures forall k :: 0 <= k < |indices| ==> 0 <= indices[k] < |vertices|
  {
    var columnCount := gridX + 1;
    var rowCount := gridY + 1;
    vertices, indices := [], [];
    var x := 0;
    while x < columnCount
      invariant 0 <= x <= columnCount
      invariant vertices == GridVertices(x, rowCount, height)
      invariant indices == MeshIndices(if x == 0 then 0 else x - 1, gridY)
    {
      vertices, indices := PushColumn(x, gridY, height, vertices, indices);
      x := x + 1;
    }
    GridVerticesLength(columnCount, rowCount, height);
    forall i | 0 <= i < |vertices|
      ensures vertices[i] == GridVertex(i / rowCount, i % rowCount, height)
    {
      IndexOfPosition(i, gridX, gridY);
      GridVerticesAt(columnCount, rowCount, height, i / rowCount, i % rowCount);
    }
    MeshInRange(gridX, gridX, gridY);
  }

  // ---------------------------------------------------------------------
  // Neighbours for the normals

  /** The neighbours of vertex `index` used for its slopes: one row up and
      down, one column left and right, each replaced by `index` itself
      where it would leave the grid. */
  function Neighbours(index: int, rows: int, count: int): Normal
    requires rows > 0
  {
    var up := if index % rows == rows - 1 then index else index + 1;
    var down := if index % rows == 0 then index else index - 1;
    var left := if index < rows then index else index - rows;
    var right := if index > count - rows - 1 then index else index + rows;
    FromNeighbours(up, down, left, right)
  }

  function Min(a: int, b: int): int { if a <= b then a else b }
  function Max(a: int, b: int): int { if a >= b then a else b }

  /** In grid coordinates, the neighbours of (x, y) are (x, y +- 1) and
      (x +- 1, y), each clamped to the grid. */
  lemma NeighboursClamped(x: int, y: int, gridX: nat, gridY: nat)
    requires 0 <= x <= gridX && 0 <= y <= gridY
    ensures var rows := gridY + 1;
            Neighbours(Index(x, y, rows), rows, (gridX + 1) * rows)
              == FromNeighbours(Index(x, Min(y + 1, gridY), rows), Index(x, Max(y - 1, 0), rows),
                                Index(Max(x - 1, 0), y, rows), Index(Min(x + 1, gridX), y, rows))
  {
    var rows := gridY + 1;
    IndexDecode(x, y, rows);
    assert (x - 1) * rows == x * rows - rows;
    assert (x + 1) * rows == x * rows + rows;
    assert (gridX + 1) * rows == gridX * rows + rows;
    if x >= 1 {
      MulAtLeast(x, rows);
    }
    if x < gridX {
      MulMonotone(x + 1, gridX, rows);
    }
  }

  /** All four neighbours of a vertex are vertices. */
  lemma NeighboursInRange(i: int, gridX: nat, gridY: nat)
    requires 0 <= i < (gridX + 1) * (gridY + 1)
    ensures var n := Neighbours(i, gridY + 1, (gridX + 1) * (gridY + 1));
            var count := (gridX + 1) * (gridY + 1);
            && 0 <= n.up < count && 0 <= n.down < count
            && 0 <= n.left < count && 0 <= n.right < count
  {
    var rows := gridY + 1;
    IndexOfPosition(i, gridX, gridY);
    var x, y := i / rows, i % rows;
    NeighboursClamped(x, y, gridX, gridY);
    IndexInGrid(x, Min(y + 1, gridY), gridX, gridY);
    IndexInGrid(x, Max(y - 1, 0), gridX, gridY);
    IndexInGrid(Max(x - 1, 0), y, gridX, gridY);
    IndexInGrid(Min(x + 1, gridX), y, gridX, gridY);
  }

  /** With at least one cell in each direction the two vertices of each
      slope quotient differ, so neither denominator is a vertex minus itself. */
  lemma NeighboursDistinct(i: int, gridX: nat, gridY: nat)
    requires 0 <= i < (gridX + 1) * (gridY + 1)
    ensures var n := Neighbours(i, gridY + 1, (gridX + 1) * (gridY + 1));
            (gridX >= 1 ==> n.left != n.right) && (gridY >= 1 ==> n.up != n.down)
  {
    var rows := gridY + 1;
    IndexOfPosition(i, gridX, gridY);
    var x, y := i / rows, i % rows;
    NeighboursClamped(x, y, gridX, gridY);
    if gridX >= 1 {
      IndexDecode(Max(x - 1, 0), y, rows);
      IndexDecode(Min(x + 1, gridX), y, rows);
    }
  }

  /** One pass of the inner neighbour loop: the normals of column x. */
  method SetColumnNormals(vertices: array<Vertex>, x: nat, gridX: nat, gridY: nat)
    requires vertices.Length == (gridX + 1) * (gridY + 1) && x <= gridX
    modifies vertices
    ensures forall i :: 0 <= i < vertices.Length ==>
      vertices[i] == if x * (gridY + 1) <= i < x * (gridY + 1) + gridY + 1
                     then old(vertices[i]).(normal := Neighbours(i, gridY + 1, vertices.Length))
                     else old(vertices[i])
  {
    var rowCount := gridY + 1;
    var vertexCount := vertices.Length;
    ghost var start := x * rowCount;
    MulMonotone(x + 1, gridX + 1, rowCount);
    var y := 0;
    while y < rowCount
      invariant 0 <= y <= rowCount
      invariant forall i :: 0 <= i < vertexCount ==>
        vertices[i] == if start <= i < start + y
                       then old(vertices[i]).(normal := Neighbours(i, rowCount, vertexCount))
                       else old(vertices[i])
    {
      var index := y + (x * rowCount);
      vertices[index] := vertices[index].(normal := Neighbours(index, rowCount, vertexCount));
      y := y + 1;
    }
  }

  /** The neighbour loop of TerrainApplication::Initialize, writing each
      vertex's normal in place. */
  method SetNormals(vertices: array<Vertex>, gridX: nat, gridY: nat)
    requires vertices.Length == (gridX + 1) * (gridY + 1)
    modifies vertices
    ensures forall i :: 0 <= i < vertices.Length ==>
      vertices[i] == old(vertices[i]).(normal := Neighbours(i, gridY + 1, vertices.Length))
  {
    var columnCount := gridX + 1;
    var rowCount := gridY + 1;
    var vertexCount := vertices.Length;
    ghost var done := 0;
    var x := 0;
    while x < columnCount
      invariant 0 <= x <= columnCount && done == x * rowCount
      invariant forall i :: 0 <= i < vertexCount ==>
        vertices[i] == if i < done
                       then old(vertices[i]).(normal := Neighbours(i, rowCount, vertexCount))
                       else old(vertices[i])
    {
      SetColumnNormals(vertices, x, gridX, gridY);
      done := done + rowCount;
      x := x + 1;
    }
    MulMonotone(x, columnCount, rowCount);
  }

  /** Both loops of TerrainApplication::Initialize: the vertex buffer, with
      every normal set from its clamped neighbours, and the index buffer
      whose 6 * gridX * gridY entries glDrawElements draws. */
  method Initialize(gridX: nat, gridY: nat, height: (int, int) -> real)
    returns (vertices: seq<Vertex>, indices: seq<int>)
    ensures |vertices| == (gridX + 1) * (gridY + 1)
    ensures forall i :: 0 <= i < |vertices| ==>
      vertices[i] == GridVertex(i / (gridY + 1), i % (gridY + 1), height)
                       .(normal := Neighbours(i, gridY + 1, |vertices|))
    ensures |indices| == 2 * 3 * gridX * gridY
    ensures indices == MeshIndices(gridX, gridY)
    ensures forall k :: 0 <= k < |indices| ==> 0 <= indices[k] < |vertices|
  {
    var built;
    built, indices := BuildGrid(gridX, gridY, height);
    var buffer := new Vertex[|built|](i requires 0 <= i < |built| => built[i]);
    SetNormals(buffer, gridX, gridY);
    vertices := buffer[..];
    MeshLength(gridX, gridY);
  }

  // ---------------------------------------------------------------------
  // Arithmetic helpers

  /** A positive multiple of a non-negative number is at least that number. */
  lemma MulAtLeast(a: int, b: int)
    requires a >= 1 && b >= 0
    ensures a * b >= b
  {
    assert a * b == b + (a - 1) * b;
  }

  /** Multiplying by a non-negative number preserves order. */
  lemma MulMonotone(a: int, c: int, b: int)
    requires 0 <= a <= c && b >= 0
    ensures a * b <= c * b
  {
    assert c * b == a * b + (c - a) * b;
  }
}
