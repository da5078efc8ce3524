/**
  The mesh generator: a literal unit box, and a grid built row by row with
  nested loops.  Only the integer side is modelled exactly: vertex and index
  lists, counts, byte sizes and the draw-argument table.
 */
module MeshGeneration {
  import opened Gpu
  import opened Meshes

  const INT32_MIN: int := -0x8000_0000
  const INT32_LIMIT: int := 0x8000_0000

  function Pos(x: int): nat {
    if x > 0 then x else 0
  }

  /** C++ integer division by two, which truncates toward zero. */
  function TruncHalf(x: int): int {
    if x >= 0 then x / 2 else -((-x) / 2)
  }

  /** Mesh() with the fields both generators fill in. */
  function Assemble(name: string, vertices: seq<Vertex>, indices: seq<nat>): (m: Mesh)
    ensures WellFormed(m)
    ensures m.name == name && m.vertices == vertices && m.indices32 == indices
    ensures m.cbPerObjectIndex == DefaultMesh().cbPerObjectIndex && m.world == DefaultMesh().world
    ensures m.vertexBufferGpu == Null && m.indexBufferGpu == Null
  {
    DefaultMesh().(
      name := name,
      vertices := vertices,
      indices32 := indices,
      vertexByteStride := VertexByteSize,
      vertexBufferByteSize := |vertices| * VertexByteSize,
      indexFormat := R32Uint,
      indexBufferByteSize := |indices| * IndexByteSize,
      drawArgs := map[name := Submesh(|indices|, 0, 0)])
  }

  /** Not implemented in the source: both return a default mesh. */
  function GenerateTriangle(v1: Float3, v2: Float3, v3: Float3, name: string): (m: Mesh)
    ensures m == DefaultMesh() && m.vertices == [] && m.indices32 == [] && m.name == ""
  {
    DefaultMesh()
  }

  function GenerateUnitCircle(name: string): (m: Mesh)
    ensures m == DefaultMesh() && m.drawArgs == map[]
  {
    DefaultMesh()
  }

  // ---------------------------------------------------------------------
  // The unit box.

  const BoxVertices: seq<Vertex> := [
    Vertex(Float3(-1, -1, -1), White),
    Vertex(Float3(-1, 1, -1), Black),
    Vertex(Float3(1, 1, -1), Red),
    Vertex(Float3(1, -1, -1), Green),
    Vertex(Float3(-1, -1, 1), Blue),
    Vertex(Float3(-1, 1, 1), Yellow),
    Vertex(Float3(1, 1, 1), Cyan),
    Vertex(Float3(1, -1, 1), Magenta)]

  /** A corner of the box, 0..7. */
  type Corner = x: nat | x < 8

  /** Two clockwise triangles per face: front, back, left, right, top, bottom. */
  const BoxIndices: seq<Corner> := [
    0, 1, 2, 0, 2, 3,
    4, 6, 5, 4, 7, 6,
    4, 5, 1, 4, 1, 0,
    3, 2, 6, 3, 6, 7,
    1, 5, 6, 1, 6, 2,
    4, 0, 3, 4, 3, 7]

  /** The unit box: 8 vertices, 36 indices, a 480-byte vertex buffer and a
      144-byte index buffer, drawn as one submesh under its own name. */
  function GenerateUnitBox(name: string): (m: Mesh)
    ensures WellFormed(m)
    ensures m.name == name && |m.vertices| == 8 && |m.indices32| == 36
    ensures m.vertexBufferByteSize == 480 && m.indexBufferByteSize == 144
    ensures m.drawArgs == map[name := Submesh(36, 0, 0)]
    ensures m.cbPerObjectIndex == DefaultMesh().cbPerObjectIndex && m.world == DefaultMesh().world
  {
    Assemble(name, BoxVertices, BoxIndices)
  }

  /** The box's vertices are the eight corners of the cube [-1, 1]^3, each once. */
  lemma BoxVerticesAreCubeCorners(name: string)
    ensures var v := GenerateUnitBox(name).vertices;
      && (forall k :: 0 <= k < 8 ==> v[k].position.x in {-1, 1} && v[k].position.y in {-1, 1} && v[k].position.z in {-1, 1})
      && (forall i, j :: 0 <= i < j < 8 ==> v[i].position != v[j].position)
  {
  }

  /** Every box index names a vertex, and every vertex is used. */
  lemma BoxIndicesCoverVertices(name: string)
    ensures IndicesInRange(GenerateUnitBox(name))
    ensures forall v :: 0 <= v < 8 ==> v in GenerateUnitBox(name).indices32
  {
    var idx := GenerateUnitBox(name).indices32;
    assert idx == BoxIndices;
    forall v | 0 <= v < 8
      ensures v in idx
    {
      var firstUse := [0, 1, 2, 5, 6, 8, 7, 10][v];
      assert idx[firstUse] == v;
    }
  }

  // ---------------------------------------------------------------------
  // The grid: what the two nested loops push, as recursive definitions.

  /** The vertex pushed at (row, col), both counted from 1. */
  function GridVertex(width: int, length: int, row: int, col: int): Vertex {
    Vertex(Float3(TruncHalf(-width) + row, -1, TruncHalf(-length) + col),
           if (col * row) % 2 == 0 then Black else White)
  }

  /** The first `n` vertices of row `row`. */
  function VertexRow(width: int, length: int, row: int, n: nat): (r: seq<Vertex>)
    ensures |r| == n
  {
    if n == 0 then [] else VertexRow(width, length, row, n - 1) + [GridVertex(width, length, row, n)]
  }

  /** Rows 1..rows of the vertex list. */
  function VertexRows(width: int, length: int, rows: nat): seq<Vertex> {
    if rows == 0 then [] else VertexRows(width, length, rows - 1) + VertexRow(width, length, rows, Pos(length))
  }

  function GridVertices(width: int, length: int): seq<Vertex> {
    VertexRows(width, length, Pos(width))
  }

  /** The vertex number `row * pitch + col`: with the row pitch `pitch`. */
  function TileNumber(pitch: nat, row: nat, col: nat): nat {
    row * pitch + col
  }

  /** The six indices of cell (row, col): tile, above-right, above, then
      tile, next, above-right. */
  function CellIndices(pitch: nat, row: nat, col: nat): seq<nat> {
    var tile := TileNumber(pitch, row, col);
    var above := TileNumber(pitch, row + 1, col);
    var aboveRight := TileNumber(pitch, row + 1, col + 1);
    var next := TileNumber(pitch, row, col + 1);
    [tile, aboveRight, above] + [tile, next, aboveRight]
  }

  /** The indices of the first `n` cells of row `row`. */
  function IndexRow(pitch: nat, row: nat, n: nat): (r: seq<nat>)
    ensures |r| == 6 * n
  {
    if n == 0 then [] else IndexRow(pitch, row, n - 1) + CellIndices(pitch, row, n - 1)
  }

  /** Pushing a cell's two triangles onto a row extends the row by that cell. */
  lemma AppendCell(prefix: seq<nat>, pitch: nat, row: nat, col: nat)
    ensures var t := CellIndices(pitch, row, col);
      prefix + IndexRow(pitch, row, col) + t[..3] + t[3..] == prefix + IndexRow(pitch, row, col + 1)
  {
    var t := CellIndices(pitch, row, col);
    assert t[..3] + t[3..] == t;
  }

  /** The indices of cell rows 0..rows-1, for `cols` cells per row. */
  function IndexRows(pitch: nat, cols: nat, rows: nat): seq<nat> {
    if rows == 0 then [] else IndexRows(pitch, cols, rows - 1) + IndexRow(pitch, rows - 1, cols)
  }

  /** The index list as the source computes it, with row pitch `width`. */
  function GridIndices(width: int, length: int): seq<nat> {
    IndexRows(Pos(width), Pos(length - 1), Pos(width - 1))
  }

  /** No signed 32-bit overflow in the loop bounds, the index arithmetic or
      the byte sizes. */
  ghost predicate GridFitsInt32(width: int, length: int) {
    && INT32_MIN <= width < INT32_LIMIT - 1
    && INT32_MIN <= length < INT32_LIMIT - 1
    && Pos(width) * Pos(length) * VertexByteSize < INT32_LIMIT
    && Pos(width) * (Pos(width) + Pos(length)) < INT32_LIMIT
  }

  /** GenerateGrid: `width` rows of `length` vertices, then two triangles per
      cell of the (width-1) x (length-1) cells.  Each loop nest is a method of
      its own below. */
  method GenerateGrid(name: string, width: int, length: int) returns (m: Mesh)
    requires GridFitsInt32(width, length)
    ensures WellFormed(m)
    ensures m.name == name
    ensures m.vertices == GridVertices(width, length)
    ensures m.indices32 == GridIndices(width, length)
    ensures m.cbPerObjectIndex == DefaultMesh().cbPerObjectIndex && m.world == DefaultMesh().world
  {
    var vertices := ComputeGridVertices(width, length);
    var indices := ComputeGridIndices(width, length);
    m := Assemble(name, vertices, indices);
  }

  /** The vertex loop nest: rows 1..width, columns 1..length. */
  method ComputeGridVertices(width: int, length: int) returns (vertices: seq<Vertex>)
    requires GridFitsInt32(width, length)
    ensures vertices == GridVertices(width, length)
  {
    vertices := [];
    var row := 1;
    while row < width + 1
      invariant 1 <= row <= Pos(width) + 1
      invariant vertices == VertexRows(width, length, row - 1)
    {
      var col := 1;
      while col < length + 1
        invariant 1 <= col <= Pos(length) + 1
        invariant vertices == VertexRows(width, length, row - 1) + VertexRow(width, length, row, col - 1)
      {
        vertices := vertices + [GridVertex(width, length, row, col)];
        col := col + 1;
      }
      row := row + 1;
    }
  }

  /** The index loop nest: cell rows 0..width-2, cell columns 0..length-2. */
  method ComputeGridIndices(width: int, length: int) returns (indices: seq<nat>)
    requires GridFitsInt32(width, length)
    ensures indices == GridIndices(width, length)
  {
    indices := [];
    var row := 0;
    while row < width - 1
      invariant 0 <= row <= Pos(width - 1)
      invariant indices == IndexRows(Pos(width), Pos(length - 1), row)
    {
      var col := 0;
      while col < length - 1
        invariant 0 <= col <= Pos(length - 1)
        invariant indices == IndexRows(Pos(width), Pos(length - 1), row) + IndexRow(Pos(width), row, col)
      {
        var tileNum := TileNumber(width, row, col);
        var aboveTileNum := TileNumber(width, row + 1, col);
        var aboveRightTileNum := TileNumber(width, row + 1, col + 1);
        var nextTileNum := TileNumber(width, row, col + 1);
        AppendCell(IndexRows(Pos(width), Pos(length - 1), row), width, row, col);
        indices := indices + [tileNum, aboveRightTileNum, aboveTileNum];
        indices := indices + [tileNum, nextTileNum, aboveRightTileNum];
        col := col + 1;
      }
      row := row + 1;
    }
  }

  // ---------------------------------------------------------------------
  // Properties of the grid.

  lemma {:induction false} VertexRowsLength(width: int, length: int, rows: nat)
    ensures |VertexRows(width, length, rows)| == rows * Pos(length)
  {
    if rows > 0 {
      VertexRowsLength(width, length, rows - 1);
    }
  }

  /** The vertex list has width * length entries. */
  lemma GridVertexCount(width: int, length: int)
    ensures |GridVertices(width, length)| == Pos(width) * Pos(length)
  {
    VertexRowsLength(width, length, Pos(width));
  }

  lemma {:induction false} VertexRowAt(width: int, length: int, row: int, n: nat, col: nat)
    requires 1 <= col <= n
    ensures VertexRow(width, length, row, n)[col - 1] == GridVertex(width, length, row, col)
  {
    if col < n {
      VertexRowAt(width, length, row, n - 1, col);
    }
  }

  /** Earlier rows are a prefix of later ones. */
  lemma {:induction false} VertexRowsPrefix(width: int, length: int, row: nat, rows: nat)
    requires row <= rows
    ensures |VertexRows(width, length, row)| <= |VertexRows(width, length, rows)|
    ensures VertexRows(width, length, rows)[..|VertexRows(width, length, row)|] == VertexRows(width, length, row)
  {
    if row < rows {
      VertexRowsPrefix(width, length, row, rows - 1);
      var shorter := VertexRows(width, length, rows - 1);
      assert VertexRows(width, length, rows)[..|shorter|] == shorter;
    }
  }

  lemma VertexRowsAt(width: int, length: int, rows: nat, row: nat, col: nat)
    requires 1 <= row <= rows && 1 <= col <= Pos(length)
    ensures |VertexRows(width, length, row - 1)| + (col - 1) < |VertexRows(width, length, rows)|
    ensures VertexRows(width, length, rows)[|VertexRows(width, length, row - 1)| + (col - 1)] == GridVertex(width, length, row, col)
  {
    VertexRowsPrefix(width, length, row, rows);
    VertexRowAt(width, length, row, Pos(length), col);
    var k := |VertexRows(width, length, row - 1)| + (col - 1);
    assert VertexRows(width, length, row)[k] == GridVertex(width, length, row, col);
    assert VertexRows(width, length, rows)[..|VertexRows(width, length, row)|][k] == GridVertex(width, length, row, col);
  }

  /** Vertices are laid out row-major: the vertex of row r + 1, column c + 1
      sits at r * length + c. */
  lemma GridVertexAt(width: int, length: int, r: nat, c: nat)
    requires r < width && c < length
    ensures TileNumber(length, r, c) < |GridVertices(width, length)|
    ensures GridVertices(width, length)[TileNumber(length, r, c)] == GridVertex(width, length, r + 1, c + 1)
  {
    VertexRowsLength(width, length, r);
    VertexRowsAt(width, length, Pos(width), r + 1, c + 1);
  }

  lemma {:induction false} IndexRowsLength(pitch: nat, cols: nat, rows: nat)
    ensures |IndexRows(pitch, cols, rows)| == 6 * (rows * cols)
  {
    if rows > 0 {
      IndexRowsLength(pitch, cols, rows - 1);
      assert (rows - 1) * cols + cols == rows * cols;
    }
  }

  /** Six indices per cell: 6 * (width - 1) * (length - 1). */
  lemma GridIndexCount(width: int, length: int)
    ensures |GridIndices(width, length)| == 6 * (Pos(width - 1) * Pos(length - 1))
  {
    IndexRowsLength(Pos(width), Pos(length - 1), Pos(width - 1));
  }

  lemma {:induction false} IndexRowAt(pitch: nat, row: nat, n: nat, col: nat, j: nat)
    requires col < n && j < 6
    ensures IndexRow(pitch, row, n)[6 * col + j] == CellIndices(pitch, row, col)[j]
  {
    if col < n - 1 {
      IndexRowAt(pitch, row, n - 1, col, j);
    }
  }

  lemma {:induction false} IndexRowsPrefix(pitch: nat, cols: nat, row: nat, rows: nat)
    requires row <= rows
    ensures |IndexRows(pitch, cols, row)| <= |IndexRows(pitch, cols, rows)|
    ensures IndexRows(pitch, cols, rows)[..|IndexRows(pitch, cols, row)|] == IndexRows(pitch, cols, row)
  {
    if row < rows {
      IndexRowsPrefix(pitch, cols, row, rows - 1);
      var shorter := IndexRows(pitch, cols, rows - 1);
      assert IndexRows(pitch, cols, rows)[..|shorter|] == shorter;
    }
  }

  lemma IndexRowsAt(pitch: nat, cols: nat, rows: nat, row: nat, col: nat, j: nat)
    requires row < rows && col < cols && j < 6
    ensures |IndexRows(pitch, cols, row)| + 6 * col + j < |IndexRows(pitch, cols, rows)|
    ensures IndexRows(pitch, cols, rows)[|IndexRows(pitch, cols, row)| + 6 * col + j] == CellIndices(pitch, row, col)[j]
  {
    IndexRowsPrefix(pitch, cols, row + 1, rows);
    IndexRowAt(pitch, row, cols, col, j);
    var k := |IndexRows(pitch, cols, row)| + 6 * col + j;
    assert IndexRows(pitch, cols, row + 1)[k] == CellIndices(pitch, row, col)[j];
    assert IndexRows(pitch, cols, rows)[..|IndexRows(pitch, cols, row + 1)|][k] == CellIndices(pitch, row, col)[j];
  }

  /** Entry j of cell (row, col) of the index list, cells taken row by row. */
  lemma GridCellAt(width: int, length: int, row: nat, col: nat, j: nat)
    requires row < width - 1 && col < length - 1 && j < 6
    ensures 6 * (row * (length - 1) + col) + j < |GridIndices(width, length)|
    ensures GridIndices(width, length)[6 * (row * (length - 1) + col) + j] == CellIndices(width, row, col)[j]
  {
    var pitch: nat, cols: nat, rows: nat := width, length - 1, width - 1;
    assert GridIndices(width, length) == IndexRows(pitch, cols, rows);
    IndexRowsLength(pitch, cols, row);
    IndexRowsAt(pitch, cols, rows, row, col, j);
  }

  /** Every index a cell of row `row` pushes is below `bound` when the
      top-right corner of the row's last cell is. */
  lemma {:induction false} IndexRowBound(pitch: nat, row: nat, n: nat, bound: nat)
    requires n > 0 ==> (row + 1) * pitch + n < bound
    ensures forall k :: 0 <= k < |IndexRow(pitch, row, n)| ==> IndexRow(pitch, row, n)[k] < bound
  {
    if n > 0 {
      if n > 1 {
        IndexRowBound(pitch, row, n - 1, bound);
      }
      assert row * pitch <= (row + 1) * pitch;
    }
  }

  lemma {:induction false} IndexRowsBound(pitch: nat, cols: nat, rows: nat, bound: nat)
    requires rows > 0 && cols > 0 ==> rows * pitch + cols < bound
    ensures forall k :: 0 <= k < |IndexRows(pitch, cols, rows)| ==> IndexRows(pitch, cols, rows)[k] < bound
  {
    if rows > 0 {
      if rows > 1 && cols > 0 {
        assert (rows - 1) * pitch <= rows * pitch;
      }
      IndexRowsBound(pitch, cols, rows - 1, bound);
      IndexRowBound(pitch, rows - 1, cols, bound);
    }
  }

  /** The largest corner of a `rows` x `cols` block of cells with pitch `pitch`
      is below pitch * (rows + 1) when cols < pitch. */
  lemma CornerBelow(pitch: nat, cols: nat, rows: nat, vertexCount: nat)
    requires cols < pitch && vertexCount == (rows + 1) * pitch
    ensures rows * pitch + cols < vertexCount
  {
    assert (rows + 1) * pitch == rows * pitch + pitch;
  }

  /** With 1 <= width <= length every index names one of the width * length
      vertices, despite the row pitch being `width`. */
  lemma GridIndicesInRange(width: int, length: int)
    requires 1 <= width <= length
    ensures forall k :: 0 <= k < |GridIndices(width, length)| ==> GridIndices(width, length)[k] < width * length
  {
    if width > 1 {
      PitchBelowLength(width, length);
    }
    IndexRowsBound(Pos(width), Pos(length - 1), Pos(width - 1), width * length);
  }

  /** The top-right corner (width - 1) * width + length - 1 of the last cell
      is below width * length, because width <= length. */
  lemma PitchBelowLength(width: nat, length: nat)
    requires 1 <= width <= length
    ensures (width - 1) * width + (length - 1) < width * length
  {
    var d := length - width;
    assert width * length == width * width + width * d;
    assert width * d >= d;
  }

  /** The grid the engine builds: GenerateGrid("grid", 20, 25). */
  const EngineGridWidth: int := 20
  const EngineGridLength: int := 25

  /** The engine's grid has 500 vertices and 2736 indices, all in range. */
  lemma EngineGridShape()
    ensures GridFitsInt32(EngineGridWidth, EngineGridLength)
    ensures |GridVertices(EngineGridWidth, EngineGridLength)| == 500
    ensures |GridIndices(EngineGridWidth, EngineGridLength)| == 2736
    ensures forall k :: 0 <= k < |GridIndices(EngineGridWidth, EngineGridLength)| ==>
      GridIndices(EngineGridWidth, EngineGridLength)[k] < 500
  {
    GridVertexCount(EngineGridWidth, EngineGridLength);
    GridIndexCount(EngineGridWidth, EngineGridLength);
    GridIndicesInRange(EngineGridWidth, EngineGridLength);
  }

  // ---------------------------------------------------------------------
  // The row pitch: vertices have `length` per row, indices step by `width`.

  /** With more rows than columns the index list runs past the vertex list:
      GenerateGrid(_, 3, 2) has 6 vertices, yet its second cell row pushes 7. */
  lemma GridIndexOutOfRange()
    ensures |GridVertices(3, 2)| == 6
    ensures |GridIndices(3, 2)| > 7 && GridIndices(3, 2)[7] == 7
  {
    var w, l := 3, 2;
    GridVertexCount(w, l);
    GridCellAt(w, l, 1, 0, 1);
  }

  /** Whenever width + 2 <= length the first triangle is degenerate: its
      corners are the vertices of row 1, columns 1, width + 2 and width + 1,
      which lie on one straight line.  The engine's 20 x 25 grid is such a
      shape. */
  lemma GridFirstTriangleDegenerate(width: int, length: int)
    requires 2 <= width && width + 2 <= length
    ensures var idx, v := GridIndices(width, length), GridVertices(width, length);
      && |idx| > 2 && idx[0] == 0 && idx[1] == width + 1 && idx[2] == width
      && width + 1 < |v|
      && v[0] == GridVertex(width, length, 1, 1)
      && v[width + 1] == GridVertex(width, length, 1, width + 2)
      && v[width] == GridVertex(width, length, 1, width + 1)
      && v[0].position.x == v[width + 1].position.x == v[width].position.x
      && v[0].position.y == v[width + 1].position.y == v[width].position.y
  {
    GridCellAt(width, length, 0, 0, 0);
    GridCellAt(width, length, 0, 0, 1);
    GridCellAt(width, length, 0, 0, 2);
    GridVertexAt(width, length, 0, 0);
    GridVertexAt(width, length, 0, width + 1);
    GridVertexAt(width, length, 0, width);
  }

  /** The evidently intended index list: row pitch `length`, matching the
      row-major vertex layout. */
  function RowMajorGridIndices(width: int, length: int): seq<nat> {
    IndexRows(Pos(length), Pos(length - 1), Pos(width - 1))
  }

  /** With pitch `length` the index count is the source's, and every index is
      in range for every grid shape. */
  lemma RowMajorGridIndicesInRange(width: int, length: int)
    ensures |RowMajorGridIndices(width, length)| == |GridIndices(width, length)|
    ensures forall k :: 0 <= k < |RowMajorGridIndices(width, length)| ==>
      RowMajorGridIndices(width, length)[k] < Pos(width) * Pos(length)
  {
    IndexRowsLength(Pos(length), Pos(length - 1), Pos(width - 1));
    IndexRowsLength(Pos(width), Pos(length - 1), Pos(width - 1));
    if width > 1 && length > 1 {
      CornerBelow(length, length - 1, width - 1, width * length);
    }
    IndexRowsBound(Pos(length), Pos(length - 1), Pos(width - 1), Pos(width) * Pos(length));
  }

  lemma RowMajorCellAt(width: int, length: int, row: nat, col: nat, j: nat)
    requires row < width - 1 && col < length - 1 && j < 6
    ensures 6 * (row * (length - 1) + col) + j < |RowMajorGridIndices(width, length)|
    ensures RowMajorGridIndices(width, length)[6 * (row * (length - 1) + col) + j] == CellIndices(length, row, col)[j]
  {
    var pitch: nat, cols: nat, rows: nat := length, length - 1, width - 1;
    assert RowMajorGridIndices(width, length) == IndexRows(pitch, cols, rows);
    IndexRowsLength(pitch, cols, row);
    IndexRowsAt(pitch, cols, rows, row, col, j);
  }

  /** The grid row and column offsets of the six corners a cell pushes. */
  const CornerRow: seq<nat> := [0, 1, 1, 0, 0, 1]
  const CornerCol: seq<nat> := [0, 1, 0, 0, 1, 1]

  lemma CellCorner(pitch: nat, row: nat, col: nat, j: nat)
    requires j < 6
    ensures CellIndices(pitch, row, col)[j] == TileNumber(pitch, row + CornerRow[j], col + CornerCol[j])
  {
  }

  /** With pitch `length` entry j of cell (row, col) names the vertex at grid
      row row + 1 + CornerRow[j] and column col + 1 + CornerCol[j]: the two
      triangles are the halves of the quad between grid rows row+1, row+2 and
      columns col+1, col+2, with corners (row+1, col+1), (row+2, col+2),
      (row+2, col+1) and (row+1, col+1), (row+1, col+2), (row+2, col+2). */
  lemma RowMajorCornerAt(width: int, length: int, row: nat, col: nat, j: nat)
    requires row < width - 1 && col < length - 1 && j < 6
    ensures var idx, v, b := RowMajorGridIndices(width, length), GridVertices(width, length), 6 * (row * (length - 1) + col);
      && b + j < |idx| && idx[b + j] < |v|
      && v[idx[b + j]] == GridVertex(width, length, row + 1 + CornerRow[j], col + 1 + CornerCol[j])
  {
    RowMajorCellAt(width, length, row, col, j);
    CellCorner(length, row, col, j);
    GridVertexAt(width, length, row + CornerRow[j], col + CornerCol[j]);
  }

  /** On a square grid the two pitches coincide. */
  lemma SquareGridIndicesAgree(n: int)
    ensures GridIndices(n, n) == RowMajorGridIndices(n, n)
  {
  }
}
