/**
  Meshes as plain values, and the fixed byte layouts the renderer sends to
  the GPU: the 60-byte vertex, the 4x4 float matrix and the two 256-byte
  constant records.
 */
module Meshes {
  import opened Gpu

  // ---------------------------------------------------------------------
  // Floats, kept as their IEEE-754 single-precision bit patterns.

  type Float32Bits = bv32

  const FloatZero: Float32Bits := 0x0000_0000
  const FloatOne: Float32Bits := 0x3F80_0000
  const FloatTwo: Float32Bits := 0x4000_0000
  const FloatMinusTwo: Float32Bits := 0xC000_0000

  /** A row-major XMFLOAT4X4. */
  type Float4x4 = m: seq<Float32Bits> | |m| == 16
    witness [0, 0, 0, 0, 0, 0, 0, 0, 0, 0, 0, 0, 0, 0, 0, 0]

  /** `XMFLOAT4X4()`: every entry zero. */
  const ZeroMatrix: Float4x4 := [0, 0, 0, 0, 0, 0, 0, 0, 0, 0, 0, 0, 0, 0, 0, 0]

  /** The identity matrix (MathHelper's GetIdentity4x4). */
  function Identity(): Float4x4 {
    [FloatOne, 0, 0, 0, 0, FloatOne, 0, 0, 0, 0, FloatOne, 0, 0, 0, 0, FloatOne]
  }

  /** `XMMatrixTranspose(XMMatrixTranslation(t, t, t))` stored row-major:
      DirectXMath puts the translation in the fourth row, the transpose in
      the fourth column. */
  function TransposedTranslation(t: Float32Bits): Float4x4 {
    [FloatOne, 0, 0, t, 0, FloatOne, 0, t, 0, 0, FloatOne, t, 0, 0, 0, FloatOne]
  }

  /** Little-endian bytes of one float. */
  function FloatBytes(f: Float32Bits): (r: seq<byte>)
    ensures |r| == 4
  {
    [(f & 0xFF) as byte, ((f >> 8) & 0xFF) as byte, ((f >> 16) & 0xFF) as byte, ((f >> 24) & 0xFF) as byte]
  }

  function FloatsBytes(fs: seq<Float32Bits>): (r: seq<byte>)
    ensures |r| == 4 * |fs|
  {
    if fs == [] then [] else FloatBytes(fs[0]) + FloatsBytes(fs[1..])
  }

  function MatrixBytes(m: Float4x4): (r: seq<byte>)
    ensures |r| == 64
  {
    FloatsBytes(m)
  }

  /** `n` zero bytes. */
  function ZeroBytes(n: nat): (r: seq<byte>)
    ensures |r| == n
  {
    seq(n, k => 0)
  }

  /** MeshConstants and PassConstants: one matrix followed by 192 bytes of
      explicit padding, 256 bytes in all. */
  function ConstantRecordBytes(m: Float4x4): (r: seq<byte>)
    ensures |r| == 256
  {
    MatrixBytes(m) + ZeroBytes(192)
  }

  /** The record is the struct's field layout: the matrix, then the three
      padding matrices, which are zero. */
  lemma ConstantRecordLayout(m: Float4x4)
    ensures ConstantRecordBytes(m) == MatrixBytes(m) + MatrixBytes(ZeroMatrix) + MatrixBytes(ZeroMatrix) + MatrixBytes(ZeroMatrix)
  {
    var z := MatrixBytes(ZeroMatrix);
    ZeroMatrixBytes();
    assert ZeroBytes(192) == z + z + z;
  }

  lemma ZeroMatrixBytes()
    ensures forall k :: 0 <= k < 64 ==> MatrixBytes(ZeroMatrix)[k] == 0
  {
    ZeroFloatsBytes(ZeroMatrix);
  }

  lemma {:induction false} ZeroFloatsBytes(fs: seq<Float32Bits>)
    requires forall i :: 0 <= i < |fs| ==> fs[i] == 0
    ensures forall k :: 0 <= k < 4 * |fs| ==> FloatsBytes(fs)[k] == 0
  {
    if fs != [] {
      ZeroFloatsBytes(fs[1..]);
      assert FloatBytes(fs[0]) == [0, 0, 0, 0];
    }
  }

  /** sizeof(XMFLOAT4X4), and the size of both constant records: one
      matrix and three matrices of padding. */
  const Float4x4ByteSize: nat := 64
  const ConstantRecordByteSize: nat := 256

  /** The byte encodings have these sizes: a matrix is its sixteen floats at
      four bytes each, and a record is four matrices' worth. */
  lemma ConstantRecordSizes(m: Float4x4)
    ensures |MatrixBytes(m)| == Float4x4ByteSize == 4 * |m|
    ensures |ConstantRecordBytes(m)| == ConstantRecordByteSize == 4 * |MatrixBytes(m)|
  {
  }

  // ---------------------------------------------------------------------
  // Vertices.

  /** Every coordinate the generators produce is a whole number. */
  datatype Float3 = Float3(x: int, y: int, z: int)

  datatype Color = White | Black | Red | Green | Blue | Yellow | Cyan | Magenta

  /** Position and colour; the normal, tangent and texture coordinate are
      zero in every generated vertex and are left out. */
  datatype Vertex = Vertex(position: Float3, color: Color)

  /** The floats in each field of Vertex: position (XMFLOAT3), colour
      (XMFLOAT4), normal, tangent (XMFLOAT3 each), texture coordinate
      (XMFLOAT2). */
  const VertexFieldFloats: seq<nat> := [3, 4, 3, 3, 2]

  /** sizeof(Vertex). */
  const VertexByteSize: nat := 60

  /** The input layout's byte offsets of the five vertex fields, written out
      by hand. */
  const VertexFieldOffsets: seq<nat> := [0, 12, 28, 40, 52]

  function Sum(s: seq<nat>): nat {
    if s == [] then 0 else Sum(s[..|s| - 1]) + s[|s| - 1]
  }

  /** The hand-written offsets are where the struct's fields start, packed
      four bytes a float, and the struct's size is the sum of its fields. */
  lemma VertexLayout()
    ensures |VertexFieldOffsets| == |VertexFieldFloats|
    ensures forall k :: 0 <= k < |VertexFieldFloats| ==> VertexFieldOffsets[k] == 4 * Sum(VertexFieldFloats[..k])
    ensures VertexByteSize == 4 * Sum(VertexFieldFloats)
  {
    var f := VertexFieldFloats;
    assert f[..1][..0] == f[..0] == [];
    assert Sum(f[..1]) == 3 by { assert f[..1] == [3]; }
    assert Sum(f[..2]) == 7 by { assert f[..2][..1] == f[..1]; }
    assert Sum(f[..3]) == 10 by { assert f[..3][..2] == f[..2]; }
    assert Sum(f[..4]) == 13 by { assert f[..4][..3] == f[..3]; }
    assert Sum(f) == 15 by { assert f[..4] == f[..|f| - 1]; }
  }

  const IndexByteSize: nat := 4

  // ---------------------------------------------------------------------
  // Meshes.

  datatype Submesh = Submesh(indexCount: nat, startIndexLocation: nat, baseVertexLocation: int)

  /** SubmeshGeometry(): all zero. */
  const DefaultSubmesh: Submesh := Submesh(0, 0, 0)

  datatype Mesh = Mesh(
    name: string,
    vertices: seq<Vertex>,
    indices32: seq<nat>,
    vertexByteStride: nat,
    vertexBufferByteSize: nat,
    indexFormat: IndexFormat,
    indexBufferByteSize: nat,
    drawArgs: map<string, Submesh>,
    cbPerObjectIndex: nat,
    world: Float4x4,
    vertexBufferGpu: Handle,
    indexBufferGpu: Handle,
    vertexBufferUploader: Handle,
    indexBufferUploader: Handle)

  /** Mesh(): no name, no geometry, null buffers, identity world. */
  function DefaultMesh(): Mesh {
    Mesh("", [], [], 0, 0, R32Uint, 0, map[], 0, Identity(), Null, Null, Null, Null)
  }

  /** The index count Render draws a mesh with: `DrawArgs[mesh.Name]`, which
      on a missing key yields a default submesh. */
  function DrawIndexCount(mesh: Mesh): nat {
    if mesh.name in mesh.drawArgs then mesh.drawArgs[mesh.name].indexCount else DefaultSubmesh.indexCount
  }

  /** The byte sizes agree with the element counts, and the draw table has
      a single whole-mesh entry under the mesh's name. */
  ghost predicate WellFormed(m: Mesh) {
    && m.vertexByteStride == VertexByteSize
    && m.vertexBufferByteSize == |m.vertices| * VertexByteSize
    && m.indexFormat == R32Uint
    && m.indexBufferByteSize == |m.indices32| * IndexByteSize
    && m.drawArgs == map[m.name := Submesh(|m.indices32|, 0, 0)]
  }

  /** Every index names a vertex of the mesh. */
  ghost predicate IndicesInRange(m: Mesh) {
    forall k :: 0 <= k < |m.indices32| ==> m.indices32[k] < |m.vertices|
  }
}
