/**
  The persistent upload buffer: one upload-heap resource holding
  `elementCount` records of a fixed stride, mapped once when it is built and
  written in place through the mapped pointer until it is destroyed.
 */
module UploadBuffers {
  import opened Gpu

  const UINT32_LIMIT: int := 0x1_0000_0000
  const UINT64_LIMIT: int := 0x1_0000_0000_0000_0000

  /** An unsigned 32-bit value (UINT). */
  type uint32 = x: int | 0 <= x < UINT32_LIMIT

  /** `(s + 255) & ~255` in UINT arithmetic: the sum wraps modulo 2^32, and
      clearing the low eight bits of a non-negative value subtracts its
      remainder modulo 256. */
  function PaddedSize(s: uint32): uint32 {
    var t := (s + 255) % UINT32_LIMIT;
    t - t % 256
  }

  /** The padded stride is a multiple of 256 that is at least the raw size and
      less than 256 above it, as long as `s + 255` does not wrap. */
  lemma PaddedSizeBounds(s: uint32)
    requires s + 255 < UINT32_LIMIT
    ensures PaddedSize(s) % 256 == 0
    ensures s <= PaddedSize(s) < s + 256
  {
  }

  /** Rounding an already rounded stride changes nothing. */
  lemma PaddedSizeIdempotent(s: uint32)
    ensures PaddedSize(PaddedSize(s)) == PaddedSize(s)
  {
    var p := PaddedSize(s);
    assert p % 256 == 0;
    assert p + 255 < UINT32_LIMIT;
    assert (p + 255) % 256 == 255;
  }

  /** Near the top of the 32-bit range the sum wraps and the stride collapses. */
  lemma PaddedSizeWraps()
    ensures PaddedSize(0xFFFF_FF01) == 0 && PaddedSize(0xFFFF_FFFF) == 0
  {
  }

  /** Typical record sizes: 64 -> 256, 256 -> 256, 257 -> 512. */
  lemma PaddedSizeExamples()
    ensures PaddedSize(64) == 256 && PaddedSize(256) == 256 && PaddedSize(257) == 512
  {
  }

  /** `elementIndex * m_elementByteSize`: a signed index times an unsigned
      stride is an unsigned 32-bit product. */
  function ElementOffset(elementIndex: int, stride: uint32): (r: uint32)
  {
    ((elementIndex % UINT32_LIMIT) * stride) % UINT32_LIMIT
  }

  /** When the product does not wrap, element `i` starts at byte `i * stride`. */
  lemma ElementOffsetExact(elementIndex: nat, stride: uint32)
    requires elementIndex * stride < UINT32_LIMIT
    ensures ElementOffset(elementIndex, stride) == elementIndex * stride
  {
    if stride == 0 {
      assert elementIndex * stride == 0;
      assert ElementOffset(elementIndex, stride) == 0;
    } else {
      assert elementIndex <= elementIndex * stride;
      assert elementIndex % UINT32_LIMIT == elementIndex;
    }
  }

  /** `(UINT64)stride * elementCount`: computed in 64 bits, so it never wraps. */
  function BufferByteSize(stride: uint32, elementCount: uint32): (r: nat)
    ensures r < UINT64_LIMIT
  {
    ProductBound(stride, elementCount, UINT32_LIMIT - 1);
    stride * elementCount
  }

  lemma ProductBound(a: nat, b: nat, m: nat)
    requires a <= m && b <= m
    ensures a * b <= m * m
  {
    assert a * b <= a * m;
    assert a * m <= m * m;
  }

  lemma MulMonotone(x: nat, y: nat, stride: nat)
    requires x <= y
    ensures x * stride <= y * stride
  {
  }

  /** `bytes` with `data` written over it from `offset` on. */
  function Overwrite(bytes: seq<byte>, offset: nat, data: seq<byte>): seq<byte>
    requires offset + |data| <= |bytes|
  {
    bytes[..offset] + data + bytes[offset + |data|..]
  }

  /** The bytes of element `i` of a region of `stride`-byte elements. */
  function ElementBytes(bytes: seq<byte>, stride: nat, i: nat): (r: seq<byte>)
    requires (i + 1) * stride <= |bytes|
    ensures |r| == stride
  {
    assert (i + 1) * stride == i * stride + stride;
    bytes[i * stride..(i + 1) * stride]
  }

  /** After an overwrite the written range reads back as the data and every
      other byte is what it was. */
  lemma OverwriteReadsBack(bytes: seq<byte>, offset: nat, data: seq<byte>)
    requires offset + |data| <= |bytes|
    ensures |Overwrite(bytes, offset, data)| == |bytes|
    ensures Overwrite(bytes, offset, data)[offset..offset + |data|] == data
    ensures forall k :: 0 <= k < |bytes| && !(offset <= k < offset + |data|) ==>
      Overwrite(bytes, offset, data)[k] == bytes[k]
  {
    var r := Overwrite(bytes, offset, data);
    assert r[offset..offset + |data|] == data;
  }

  /** Writing one element leaves every other element's bytes as they were,
      and the element reads back as the record. */
  lemma WriteIsolatesElements(bytes: seq<byte>, stride: nat, i: nat, j: nat, data: seq<byte>)
    requires |data| == stride && (i + 1) * stride <= |bytes| && (j + 1) * stride <= |bytes| && i != j
    ensures Overwrite(bytes, i * stride, data)[i * stride..(i + 1) * stride] == data
    ensures Overwrite(bytes, i * stride, data)[j * stride..(j + 1) * stride] == bytes[j * stride..(j + 1) * stride]
  {
    var a, b := i * stride, j * stride;
    assert (i + 1) * stride == a + stride;
    assert (j + 1) * stride == b + stride;
    if j < i {
      MulMonotone(j + 1, i, stride);
    } else {
      MulMonotone(i + 1, j, stride);
    }
    OverwriteReadsBack(bytes, a, data);
    var r := Overwrite(bytes, a, data);
    assert r[b..b + stride] == bytes[b..b + stride];
  }

  class UploadBuffer {
    /** m_uploadBuffer */
    var uploadBuffer: Handle
    /** m_mappedData: the CPU view of the resource's memory while mapped. */
    var mappedData: array?<byte>
    /** m_elementByteSize: the stride, padded for constant buffers. */
    var elementByteSize: uint32
    var isConstantBuffer: bool
    /** Whether the resource is currently mapped (Map/Unmap). */
    var mapped: bool
    /** The element count; the source does not keep it. */
    ghost var elementCount: nat

    /** Mapped and holding exactly `elementCount` elements of the stride. */
    ghost predicate Live()
      reads this
    {
      && uploadBuffer.Res?
      && mapped
      && mappedData != null
      && mappedData.Length == elementByteSize * elementCount
      && (isConstantBuffer ==> elementByteSize % 256 == 0)
    }

    /** The bytes of the mapped region. */
    ghost function Contents(): seq<byte>
      reads this, mappedData
      requires mappedData != null
    {
      mappedData[..]
    }

    /** The default-constructed buffer: no resource, no mapping, stride 0. */
    constructor Empty()
      ensures uploadBuffer == Null && mappedData == null && elementByteSize == 0
      ensures !isConstantBuffer && !mapped && elementCount == 0
    {
      uploadBuffer := Null;
      mappedData := null;
      elementByteSize := 0;
      isConstantBuffer := false;
      mapped := false;
      elementCount := 0;
    }

    /** Pads the stride for constant buffers, creates an upload-heap resource
        of `stride * elementCount` bytes in GENERIC_READ and maps it. */
    constructor (device: Device, elementCount: uint32, elementByteSize: uint32, isConstantBuffer: bool)
      modifies device
      ensures this.elementByteSize == if isConstantBuffer then PaddedSize(elementByteSize) else elementByteSize
      ensures this.isConstantBuffer == isConstantBuffer && this.elementCount == elementCount
      ensures uploadBuffer == Res(|old(device.resources)|)
      ensures device.resources == old(device.resources) +
        [ResourceDesc(UploadHeap, BufferByteSize(this.elementByteSize, elementCount), GenericRead)]
      ensures mappedData != null && fresh(mappedData)
      ensures Live()
    {
      this.isConstantBuffer := isConstantBuffer;
      var stride := elementByteSize;
      if isConstantBuffer {
        stride := PaddedSize(elementByteSize);
      }
      this.elementByteSize := stride;
      this.elementCount := elementCount;
      var size := BufferByteSize(stride, elementCount);
      var resource := device.CreateCommittedResource(UploadHeap, size, GenericRead);
      uploadBuffer := resource;
      mappedData := new byte[size];
      mapped := true;
    }

    /** ~UploadBuffer: unmaps only when there is a resource, then drops the pointer. */
    method Destroy()
      modifies this
      ensures mappedData == null
      ensures mapped == (old(mapped) && old(uploadBuffer) == Null)
      ensures uploadBuffer == old(uploadBuffer) && elementByteSize == old(elementByteSize)
      ensures isConstantBuffer == old(isConstantBuffer) && elementCount == old(elementCount)
    {
      if uploadBuffer != Null {
        mapped := false;
      }
      mappedData := null;
    }

    function Resource(): Handle
      reads this
    {
      uploadBuffer
    }

    /** `CopyData(elementIndex, data)` copies `m_elementByteSize` bytes of the
        record into the mapped region at the element's offset.  The source
        checks neither the index nor the record size: the caller must keep
        the write inside the region and supply at least a stride of bytes. */
    method CopyData(elementIndex: int, data: seq<byte>)
      requires mappedData != null
      requires |data| >= elementByteSize
      requires ElementOffset(elementIndex, elementByteSize) + elementByteSize <= mappedData.Length
      modifies mappedData
      ensures mappedData[..] == Overwrite(old(mappedData[..]), ElementOffset(elementIndex, elementByteSize), data[..elementByteSize])
    {
      var offset: nat := ElementOffset(elementIndex, elementByteSize);
      var n: nat := elementByteSize;
      forall k | offset <= k < offset + n {
        mappedData[k] := data[k - offset];
      }
      assert mappedData[..] == Overwrite(old(mappedData[..]), offset, data[..n]);
    }

    /** Re-rounds the stored stride; a multiple of 256 always, and for a
        constant buffer the stride it already holds. */
    method GetElementPaddedByteSize() returns (r: uint32)
      requires Live()
      ensures r % 256 == 0
      ensures isConstantBuffer ==> r == elementByteSize
    {
      r := PaddedSize(elementByteSize);
      if isConstantBuffer {
        assert elementByteSize + 255 < UINT32_LIMIT;
      }
    }
  }
}
