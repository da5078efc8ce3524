/**
  The resource manager: a name-keyed mesh registry with per-object constant
  slots, name-keyed pools of persistent constant buffers with their
  descriptor views, and the staging upload of mesh geometry into default-heap
  buffers.
 */
module Resources {
  import opened Gpu
  import opened Slots
  import opened UploadBuffers
  import opened Meshes

  const INT32_MAX: int := 0x7FFF_FFFF

  // ---------------------------------------------------------------------
  // Constant records.

  /** MeshConstants and PassConstants are four matrices each, so padding to
      a multiple of 256 leaves their stride unchanged, and one record fills
      exactly one padded element. */
  lemma ConstantRecordFitsOneElement(m: Float4x4)
    ensures ConstantRecordByteSize == 256
    ensures PaddedSize(ConstantRecordByteSize) == ConstantRecordByteSize
    ensures |ConstantRecordBytes(m)| == PaddedSize(ConstantRecordByteSize)
  {
    PaddedSizeExamples();
  }

  // ---------------------------------------------------------------------
  // Staging uploads.

  /** What CreateDefaultBuffer records: COMMON -> COPY_DEST on the default
      buffer, a copy of the whole upload buffer into it, then COPY_DEST ->
      GENERIC_READ. */
  function StagingCommands(defaultBuffer: Handle, uploadBuffer: Handle, byteSize: nat): seq<Command> {
    [Transition(defaultBuffer, Common, CopyDest),
     CopyBufferRegion(defaultBuffer, 0, uploadBuffer, 0, byteSize),
     Transition(defaultBuffer, CopyDest, GenericRead)]
  }

  /** The two resources CreateDefaultBuffer creates, both of `byteSize` bytes. */
  function StagingResources(byteSize: nat): seq<ResourceDesc> {
    [ResourceDesc(DefaultHeap, byteSize, Common), ResourceDesc(UploadHeap, byteSize, GenericRead)]
  }

  /** From a default buffer in COMMON and an upload buffer in GENERIC_READ the
      script is legal and leaves the default buffer in GENERIC_READ, every
      other resource as it was. */
  lemma StagingLeavesBufferReadable(states: map<Handle, ResourceState>, d: Handle, u: Handle, n: nat)
    requires d in states && states[d] == Common
    requires u in states && states[u] == GenericRead && d != u
    ensures Replay(StagingCommands(d, u, n), states) == Some(states[d := GenericRead])
  {
    var cmds := StagingCommands(d, u, n);
    var s1 := states[d := CopyDest];
    assert Step(cmds[0], states) == Some(s1);
    assert Step(cmds[1], s1) == Some(s1);
    assert s1[d := GenericRead] == states[d := GenericRead];
    assert Step(cmds[2], s1) == Some(states[d := GenericRead]);
    assert Replay(cmds[2..], s1) == Some(states[d := GenericRead]) by {
      assert cmds[2..][1..] == [];
    }
    assert Replay(cmds[1..], s1) == Replay(cmds[2..], s1) by {
      assert cmds[1..][1..] == cmds[2..];
    }
  }

  /** Running the script again on a buffer already in GENERIC_READ fails: the
      first barrier names the wrong state before. */
  lemma StagingTwiceIsRejected(states: map<Handle, ResourceState>, d: Handle, u: Handle, n: nat)
    requires d in states && states[d] == GenericRead
    ensures Replay(StagingCommands(d, u, n), states) == None
  {
  }

  /** What AddMesh records for a mesh whose four buffers are resources n to
      n + 3: the staging script of the vertex buffer, then that of the index
      buffer. */
  function MeshUpload(vertexBytes: nat, indexBytes: nat, n: nat): seq<Command> {
    StagingCommands(Res(n), Res(n + 1), vertexBytes) + StagingCommands(Res(n + 2), Res(n + 3), indexBytes)
  }

  /** The four resources AddMesh creates for a mesh, in creation order. */
  function MeshResources(vertexBytes: nat, indexBytes: nat): seq<ResourceDesc> {
    StagingResources(vertexBytes) + StagingResources(indexBytes)
  }

  /** Resources n to n + 3 are as CreateDefaultBuffer leaves them, twice
      over: a default buffer in COMMON, then its upload buffer in GENERIC_READ. */
  ghost predicate StagedAt(states: map<Handle, ResourceState>, n: nat) {
    && Res(n) in states && states[Res(n)] == Common
    && Res(n + 1) in states && states[Res(n + 1)] == GenericRead
    && Res(n + 2) in states && states[Res(n + 2)] == Common
    && Res(n + 3) in states && states[Res(n + 3)] == GenericRead
  }

  /** A mesh's four resources, created after `before` and followed by any
      others, start out staged. */
  lemma MeshResourcesStaged(before: seq<ResourceDesc>, vertexBytes: nat, indexBytes: nat, after: seq<ResourceDesc>)
    ensures StagedAt(InitialStates(before + MeshResources(vertexBytes, indexBytes) + after), |before|)
  {
    var all := before + MeshResources(vertexBytes, indexBytes) + after;
    var n := |before|;
    assert all[n] == ResourceDesc(DefaultHeap, vertexBytes, Common);
    assert all[n + 1] == ResourceDesc(UploadHeap, vertexBytes, GenericRead);
    assert all[n + 2] == ResourceDesc(DefaultHeap, indexBytes, Common);
    assert all[n + 3] == ResourceDesc(UploadHeap, indexBytes, GenericRead);
  }

  /** The states with both default buffers of the mesh at n in GENERIC_READ. */
  function Uploaded(states: map<Handle, ResourceState>, n: nat): map<Handle, ResourceState> {
    states[Res(n) := GenericRead][Res(n + 2) := GenericRead]
  }

  /** Uploading a mesh over its four staged resources is legal and leaves
      both default buffers in GENERIC_READ, every other resource as it was. */
  lemma MeshUploadLeavesBuffersReadable(states: map<Handle, ResourceState>, vertexBytes: nat, indexBytes: nat, n: nat)
    requires StagedAt(states, n)
    ensures Replay(MeshUpload(vertexBytes, indexBytes, n), states) == Some(Uploaded(states, n))
  {
    StagingLeavesBufferReadable(states, Res(n), Res(n + 1), vertexBytes);
    var s1 := states[Res(n) := GenericRead];
    StagingLeavesBufferReadable(s1, Res(n + 2), Res(n + 3), indexBytes);
    ReplayAppend(StagingCommands(Res(n), Res(n + 1), vertexBytes), StagingCommands(Res(n + 2), Res(n + 3), indexBytes), states);
  }

  // ---------------------------------------------------------------------
  // Constant-buffer views.

  /** The view AddConstantBuffer creates at heap index `j` for a pool
      registered from heap index `first` on: it points at element j - first. */
  function PoolView(resource: Handle, stride: uint32, sizeInBytes: nat, first: nat, j: nat): CbvDesc {
    CbvDesc(resource, ElementOffset(j - first, stride), sizeInBytes)
  }

  /** The views AddConstantBuffer creates for a pool of `count` elements of
      `stride` bytes registered at heap index `first`, every view claiming
      `sizeInBytes`. */
  function PoolViews(resource: Handle, stride: uint32, sizeInBytes: nat, first: nat, count: nat): map<nat, CbvDesc> {
    map j: nat | first <= j < first + count :: PoolView(resource, stride, sizeInBytes, first, j)
  }

  /** `objCBByteSize * numOfElements`: a UINT product, reduced modulo 2^32. */
  function ViewSize(stride: uint32, count: uint32): uint32 {
    (stride * count) % UINT32_LIMIT
  }

  /** The view at heap index j points at the start of element j - first
      (every view names the pool's resource and claims `sizeInBytes`, by
      definition). */
  lemma PoolViewsPlacement(resource: Handle, stride: uint32, sizeInBytes: nat, first: nat, count: nat)
    requires stride * count < UINT32_LIMIT
    ensures forall j :: j in PoolViews(resource, stride, sizeInBytes, first, count) ==>
      PoolViews(resource, stride, sizeInBytes, first, count)[j].offset == (j - first) * stride
  {
    forall j | j in PoolViews(resource, stride, sizeInBytes, first, count) {
      PoolViewAt(resource, stride, sizeInBytes, first, count, j);
    }
  }

  /** The views occupy exactly the heap indices first, ..., first + count - 1. */
  lemma PoolViewsKeys(resource: Handle, stride: uint32, sizeInBytes: nat, first: nat, count: nat)
    ensures forall j: nat :: j in PoolViews(resource, stride, sizeInBytes, first, count) <==> first <= j < first + count
  {
  }

  lemma PoolViewAt(resource: Handle, stride: uint32, sizeInBytes: nat, first: nat, count: nat, j: nat)
    requires stride * count < UINT32_LIMIT && first <= j < first + count
    ensures PoolViews(resource, stride, sizeInBytes, first, count)[j].offset == (j - first) * stride
  {
    var i := j - first;
    MulMonotone(i, count, stride);
    ElementOffsetExact(i, stride);
  }

  /** Pools registered one after another get disjoint heap index ranges. */
  lemma SuccessivePoolsDisjoint(r1: Handle, s1: uint32, z1: nat, first: nat, n1: nat, r2: Handle, s2: uint32, z2: nat, n2: nat)
    ensures PoolViews(r1, s1, z1, first, n1).Keys !! PoolViews(r2, s2, z2, first + n1, n2).Keys
  {
  }

  /** Every view claims the whole pool's size, so every view but the first
      runs past the end of the pool's resource. */
  lemma PoolViewOverrunsPool(resource: Handle, stride: uint32, first: nat, count: uint32)
    requires stride > 0 && stride * count < UINT32_LIMIT
    ensures forall j :: j in PoolViews(resource, stride, ViewSize(stride, count), first, count) && j > first ==>
      PoolViews(resource, stride, ViewSize(stride, count), first, count)[j].offset
        + PoolViews(resource, stride, ViewSize(stride, count), first, count)[j].sizeInBytes > BufferByteSize(stride, count)
  {
    PoolViewsPlacement(resource, stride, ViewSize(stride, count), first, count);
    forall j | j in PoolViews(resource, stride, ViewSize(stride, count), first, count) && j > first
      ensures (j - first) * stride > 0
    {
      MulMonotone(1, j - first, stride);
    }
  }

  /** The evidently intended views: each claims one element. */
  function ElementViews(resource: Handle, stride: uint32, first: nat, count: nat): map<nat, CbvDesc> {
    PoolViews(resource, stride, stride, first, count)
  }

  /** With one element per view every view lies inside the pool, and views at
      different heap indices do not overlap. */
  lemma ElementViewsInsidePool(resource: Handle, stride: uint32, first: nat, count: uint32)
    requires stride * count < UINT32_LIMIT
    ensures forall j :: j in ElementViews(resource, stride, first, count) ==>
      ElementViews(resource, stride, first, count)[j].offset + ElementViews(resource, stride, first, count)[j].sizeInBytes
        <= BufferByteSize(stride, count)
    ensures forall j, k :: j in ElementViews(resource, stride, first, count) && k in ElementViews(resource, stride, first, count) && j < k ==>
      ElementViews(resource, stride, first, count)[j].offset + stride <= ElementViews(resource, stride, first, count)[k].offset
  {
    var views := ElementViews(resource, stride, first, count);
    PoolViewsPlacement(resource, stride, stride, first, count);
    forall j | j in views
      ensures (j - first) * stride + stride <= stride * count
    {
      var i := j - first;
      assert i * stride + stride == (i + 1) * stride;
      MulMonotone(i + 1, count, stride);
    }
    forall j, k | j in views && k in views && j < k
      ensures (j - first) * stride + stride <= (k - first) * stride
    {
      var i := j - first;
      assert i * stride + stride == (i + 1) * stride;
      MulMonotone(i + 1, k - first, stride);
    }
  }

  lemma AddView(views: map<nat, CbvDesc>, resource: Handle, stride: uint32, sizeInBytes: nat, first: nat, count: nat)
    ensures (views + PoolViews(resource, stride, sizeInBytes, first, count))[first + count := CbvDesc(resource, ElementOffset(count, stride), sizeInBytes)]
      == views + PoolViews(resource, stride, sizeInBytes, first, count + 1)
  {
  }

  // ---------------------------------------------------------------------
  // The manager.

  // ---------------------------------------------------------------------
  // The registry's slots.

  /** The bookkeeping that keeps mesh slots apart: the free list has no
      repeats and lies below the high-water mark, and the registered meshes
      hold pairwise distinct slots, below the mark and not on the free list.
      A slot may be neither held nor free: AddMesh on a taken name leaks one. */
  ghost predicate SlotsSound(meshes: map<string, Mesh>, a: Allocator) {
    && NoDuplicates(a.free)
    && (forall i :: 0 <= i < |a.free| ==> a.free[i] < a.next)
    && (forall name :: name in meshes ==> meshes[name].cbPerObjectIndex < a.next && meshes[name].cbPerObjectIndex !in a.free)
    && (forall x, y :: x in meshes && y in meshes && x != y ==> meshes[x].cbPerObjectIndex != meshes[y].cbPerObjectIndex)
  }

  /** An empty registry over a fresh allocator is sound. */
  lemma InitialSlotsSound()
    ensures SlotsSound(map[], Initial)
  {
  }

  /** The slot AddMesh acquires is held by no registered mesh, so the books
      stay sound whether the mesh is registered with it (a new name) or the
      slot is only leaked (a taken name). */
  lemma AddMeshKeepsSlotsSound(meshes: map<string, Mesh>, a: Allocator, mesh: Mesh, first: nat)
    requires SlotsSound(meshes, a)
    ensures forall name :: name in meshes ==> meshes[name].cbPerObjectIndex != Acquire(a).slot
    ensures SlotsSound(meshes, Acquire(a).rest)
    ensures mesh.name !in meshes ==>
      SlotsSound(meshes[mesh.name := Registered(mesh, Acquire(a).slot, first)], Acquire(a).rest)
  {
    var r := Acquire(a);
    if |a.free| > 0 {
      var last := |a.free| - 1;
      forall name | name in meshes
        ensures meshes[name].cbPerObjectIndex != r.slot
      {
        assert a.free[last] in a.free;
      }
      forall i | 0 <= i < |r.rest.free|
        ensures r.rest.free[i] == a.free[i] && r.rest.free[i] != r.slot
      {
      }
    }
  }

  /** DeleteMesh keeps the books sound when it is handed the registered
      mesh, or a copy carrying the stored slot: that slot is then freed once
      and held by no one else. */
  lemma DeleteMeshKeepsSlotsSound(meshes: map<string, Mesh>, a: Allocator, mesh: Mesh)
    requires SlotsSound(meshes, a)
    requires mesh.name in meshes && meshes[mesh.name].cbPerObjectIndex == mesh.cbPerObjectIndex
    ensures SlotsSound(meshes - {mesh.name}, Release(a, mesh.cbPerObjectIndex))
  {
    var r := Release(a, mesh.cbPerObjectIndex);
    var left := meshes - {mesh.name};
    forall i, j | 0 <= i < j < |r.free|
      ensures r.free[i] != r.free[j]
    {
      if j == |a.free| {
        assert r.free[i] == a.free[i];
      }
    }
    forall name | name in left
      ensures left[name].cbPerObjectIndex !in r.free
    {
      assert left[name].cbPerObjectIndex != mesh.cbPerObjectIndex;
    }
  }

  /** Deleting through a stale copy, one whose slot is another mesh's, puts
      a held slot on the free list: the next AddMesh hands it out again. */
  lemma StaleDeleteAliases(keep: Mesh, stale: Mesh, a: Allocator)
    requires keep.name != stale.name && keep.cbPerObjectIndex == stale.cbPerObjectIndex
    ensures var meshes := map[keep.name := keep];
      Acquire(Release(a, stale.cbPerObjectIndex)).slot == meshes[keep.name].cbPerObjectIndex
    ensures !SlotsSound(map[keep.name := keep], Release(a, stale.cbPerObjectIndex))
  {
    var r := Release(a, stale.cbPerObjectIndex);
    assert r.free[|a.free|] == keep.cbPerObjectIndex;
  }

  /** A lookup that misses inserts the default mesh, which claims slot 0;
      if a registered mesh holds slot 0 the registry stops being sound. */
  lemma GetMeshMissAliasesSlot(meshes: map<string, Mesh>, a: Allocator, meshName: string, holder: string)
    requires meshName !in meshes && holder in meshes && meshes[holder].cbPerObjectIndex == 0
    ensures var after := meshes[meshName := DefaultMesh()];
      && after[meshName].cbPerObjectIndex == after[holder].cbPerObjectIndex
      && !SlotsSound(after, a)
  {
    var after := meshes[meshName := DefaultMesh()];
    assert holder != meshName;
    assert after[holder].cbPerObjectIndex == after[meshName].cbPerObjectIndex;
  }

  /** AddMesh either registers the mesh or reaches UpdateMesh, which throws
      "UpdateMesh() function not implemented". */
  datatype AddMeshOutcome = Added | UpdateNotImplemented

  /** The mesh as AddMesh stores it: its slot, and the four buffers created
      from resource number `first` on (vertex default and upload, index
      default and upload). */
  function Registered(mesh: Mesh, slot: nat, first: nat): Mesh {
    mesh.(cbPerObjectIndex := slot,
          vertexBufferGpu := Res(first), vertexBufferUploader := Res(first + 1),
          indexBufferGpu := Res(first + 2), indexBufferUploader := Res(first + 3))
  }

  class ResourceManager {
    var commandList: CommandList?
    var device: Device?
    var meshes: map<string, Mesh>
    var constantBuffers: map<string, UploadBuffer>
    /** m_currCBVHeapIndex: the next free descriptor of the CBV heap. */
    var currCBVHeapIndex: nat
    /** m_freeCBPerObjectIndex: released slots, most recent last. */
    var freeCBPerObjectIndex: seq<nat>
    /** m_newCBPerObjectIndex: the high-water mark, assumed to start at 0. */
    var newCBPerObjectIndex: nat

    /** The slot allocator the two slot fields make up. */
    function Slots(): Allocator
      reads this`freeCBPerObjectIndex, this`newCBPerObjectIndex
    {
      Allocator(freeCBPerObjectIndex, newCBPerObjectIndex)
    }

    /** Every pool is mapped, and no two names share a pool or its memory. */
    ghost predicate Valid()
      reads this`constantBuffers, constantBuffers.Values
    {
      && (forall name :: name in constantBuffers ==> constantBuffers[name].Live())
      && (forall a, b :: a in constantBuffers && b in constantBuffers && a != b ==>
            constantBuffers[a] != constantBuffers[b] && constantBuffers[a].mappedData != constantBuffers[b].mappedData)
    }

    /** ResourceManager(): no device and no command list. */
    constructor Default()
      ensures commandList == null && device == null
      ensures meshes == map[] && constantBuffers == map[] && currCBVHeapIndex == 0
      ensures Slots() == Initial
      ensures Valid()
    {
      commandList := null;
      device := null;
      meshes := map[];
      constantBuffers := map[];
      currCBVHeapIndex := 0;
      freeCBPerObjectIndex := [];
      newCBPerObjectIndex := 0;
    }

    constructor (commandList: CommandList, device: Device)
      ensures this.commandList == commandList && this.device == device
      ensures meshes == map[] && constantBuffers == map[] && currCBVHeapIndex == 0
      ensures Slots() == Initial
      ensures Valid()
    {
      this.commandList := commandList;
      this.device := device;
      meshes := map[];
      constantBuffers := map[];
      currCBVHeapIndex := 0;
      freeCBPerObjectIndex := [];
      newCBPerObjectIndex := 0;
    }

    /** Takes a slot (the last released one, else the high-water mark), then
        registers the mesh under its name with freshly uploaded vertex and
        index buffers.  When the name is taken it reaches UpdateMesh instead,
        which throws; the slot it took is not given back. */
    method AddMesh(mesh: Mesh) returns (outcome: AddMeshOutcome)
      requires device != null && commandList != null && !commandList.closed
      modifies this`meshes, this`freeCBPerObjectIndex, this`newCBPerObjectIndex, device, commandList
      ensures device == old(device) && commandList == old(commandList) && !commandList.closed
      ensures Slots() == Acquire(old(Slots())).rest
      ensures old(mesh.name in meshes) ==>
        && outcome == UpdateNotImplemented
        && meshes == old(meshes)
        && device.resources == old(device.resources)
        && commandList.commands == old(commandList.commands)
      ensures old(mesh.name !in meshes) ==>
        var n := |old(device.resources)|;
        && outcome == Added
        && meshes == old(meshes)[mesh.name := Registered(mesh, Acquire(old(Slots())).slot, n)]
        && device.resources == old(device.resources) + MeshResources(mesh.vertexBufferByteSize, mesh.indexBufferByteSize)
        && commandList.commands == old(commandList.commands) + MeshUpload(mesh.vertexBufferByteSize, mesh.indexBufferByteSize, n)
      ensures SlotsSound(old(meshes), old(Slots())) ==> SlotsSound(meshes, Slots())
      ensures constantBuffers == old(constantBuffers) && currCBVHeapIndex == old(currCBVHeapIndex)
    {
      if SlotsSound(meshes, Slots()) {
        AddMeshKeepsSlotsSound(meshes, Slots(), mesh, |device.resources|);
      }
      ghost var resources0, commands0 := device.resources, commandList.commands;
      var stored := mesh;
      if |freeCBPerObjectIndex| > 0 {
        stored := stored.(cbPerObjectIndex := freeCBPerObjectIndex[|freeCBPerObjectIndex| - 1]);
        freeCBPerObjectIndex := freeCBPerObjectIndex[..|freeCBPerObjectIndex| - 1];
      } else {
        stored := stored.(cbPerObjectIndex := newCBPerObjectIndex);
        newCBPerObjectIndex := newCBPerObjectIndex + 1;
      }
      if mesh.name !in meshes {
        var vertexUploader, indexUploader;
        var vertexGpu;
        vertexGpu, vertexUploader := CreateDefaultBuffer(device, commandList, mesh.vertexBufferByteSize);
        stored := stored.(vertexBufferGpu := vertexGpu, vertexBufferUploader := vertexUploader);
        var indexGpu;
        indexGpu, indexUploader := CreateDefaultBuffer(device, commandList, mesh.indexBufferByteSize);
        stored := stored.(indexBufferGpu := indexGpu, indexBufferUploader := indexUploader);
        meshes := meshes[mesh.name := stored];
        outcome := Added;
        assert device.resources == resources0 + MeshResources(mesh.vertexBufferByteSize, mesh.indexBufferByteSize);
        assert commandList.commands == commands0 + MeshUpload(mesh.vertexBufferByteSize, mesh.indexBufferByteSize, |resources0|);
      } else {
        outcome := UpdateNotImplemented;
      }
    }

    /** Creates a default-heap buffer in COMMON and an upload-heap buffer in
        GENERIC_READ of the same size, and records the upload of the data
        through the upload buffer.  Neither creation result is checked. */
    method CreateDefaultBuffer(device: Device, commandList: CommandList, byteSize: nat)
      returns (defaultBuffer: Handle, uploadBuffer: Handle)
      requires !commandList.closed
      modifies device, commandList
      ensures defaultBuffer == Res(|old(device.resources)|) && uploadBuffer == Res(|old(device.resources)| + 1)
      ensures device.resources == old(device.resources) + StagingResources(byteSize)
      ensures commandList.commands == old(commandList.commands) + StagingCommands(defaultBuffer, uploadBuffer, byteSize)
      ensures !commandList.closed
    {
      defaultBuffer := device.CreateCommittedResource(DefaultHeap, byteSize, Common);
      uploadBuffer := device.CreateCommittedResource(UploadHeap, byteSize, GenericRead);
      commandList.Record(Transition(defaultBuffer, Common, CopyDest));
      commandList.Record(CopyBufferRegion(defaultBuffer, 0, uploadBuffer, 0, byteSize));
      commandList.Record(Transition(defaultBuffer, CopyDest, GenericRead));
    }

    /** Erases the name and releases the mesh's slot, whether or not the name
        was registered. */
    method DeleteMesh(mesh: Mesh)
      modifies this`meshes, this`freeCBPerObjectIndex
      ensures meshes == old(meshes) - {mesh.name}
      ensures Slots() == Release(old(Slots()), mesh.cbPerObjectIndex)
      ensures (&& SlotsSound(old(meshes), old(Slots())) && mesh.name in old(meshes)
               && old(meshes[mesh.name].cbPerObjectIndex) == mesh.cbPerObjectIndex)
        ==> SlotsSound(meshes, Slots())
      ensures constantBuffers == old(constantBuffers) && currCBVHeapIndex == old(currCBVHeapIndex)
      ensures device == old(device) && commandList == old(commandList)
    {
      if SlotsSound(meshes, Slots()) && mesh.name in meshes && meshes[mesh.name].cbPerObjectIndex == mesh.cbPerObjectIndex {
        DeleteMeshKeepsSlotsSound(meshes, Slots(), mesh);
      }
      meshes := meshes - {mesh.name};
      freeCBPerObjectIndex := freeCBPerObjectIndex + [mesh.cbPerObjectIndex];
    }

    /** `m_meshes[meshName]`: a miss inserts a default mesh under the name. */
    method GetMesh(meshName: string) returns (m: Mesh)
      modifies this`meshes
      ensures old(meshName in meshes) ==> m == old(meshes[meshName]) && meshes == old(meshes)
      ensures old(meshName !in meshes) ==> m == DefaultMesh() && meshes == old(meshes)[meshName := DefaultMesh()]
      ensures constantBuffers == old(constantBuffers) && currCBVHeapIndex == old(currCBVHeapIndex)
      ensures Slots() == old(Slots()) && device == old(device) && commandList == old(commandList)
    {
      if meshName !in meshes {
        meshes := meshes[meshName := DefaultMesh()];
      }
      m := meshes[meshName];
    }

    /** A copy of the whole registry. */
    method GetAllMeshes() returns (all: map<string, Mesh>)
      ensures all == meshes
    {
      all := meshes;
    }

    /** Builds a pool of `numOfElements` constant elements, replaces (and so
        destroys) any pool of that name, then creates one view per element
        at the next free heap indices.  Nothing checks the heap's capacity. */
    method AddConstantBuffer(name: string, elementByteSize: uint32, numOfElements: uint32, cbvHeap: DescriptorHeap)
      requires device != null && Valid()
      requires numOfElements <= INT32_MAX
      modifies this`constantBuffers, this`currCBVHeapIndex, device, cbvHeap
      modifies if name in constantBuffers then {constantBuffers[name]} else {}
      ensures name in constantBuffers && fresh(constantBuffers[name]) && fresh(constantBuffers[name].mappedData)
      ensures constantBuffers == old(constantBuffers)[name := constantBuffers[name]]
      ensures var pool := constantBuffers[name];
        && pool.elementByteSize == PaddedSize(elementByteSize) && pool.isConstantBuffer
        && pool.elementCount == numOfElements
        && pool.uploadBuffer == Res(|old(device.resources)|)
        && device.resources == old(device.resources) + [ResourceDesc(UploadHeap, BufferByteSize(PaddedSize(elementByteSize), numOfElements), GenericRead)]
        && cbvHeap.views == old(cbvHeap.views) + PoolViews(pool.uploadBuffer, PaddedSize(elementByteSize),
             ViewSize(PaddedSize(elementByteSize), numOfElements), old(currCBVHeapIndex), numOfElements)
      ensures currCBVHeapIndex == old(currCBVHeapIndex) + numOfElements
      ensures old(name in constantBuffers) ==> old(constantBuffers[name]).mappedData == null && !old(constantBuffers[name]).mapped
      ensures meshes == old(meshes) && Slots() == old(Slots())
      ensures Valid()
    {
      var pool := new UploadBuffer(device, numOfElements, elementByteSize, true);
      StorePool(name, pool);
      var cbAddress := pool.Resource();
      var objCBByteSize := pool.GetElementPaddedByteSize();
      var size := ViewSize(objCBByteSize, numOfElements);
      CreatePoolViews(cbAddress, objCBByteSize, size, numOfElements, cbvHeap);
    }

    /** `m_constantBuffers[name] = std::move(pool)`: the pool previously stored
        under the name, if any, is destroyed. */
    method StorePool(name: string, pool: UploadBuffer)
      requires Valid() && pool.Live()
      requires forall n :: n in constantBuffers ==> constantBuffers[n] != pool && constantBuffers[n].mappedData != pool.mappedData
      modifies this`constantBuffers, if name in constantBuffers then {constantBuffers[name]} else {}
      ensures constantBuffers == old(constantBuffers)[name := pool]
      ensures old(name in constantBuffers) ==> old(constantBuffers[name]).mappedData == null && !old(constantBuffers[name]).mapped
      ensures Valid()
    {
      if name in constantBuffers {
        constantBuffers[name].Destroy();
      }
      constantBuffers := constantBuffers[name := pool];
    }

    /** The view loop of AddConstantBuffer: one view per element, at the
        next free heap indices, advancing m_currCBVHeapIndex past them. */
    method CreatePoolViews(cbAddress: Handle, objCBByteSize: uint32, size: nat, numOfElements: nat, cbvHeap: DescriptorHeap)
      requires device != null
      modifies this`currCBVHeapIndex, cbvHeap
      ensures cbvHeap.views == old(cbvHeap.views) + PoolViews(cbAddress, objCBByteSize, size, old(currCBVHeapIndex), numOfElements)
      ensures currCBVHeapIndex == old(currCBVHeapIndex) + numOfElements
    {
      ghost var first := currCBVHeapIndex;
      ghost var views0 := cbvHeap.views;
      var i := 0;
      while i < numOfElements
        invariant 0 <= i <= numOfElements
        invariant currCBVHeapIndex == first + i
        invariant cbvHeap.views == views0 + PoolViews(cbAddress, objCBByteSize, size, first, i)
      {
        var cbvDesc := CbvDesc(cbAddress, ElementOffset(i, objCBByteSize), size);
        AddView(views0, cbAddress, objCBByteSize, size, first, i);
        device.CreateConstantBufferView(cbvDesc, cbvHeap, currCBVHeapIndex);
        currCBVHeapIndex := currCBVHeapIndex + 1;
        i := i + 1;
      }
    }

    /** Erases the pool, destroying (and unmapping) it when present. */
    method RemoveConstantBuffer(name: string)
      requires Valid()
      modifies this`constantBuffers, if name in constantBuffers then {constantBuffers[name]} else {}
      ensures constantBuffers == old(constantBuffers) - {name}
      ensures old(name in constantBuffers) ==> old(constantBuffers[name]).mappedData == null && !old(constantBuffers[name]).mapped
      ensures meshes == old(meshes) && Slots() == old(Slots()) && currCBVHeapIndex == old(currCBVHeapIndex)
      ensures device == old(device) && commandList == old(commandList)
      ensures Valid()
    {
      if name in constantBuffers {
        constantBuffers[name].Destroy();
      }
      constantBuffers := constantBuffers - {name};
    }

    /** Writes the record into element `elementIndex` of the named pool: one
        stride of the record's bytes, at the element's offset.  The source
        looks the name up with `operator[]`, so an unknown name dereferences
        a null pool; and it checks neither the index nor the record size. */
    method UpdateConstantBuffer(name: string, elementIndex: int, record: Float4x4)
      requires Valid() && name in constantBuffers
      requires constantBuffers[name].elementByteSize <= ConstantRecordByteSize
      requires ElementOffset(elementIndex, constantBuffers[name].elementByteSize) + constantBuffers[name].elementByteSize
        <= constantBuffers[name].mappedData.Length
      modifies constantBuffers[name].mappedData
      ensures constantBuffers[name].mappedData[..] == Overwrite(old(constantBuffers[name].mappedData[..]),
        ElementOffset(elementIndex, constantBuffers[name].elementByteSize),
        ConstantRecordBytes(record)[..constantBuffers[name].elementByteSize])
      ensures Valid()
    {
      constantBuffers[name].CopyData(elementIndex, ConstantRecordBytes(record));
    }
  }

  /** A mesh that AddMesh registered keeps its draw table, so Render draws it
      with all of its indices. */
  lemma RegisteredDrawsAllIndices(mesh: Mesh, slot: nat, first: nat)
    requires WellFormed(mesh)
    ensures DrawIndexCount(Registered(mesh, slot, first)) == |mesh.indices32|
    ensures WellFormed(Registered(mesh, slot, first))
  {
  }
}
