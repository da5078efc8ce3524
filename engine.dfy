/**
  The renderer's frame loop and its setup: one command allocator and one
  command list, a full CPU/GPU stall after every submission, a back-buffer
  index that alternates between the two swap-chain buffers, and the setup
  scenario that registers the constant pools and the meshes.
 */
module Engines {
  import opened Gpu
  import opened Slots
  import opened UploadBuffers
  import opened Meshes
  import opened MeshGeneration
  import opened Resources

  /** m_frameCount: the number of swap-chain buffers. */
  const FrameCount: nat := 2

  /** The CBV heap: one pass view and three per-object views. */
  const CbvHeapSize: nat := 4

  const PassConstantsName: string := "PassConstants"
  const MeshConstantsName: string := "MeshConstants"

  /** The names BuildGeometry gives its meshes. */
  const UnitBox1Name: string := "unitBox1"
  const UnitBox2Name: string := "unitBox2"
  const UnitBox3Name: string := "unitBox3"
  const GridName: string := "grid"

  lemma SceneNamesDistinct()
    ensures UnitBox1Name != UnitBox2Name && UnitBox1Name != GridName && UnitBox2Name != GridName
  {
    assert UnitBox1Name[7] != UnitBox2Name[7];
  }

  // ---------------------------------------------------------------------
  // Frame index and fence values.

  /** `(m_frameIndex + 1) % m_frameCount` */
  function NextFrameIndex(frameIndex: nat): nat {
    (frameIndex + 1) % FrameCount
  }

  /** The index stays a back-buffer index and alternates between the two. */
  lemma FrameIndexAlternates(frameIndex: nat)
    requires frameIndex < FrameCount
    ensures NextFrameIndex(frameIndex) < FrameCount
    ensures NextFrameIndex(frameIndex) != frameIndex
    ensures NextFrameIndex(NextFrameIndex(frameIndex)) == frameIndex
  {
  }

  /** The back-buffer index after n frames from `frameIndex`. */
  function FrameIndexAfter(frameIndex: nat, n: nat): (r: nat)
    ensures frameIndex < FrameCount ==> r < FrameCount
  {
    if n == 0 then frameIndex else NextFrameIndex(FrameIndexAfter(frameIndex, n - 1))
  }

  /** After n frames the index has moved on n places modulo the buffer
      count, so even frame counts return to the starting buffer. */
  lemma {:induction false} FrameIndexAfterModulo(frameIndex: nat, n: nat)
    requires frameIndex < FrameCount
    ensures FrameIndexAfter(frameIndex, n) == (frameIndex + n) % FrameCount
  {
    if n > 0 {
      FrameIndexAfterModulo(frameIndex, n - 1);
    }
  }

  /** 1, 2, ..., n: the fence values signalled after n waits. */
  function CountingUpTo(n: nat): (r: seq<nat>)
    ensures |r| == n
  {
    if n == 0 then [] else CountingUpTo(n - 1) + [n]
  }

  /** The k-th signalled value is k + 1: the values strictly increase by one. */
  lemma {:induction false} CountingUpToValues(n: nat)
    ensures forall k :: 0 <= k < n ==> CountingUpTo(n)[k] == k + 1
  {
    if n > 0 {
      CountingUpToValues(n - 1);
      assert forall k :: 0 <= k < n - 1 ==> CountingUpTo(n)[k] == CountingUpTo(n - 1)[k];
    }
  }

  // ---------------------------------------------------------------------
  // What Render records.

  /** The commands recorded for one mesh: its vertex and index buffer
      views, the topology, the mesh's descriptor (slot + 1, after the pass
      view at 0) for root parameter 0, and the draw of its whole index list. */
  function MeshCommands(mesh: Mesh): seq<Command> {
    [SetVertexBuffer(mesh.vertexBufferGpu, mesh.vertexByteStride, mesh.vertexBufferByteSize),
     SetIndexBuffer(mesh.indexBufferGpu, mesh.indexFormat, mesh.indexBufferByteSize),
     SetTriangleListTopology,
     SetRootDescriptorTable(0, mesh.cbPerObjectIndex + 1),
     DrawIndexedInstanced(DrawIndexCount(mesh), 1, 0, 0, 0)]
  }

  /** The mesh commands for the names of `order`, in that order. */
  function DrawCommands(meshes: map<string, Mesh>, order: seq<string>): (r: seq<Command>)
    requires forall i :: 0 <= i < |order| ==> order[i] in meshes
    ensures |r| == 5 * |order|
  {
    if order == [] then []
    else DrawCommands(meshes, order[..|order| - 1]) + MeshCommands(meshes[order[|order| - 1]])
  }

  /** Clearing the back buffer `frameIndex` and the depth buffer, binding
      them, the CBV heap and the root signature, and the pass view (heap
      start) for root parameter 1. */
  function ClearAndBind(frameIndex: nat): seq<Command> {
    [ClearRenderTarget(frameIndex), ClearDepthStencil, SetRenderTargets(frameIndex),
     SetDescriptorHeap, SetRootSignature, SetRootDescriptorTable(1, 0)]
  }

  /** The viewport, the scissor rectangle, the back buffer's barrier from
      PRESENT to RENDER_TARGET, and the clears and bindings. */
  function FramePrologue(frameIndex: nat, backBuffer: Handle): (r: seq<Command>)
    ensures |r| == 9
  {
    [SetViewport, SetScissorRect, Transition(backBuffer, Present, RenderTarget)] + ClearAndBind(frameIndex)
  }

  /** Everything Render records into the command list between Reset and Close. */
  function FrameCommands(frameIndex: nat, backBuffer: Handle, meshes: map<string, Mesh>, order: seq<string>): seq<Command>
    requires forall i :: 0 <= i < |order| ==> order[i] in meshes
  {
    FramePrologue(frameIndex, backBuffer) + DrawCommands(meshes, order) + [Transition(backBuffer, RenderTarget, Present)]
  }

  /** The hash map's iteration order: every registered name exactly once. */
  ghost predicate IsIterationOrder(order: seq<string>, names: set<string>) {
    && (forall i, j :: 0 <= i < j < |order| ==> order[i] != order[j])
    && (forall i :: 0 <= i < |order| ==> order[i] in names)
    && (forall name :: name in names ==> name in order)
  }

  function CountDraws(cmds: seq<Command>): nat {
    if cmds == [] then 0
    else CountDraws(cmds[..|cmds| - 1]) + (if cmds[|cmds| - 1].DrawIndexedInstanced? then 1 else 0)
  }

  lemma {:induction false} CountDrawsAppend(a: seq<Command>, b: seq<Command>)
    ensures CountDraws(a + b) == CountDraws(a) + CountDraws(b)
    decreases |b|
  {
    if b == [] {
      assert a + b == a;
    } else {
      var b' := b[..|b| - 1];
      var last := b[|b| - 1];
      var d := if last.DrawIndexedInstanced? then 1 else 0;
      assert (a + b)[..|a + b| - 1] == a + b';
      assert (a + b)[|a + b| - 1] == last;
      assert CountDraws(a + b) == CountDraws(a + b') + d;
      assert CountDraws(b) == CountDraws(b') + d;
      CountDrawsAppend(a, b');
    }
  }

  lemma {:induction false} CountDrawsNone(cmds: seq<Command>)
    requires forall i :: 0 <= i < |cmds| ==> !cmds[i].DrawIndexedInstanced?
    ensures CountDraws(cmds) == 0
  {
    if cmds != [] {
      CountDrawsNone(cmds[..|cmds| - 1]);
    }
  }

  /** The draw commands hold one draw per name. */
  lemma {:induction false} DrawCommandsCount(meshes: map<string, Mesh>, order: seq<string>)
    requires forall i :: 0 <= i < |order| ==> order[i] in meshes
    ensures CountDraws(DrawCommands(meshes, order)) == |order|
  {
    if order != [] {
      var n := |order| - 1;
      var block := MeshCommands(meshes[order[n]]);
      DrawCommandsCount(meshes, order[..n]);
      CountDrawsAppend(DrawCommands(meshes, order[..n]), block);
      assert block == block[..4] + [block[4]];
      CountDrawsAppend(block[..4], [block[4]]);
      CountDrawsNone(block[..4]);
      assert CountDraws([block[4]]) == 1 by {
        assert [block[4]][..0] == [];
      }
    }
  }

  /** No draw command changes a resource's state. */
  lemma {:induction false} DrawCommandsPassive(meshes: map<string, Mesh>, order: seq<string>)
    requires forall i :: 0 <= i < |order| ==> order[i] in meshes
    ensures forall i :: 0 <= i < |DrawCommands(meshes, order)| ==> Passive(DrawCommands(meshes, order)[i])
  {
    if order != [] {
      DrawCommandsPassive(meshes, order[..|order| - 1]);
    }
  }

  /** The block of name order[k] binds descriptor slot + 1 and draws the
      mesh's index count. */
  lemma {:induction false} DrawCommandsBlocks(meshes: map<string, Mesh>, order: seq<string>)
    requires forall i :: 0 <= i < |order| ==> order[i] in meshes
    ensures forall k :: 0 <= k < |order| ==>
      && DrawCommands(meshes, order)[5 * k + 3] == SetRootDescriptorTable(0, meshes[order[k]].cbPerObjectIndex + 1)
      && DrawCommands(meshes, order)[5 * k + 4] == DrawIndexedInstanced(DrawIndexCount(meshes[order[k]]), 1, 0, 0, 0)
  {
    if order != [] {
      var n := |order| - 1;
      var prefix := order[..n];
      DrawCommandsBlocks(meshes, prefix);
      var r := DrawCommands(meshes, order);
      assert r == DrawCommands(meshes, prefix) + MeshCommands(meshes[order[n]]);
      forall k | 0 <= k < |order|
        ensures r[5 * k + 3] == SetRootDescriptorTable(0, meshes[order[k]].cbPerObjectIndex + 1)
        ensures r[5 * k + 4] == DrawIndexedInstanced(DrawIndexCount(meshes[order[k]]), 1, 0, 0, 0)
      {
        if k < n {
          assert order[k] == prefix[k];
        }
      }
    }
  }

  /** A name order without repeats has as many entries as the set of its names. */
  lemma {:induction false} DistinctNames(order: seq<string>)
    requires forall i, j :: 0 <= i < j < |order| ==> order[i] != order[j]
    ensures |set name | name in order| == |order|
  {
    if order != [] {
      var n := |order| - 1;
      var prefix := order[..n];
      DistinctNames(prefix);
      assert order == prefix + [order[n]];
      assert (set name | name in order) == (set name | name in prefix) + {order[n]};
      assert forall i :: 0 <= i < n ==> prefix[i] != order[n];
    }
  }

  lemma IterationOrderCoversMeshes(order: seq<string>, meshes: map<string, Mesh>)
    requires IsIterationOrder(order, meshes.Keys)
    ensures |order| == |meshes|
  {
    DistinctNames(order);
    assert (set name | name in order) == meshes.Keys;
  }

  /** Executing a list and presenting signal no fence value. */
  lemma SubmissionSignalsNothing(log: seq<QueueOp>, commands: seq<Command>)
    ensures Signals(log + [Execute(commands), PresentFrame]) == Signals(log)
  {
    SignalsAppend(log, Execute(commands));
    SignalsAppend(log + [Execute(commands)], PresentFrame);
    assert log + [Execute(commands), PresentFrame] == log + [Execute(commands)] + [PresentFrame];
  }

  lemma MiddleIndex(head: seq<Command>, middle: seq<Command>, tail: seq<Command>, i: nat)
    requires i < |middle|
    ensures (head + middle + tail)[|head| + i] == middle[i]
  {
  }

  /** Every registered mesh is drawn once per frame. */
  lemma FrameDrawsEachMeshOnce(frameIndex: nat, backBuffer: Handle, meshes: map<string, Mesh>, order: seq<string>)
    requires IsIterationOrder(order, meshes.Keys)
    ensures CountDraws(FrameCommands(frameIndex, backBuffer, meshes, order)) == |meshes|
  {
    var head := FramePrologue(frameIndex, backBuffer);
    var draws := DrawCommands(meshes, order);
    var tail := [Transition(backBuffer, RenderTarget, Present)];
    assert FrameCommands(frameIndex, backBuffer, meshes, order) == head + draws + tail;
    DrawCommandsCount(meshes, order);
    IterationOrderCoversMeshes(order, meshes);
    CountDrawsNone(head);
    CountDrawsNone(tail);
    CountDrawsAppend(head, draws);
    CountDrawsAppend(head + draws, tail);
  }

  /** The k-th draw block of the frame, after the nine prologue commands,
      binds the k-th mesh's descriptor and draws its index count. */
  lemma FrameBindsEachMeshSlot(frameIndex: nat, backBuffer: Handle, meshes: map<string, Mesh>, order: seq<string>)
    requires forall i :: 0 <= i < |order| ==> order[i] in meshes
    ensures forall k :: 0 <= k < |order| ==>
      && FrameCommands(frameIndex, backBuffer, meshes, order)[9 + 5 * k + 3] == SetRootDescriptorTable(0, meshes[order[k]].cbPerObjectIndex + 1)
      && FrameCommands(frameIndex, backBuffer, meshes, order)[9 + 5 * k + 4] == DrawIndexedInstanced(DrawIndexCount(meshes[order[k]]), 1, 0, 0, 0)
  {
    var head := FramePrologue(frameIndex, backBuffer);
    var draws := DrawCommands(meshes, order);
    var tail := [Transition(backBuffer, RenderTarget, Present)];
    assert FrameCommands(frameIndex, backBuffer, meshes, order) == head + draws + tail;
    DrawCommandsBlocks(meshes, order);
    forall k | 0 <= k < |order|
      ensures FrameCommands(frameIndex, backBuffer, meshes, order)[9 + 5 * k + 3] == draws[5 * k + 3]
      ensures FrameCommands(frameIndex, backBuffer, meshes, order)[9 + 5 * k + 4] == draws[5 * k + 4]
    {
      MiddleIndex(head, draws, tail, 5 * k + 3);
      MiddleIndex(head, draws, tail, 5 * k + 4);
    }
  }

  /** The frame as two passive setup commands, the barrier into
      RENDER_TARGET, passive clears, bindings and draws, and the barrier
      back to PRESENT. */
  lemma FrameParts(frameIndex: nat, backBuffer: Handle, meshes: map<string, Mesh>, order: seq<string>)
    requires forall i :: 0 <= i < |order| ==> order[i] in meshes
    ensures var middle := ClearAndBind(frameIndex) + DrawCommands(meshes, order);
      && FrameCommands(frameIndex, backBuffer, meshes, order) ==
           [SetViewport, SetScissorRect] + ([Transition(backBuffer, Present, RenderTarget)] + (middle + [Transition(backBuffer, RenderTarget, Present)]))
      && forall i :: 0 <= i < |middle| ==> Passive(middle[i])
  {
    var middle := ClearAndBind(frameIndex) + DrawCommands(meshes, order);
    DrawCommandsPassive(meshes, order);
    forall i | 0 <= i < |middle|
      ensures Passive(middle[i])
    {
      if i >= 6 {
        assert middle[i] == DrawCommands(meshes, order)[i - 6];
      }
    }
  }

  /** A barrier out of PRESENT, passive commands and the barrier back
      replay to the states they started from. */
  lemma RoundTripFromPresent(states: map<Handle, ResourceState>, backBuffer: Handle, middle: seq<Command>)
    requires backBuffer in states && states[backBuffer] == Present
    requires forall i :: 0 <= i < |middle| ==> Passive(middle[i])
    ensures Replay([Transition(backBuffer, Present, RenderTarget)] + (middle + [Transition(backBuffer, RenderTarget, Present)]), states) == Some(states)
  {
    var toTarget := [Transition(backBuffer, Present, RenderTarget)];
    var tail := [Transition(backBuffer, RenderTarget, Present)];
    var drawing := states[backBuffer := RenderTarget];
    ReplayAppend(toTarget, middle + tail, states);
    assert toTarget[1..] == [];
    assert Replay(toTarget, states) == Some(drawing);
    ReplayPassive(middle, drawing);
    ReplayAppend(middle, tail, drawing);
    assert tail[1..] == [];
    assert drawing[backBuffer := Present] == states;
  }

  /** From a back buffer in PRESENT the frame is legal and hands the buffer
      back in PRESENT, every other state unchanged; from any other state its
      first barrier is rejected. */
  lemma FrameKeepsBackBufferPresentable(states: map<Handle, ResourceState>, frameIndex: nat, backBuffer: Handle,
                                        meshes: map<string, Mesh>, order: seq<string>)
    requires forall i :: 0 <= i < |order| ==> order[i] in meshes
    ensures backBuffer in states && states[backBuffer] == Present ==>
      Replay(FrameCommands(frameIndex, backBuffer, meshes, order), states) == Some(states)
    ensures !(backBuffer in states && states[backBuffer] == Present) ==>
      Replay(FrameCommands(frameIndex, backBuffer, meshes, order), states) == None
  {
    var setup := [SetViewport, SetScissorRect];
    var toTarget := [Transition(backBuffer, Present, RenderTarget)];
    var middle := ClearAndBind(frameIndex) + DrawCommands(meshes, order);
    var rest := toTarget + (middle + [Transition(backBuffer, RenderTarget, Present)]);
    FrameParts(frameIndex, backBuffer, meshes, order);
    ReplayPassive(setup, states);
    ReplayAppend(setup, rest, states);
    if backBuffer in states && states[backBuffer] == Present {
      RoundTripFromPresent(states, backBuffer, middle);
    } else {
      ReplayAppend(toTarget, middle + [Transition(backBuffer, RenderTarget, Present)], states);
      assert toTarget[1..] == [];
    }
  }

  /** Three records written to elements 0, 1 and 2 of a three-element region
      each read back, whatever the region held before. */
  lemma ThreeElementWrites(bytes: seq<byte>, r0: seq<byte>, r1: seq<byte>, r2: seq<byte>)
    requires |bytes| == 3 * ConstantRecordByteSize
    requires |r0| == ConstantRecordByteSize && |r1| == ConstantRecordByteSize && |r2| == ConstantRecordByteSize
    ensures var stride := ConstantRecordByteSize;
      var b1 := Overwrite(bytes, 0 * stride, r0);
      var b2 := Overwrite(b1, 1 * stride, r1);
      var b3 := Overwrite(b2, 2 * stride, r2);
      && |b3| == |bytes|
      && ElementBytes(b3, stride, 0) == r0 && ElementBytes(b3, stride, 1) == r1 && ElementBytes(b3, stride, 2) == r2
  {
    var stride := ConstantRecordByteSize;
    var b1 := Overwrite(bytes, 0 * stride, r0);
    WriteIsolatesElements(bytes, stride, 0, 1, r0);
    OverwriteReadsBack(bytes, 0, r0);
    var b2 := Overwrite(b1, 1 * stride, r1);
    WriteIsolatesElements(b1, stride, 1, 0, r1);
    OverwriteReadsBack(b1, 1 * stride, r1);
    WriteIsolatesElements(b2, stride, 2, 0, r2);
    WriteIsolatesElements(b2, stride, 2, 1, r2);
    OverwriteReadsBack(b2, 2 * stride, r2);
  }

  /** Every registered mesh is well formed under its own name, has one of
      the three per-object slots, and finds its world matrix in the record
      of its slot. */
  ghost predicate WorldsStored(meshes: map<string, Mesh>, bytes: seq<byte>) {
    && |bytes| == 3 * ConstantRecordByteSize
    && forall name :: name in meshes ==>
      && WellFormed(meshes[name]) && meshes[name].name == name
      && meshes[name].cbPerObjectIndex < 3
      && ElementBytes(bytes, ConstantRecordByteSize, meshes[name].cbPerObjectIndex) == ConstantRecordBytes(meshes[name].world)
  }

  /** The three meshes registered with slots 0, 1 and 2 whose world matrices
      were written to records 0, 1 and 2. */
  lemma SceneWorldsStored(meshes: map<string, Mesh>, bytes: seq<byte>, m0: Mesh, m1: Mesh, m2: Mesh, n0: nat, n1: nat, n2: nat)
    requires WellFormed(m0) && WellFormed(m1) && WellFormed(m2)
    requires m0.name != m1.name && m0.name != m2.name && m1.name != m2.name
    requires meshes == map[][m0.name := Registered(m0, 0, n0)][m1.name := Registered(m1, 1, n1)][m2.name := Registered(m2, 2, n2)]
    requires |bytes| == 3 * ConstantRecordByteSize
    requires ElementBytes(bytes, ConstantRecordByteSize, 0) == ConstantRecordBytes(m0.world)
    requires ElementBytes(bytes, ConstantRecordByteSize, 1) == ConstantRecordBytes(m1.world)
    requires ElementBytes(bytes, ConstantRecordByteSize, 2) == ConstantRecordBytes(m2.world)
    ensures meshes.Keys == {m0.name, m1.name, m2.name}
    ensures meshes[m1.name].world == m1.world
    ensures WorldsStored(meshes, bytes)
  {
    forall name | name in meshes
      ensures WellFormed(meshes[name]) && meshes[name].name == name && meshes[name].cbPerObjectIndex < 3
      ensures ElementBytes(bytes, ConstantRecordByteSize, meshes[name].cbPerObjectIndex) == ConstantRecordBytes(meshes[name].world)
    {
      if name == m2.name {
        assert meshes[name] == Registered(m2, 2, n2);
      } else if name == m1.name {
        assert meshes[name] == Registered(m1, 1, n1);
      } else {
        assert meshes[name] == Registered(m0, 0, n0);
      }
    }
  }

  /** A heap's descriptors as Initialize leaves them: every one of the
      `size` descriptors is written, descriptor 0 views the pass record, and
      descriptor j, from 1 to 3, starts at record j - 1 of the per-object
      pool.  Per-object views span the whole pool. */
  ghost predicate ViewsLaidOut(views: map<nat, CbvDesc>, size: nat, pass: Handle, mesh: Handle) {
    && (forall j: nat :: j in views <==> j < size)
    && 0 in views
    && views[0] == CbvDesc(pass, 0, ConstantRecordByteSize)
    && forall j: nat :: 1 <= j < CbvHeapSize ==>
      j in views && views[j] == CbvDesc(mesh, (j - 1) * ConstantRecordByteSize, 3 * ConstantRecordByteSize)
  }

  /** The views AddConstantBuffer writes for the one-record pass pool at
      index 0 and the three-record per-object pool from index 1 fill the
      four-descriptor heap with that layout. */
  lemma CbvHeapLayout(pass: Handle, mesh: Handle)
    ensures ViewsLaidOut(PoolViews(pass, ConstantRecordByteSize, ConstantRecordByteSize, 0, 1)
                         + PoolViews(mesh, ConstantRecordByteSize, 3 * ConstantRecordByteSize, 1, 3),
                         CbvHeapSize, pass, mesh)
  {
    var stride := ConstantRecordByteSize;
    var views := PoolViews(pass, stride, stride, 0, 1) + PoolViews(mesh, stride, 3 * stride, 1, 3);
    PoolViewsKeys(pass, stride, stride, 0, 1);
    PoolViewsKeys(mesh, stride, 3 * stride, 1, 3);
    PoolViewAt(pass, stride, stride, 0, 1, 0);
    forall j: nat | 1 <= j < CbvHeapSize
      ensures views[j] == CbvDesc(mesh, (j - 1) * stride, 3 * stride)
    {
      PoolViewAt(mesh, stride, 3 * stride, 1, 3, j);
    }
  }

  /** With that layout, each mesh whose world record is stored binds, at
      descriptor slot + 1, a view that starts at its own record. */
  lemma MeshDescriptorsViewOwnRecord(views: map<nat, CbvDesc>, size: nat, pass: Handle, mesh: Handle,
                                     meshes: map<string, Mesh>, bytes: seq<byte>, name: string)
    requires ViewsLaidOut(views, size, pass, mesh) && WorldsStored(meshes, bytes) && name in meshes
    ensures meshes[name].cbPerObjectIndex + 1 in views
    ensures views[meshes[name].cbPerObjectIndex + 1].resource == mesh
    ensures views[meshes[name].cbPerObjectIndex + 1].offset == meshes[name].cbPerObjectIndex * ConstantRecordByteSize
    ensures bytes[views[meshes[name].cbPerObjectIndex + 1].offset..][..ConstantRecordByteSize]
      == ConstantRecordBytes(meshes[name].world)
  {
    var slot := meshes[name].cbPerObjectIndex;
    assert slot < 3;
    assert views[slot + 1] == CbvDesc(mesh, (slot + 1 - 1) * ConstantRecordByteSize, 3 * ConstantRecordByteSize);
    assert bytes[slot * ConstantRecordByteSize..][..ConstantRecordByteSize]
      == ElementBytes(bytes, ConstantRecordByteSize, slot);
  }

  // ---------------------------------------------------------------------
  // The engine.

  // ---------------------------------------------------------------------
  // The uploads Initialize submits.

  /** The byte sizes of the scene's buffers: a unit box has 8 vertices and
      36 indices, the 20 x 25 grid 500 vertices and 2736 indices. */
  const BoxVertexBytes: nat := 8 * VertexByteSize
  const BoxIndexBytes: nat := 36 * IndexByteSize
  const GridVertexBytes: nat := 500 * VertexByteSize
  const GridIndexBytes: nat := 2736 * IndexByteSize

  /** The two upload-heap resources BuildConstantBuffers creates: the pass
      pool of one record and the per-object pool of three. */
  function PoolResources(): seq<ResourceDesc> {
    [ResourceDesc(UploadHeap, ConstantRecordByteSize, GenericRead),
     ResourceDesc(UploadHeap, 3 * ConstantRecordByteSize, GenericRead)]
  }

  /** The twelve resources BuildGeometry creates: four per mesh, for the two
      unit boxes and then the grid. */
  function SceneResources(): seq<ResourceDesc> {
    MeshResources(BoxVertexBytes, BoxIndexBytes) + MeshResources(BoxVertexBytes, BoxIndexBytes)
    + MeshResources(GridVertexBytes, GridIndexBytes)
  }

  /** What BuildGeometry records when the scene's resources start at n: the
      upload of each mesh over its own four resources. */
  function SceneUploads(n: nat): seq<Command> {
    MeshUpload(BoxVertexBytes, BoxIndexBytes, n) + MeshUpload(BoxVertexBytes, BoxIndexBytes, n + 4)
    + MeshUpload(GridVertexBytes, GridIndexBytes, n + 8)
  }

  /** Replaying `commands` from the initial states of `resources` is legal,
      and leaves the twelve resources from n on in GENERIC_READ. */
  ghost predicate SceneReadable(commands: seq<Command>, resources: seq<ResourceDesc>, n: nat) {
    var r := Replay(commands, InitialStates(resources));
    && r.Some?
    && forall id :: n <= id < n + 12 ==> Res(id) in r.value && r.value[Res(id)] == GenericRead
  }

  /** Uploading one mesh leaves a later mesh's resources staged. */
  lemma UploadedKeepsStaged(states: map<Handle, ResourceState>, k: nat, n: nat)
    requires StagedAt(states, n) && k + 4 <= n
    ensures StagedAt(Uploaded(states, k), n)
  {
  }

  /** The twelve scene resources, created after `before`, start out staged
      mesh by mesh. */
  lemma SceneResourcesStaged(before: seq<ResourceDesc>)
    ensures var s := InitialStates(before + SceneResources());
      StagedAt(s, |before|) && StagedAt(s, |before| + 4) && StagedAt(s, |before| + 8)
  {
    var box := MeshResources(BoxVertexBytes, BoxIndexBytes);
    var grid := MeshResources(GridVertexBytes, GridIndexBytes);
    var all := before + SceneResources();
    assert all == before + box + (box + grid);
    MeshResourcesStaged(before, BoxVertexBytes, BoxIndexBytes, box + grid);
    assert all == before + box + box + grid;
    MeshResourcesStaged(before + box, BoxVertexBytes, BoxIndexBytes, grid);
    assert all == before + box + box + grid + [];
    MeshResourcesStaged(before + box + box, GridVertexBytes, GridIndexBytes, []);
  }

  /** Over staged resources the scene's uploads are the three mesh uploads
      one after the other. */
  lemma SceneUploadsReplay(states: map<Handle, ResourceState>, n: nat)
    requires StagedAt(states, n) && StagedAt(states, n + 4) && StagedAt(states, n + 8)
    ensures Replay(SceneUploads(n), states) == Some(Uploaded(Uploaded(Uploaded(states, n), n + 4), n + 8))
  {
    var up1 := MeshUpload(BoxVertexBytes, BoxIndexBytes, n);
    var up2 := MeshUpload(BoxVertexBytes, BoxIndexBytes, n + 4);
    var up3 := MeshUpload(GridVertexBytes, GridIndexBytes, n + 8);
    var s1 := Uploaded(states, n);
    var s2 := Uploaded(s1, n + 4);
    MeshUploadLeavesBuffersReadable(states, BoxVertexBytes, BoxIndexBytes, n);
    UploadedKeepsStaged(states, n, n + 4);
    MeshUploadLeavesBuffersReadable(s1, BoxVertexBytes, BoxIndexBytes, n + 4);
    UploadedKeepsStaged(states, n, n + 8);
    UploadedKeepsStaged(s1, n + 4, n + 8);
    MeshUploadLeavesBuffersReadable(s2, GridVertexBytes, GridIndexBytes, n + 8);
    ReplayAppend(up1, up2, states);
    ReplayAppend(up1 + up2, up3, states);
  }

  /** After the three uploads every one of the twelve resources is in
      GENERIC_READ: the default buffers were moved there, the upload
      buffers started there. */
  lemma SceneBuffersReadable(states: map<Handle, ResourceState>, n: nat)
    requires StagedAt(states, n) && StagedAt(states, n + 4) && StagedAt(states, n + 8)
    ensures var r := Uploaded(Uploaded(Uploaded(states, n), n + 4), n + 8);
      forall id :: n <= id < n + 12 ==> Res(id) in r && r[Res(id)] == GenericRead
  {
  }

  /** After Initialize's recording on a list that started empty: the pools'
      and the scene's resources follow those of `before`, and the list holds
      exactly the scene's uploads. */
  ghost predicate UploadsRecorded(commands: seq<Command>, resources: seq<ResourceDesc>, before: seq<ResourceDesc>) {
    && resources == before + PoolResources() + SceneResources()
    && commands == SceneUploads(|before| + |PoolResources()|)
  }

  /** What Initialize submits is legal from the resources' initial states,
      and leaves every buffer of the scene readable. */
  lemma RecordedUploadsLeaveBuffersReadable(commands: seq<Command>, resources: seq<ResourceDesc>, before: seq<ResourceDesc>)
    requires UploadsRecorded(commands, resources, before)
    ensures SceneReadable(commands, resources, |before| + |PoolResources()|)
  {
    SceneUploadsLeaveBuffersReadable(before + PoolResources());
  }

  /** The scene's uploads over its freshly created resources are legal:
      they move each default buffer to GENERIC_READ and touch nothing else,
      so every buffer a draw binds is readable. */
  lemma SceneUploadsLeaveBuffersReadable(before: seq<ResourceDesc>)
    ensures var n := |before|;
      var s0 := InitialStates(before + SceneResources());
      Replay(SceneUploads(n), s0) == Some(Uploaded(Uploaded(Uploaded(s0, n), n + 4), n + 8))
    ensures SceneReadable(SceneUploads(|before|), before + SceneResources(), |before|)
  {
    var s0 := InitialStates(before + SceneResources());
    SceneResourcesStaged(before);
    SceneUploadsReplay(s0, |before|);
    SceneBuffersReadable(s0, |before|);
  }

  /** Three meshes with the scene's buffer sizes, registered one after the
      other, create the scene's resources and record the scene's uploads. */
  lemma SceneOfMeshes(resources: seq<ResourceDesc>, commands: seq<Command>, box1: Mesh, box2: Mesh, grid: Mesh, n: nat)
    requires box1.vertexBufferByteSize == BoxVertexBytes && box1.indexBufferByteSize == BoxIndexBytes
    requires box2.vertexBufferByteSize == BoxVertexBytes && box2.indexBufferByteSize == BoxIndexBytes
    requires grid.vertexBufferByteSize == GridVertexBytes && grid.indexBufferByteSize == GridIndexBytes
    ensures resources + MeshResources(box1.vertexBufferByteSize, box1.indexBufferByteSize)
      + MeshResources(box2.vertexBufferByteSize, box2.indexBufferByteSize)
      + MeshResources(grid.vertexBufferByteSize, grid.indexBufferByteSize)
      == resources + SceneResources()
    ensures commands + MeshUpload(box1.vertexBufferByteSize, box1.indexBufferByteSize, n)
      + MeshUpload(box2.vertexBufferByteSize, box2.indexBufferByteSize, n + 4)
      + MeshUpload(grid.vertexBufferByteSize, grid.indexBufferByteSize, n + 8)
      == commands + SceneUploads(n)
  {
  }

  /** A constant pool of `count` 256-byte records, mapped. */
  ghost predicate PoolShape(pool: UploadBuffer, count: nat)
    reads pool
  {
    pool.Live() && pool.elementByteSize == ConstantRecordByteSize && pool.elementCount == count
  }

  class Engine {
    var resourceManager: ResourceManager
    /** The Direct3D objects InitializeD3D12 builds, each built once. */
    const device: Device
    const fence: Fence
    const commandQueue: CommandQueue
    const commandAllocator: CommandAllocator
    const commandList: CommandList
    const cbvHeap: DescriptorHeap
    /** m_swapChainRenderTargets: one resource per swap-chain buffer. */
    const swapChainRenderTargets: array<Handle>
    /** m_fenceValue: the last value signalled on the queue. */
    var fenceValue: nat
    /** m_frameIndex: the back buffer being drawn. */
    var frameIndex: nat
    /** How many times WaitForPreviousFrame has blocked on the event. */
    ghost var eventWaits: nat

    /** The pacing counters: the fence was last signalled with m_fenceValue,
        the signals so far are 1, 2, ..., m_fenceValue, and the GPU has not
        passed the last one. */
    ghost predicate Counters()
      reads this`fenceValue, this`frameIndex, fence, commandQueue
    {
      && swapChainRenderTargets.Length == FrameCount
      && frameIndex < FrameCount
      && cbvHeap.numDescriptors == CbvHeapSize && cbvHeap.shaderVisible
      && fence.signaledValue == fenceValue && fence.completedValue <= fenceValue
      && Signals(commandQueue.log) == CountingUpTo(fenceValue)
    }

    /** Between frames: additionally, every submitted command list is
        retired, and the resource manager's pools are intact. */
    ghost predicate Valid()
      reads this`resourceManager, this`fenceValue, this`frameIndex, resourceManager`constantBuffers, resourceManager.constantBuffers.Values, fence, commandQueue
    {
      Counters() && AllRetired(commandQueue.log, fence.completedValue) && resourceManager.Valid()
    }

    /** After Initialize: the manager records into this engine's list on this
        engine's device, the list is closed, and both constant pools exist. */
    ghost predicate Ready()
      reads this`resourceManager, resourceManager`device, resourceManager`commandList, resourceManager`constantBuffers, resourceManager.constantBuffers.Values, commandList
    {
      && resourceManager.device == device && resourceManager.commandList == commandList
      && commandList.closed
      && PassConstantsName in resourceManager.constantBuffers
      && MeshConstantsName in resourceManager.constantBuffers
      && PoolShape(resourceManager.constantBuffers[PassConstantsName], 1)
      && PoolShape(resourceManager.constantBuffers[MeshConstantsName], 3)
    }

    /** The CBV heap after BuildConstantBuffers, over the two pools' resources. */
    ghost predicate DescriptorsLaidOut()
      reads this`resourceManager, resourceManager`constantBuffers, resourceManager.constantBuffers.Values, cbvHeap
    {
      && PassConstantsName in resourceManager.constantBuffers
      && MeshConstantsName in resourceManager.constantBuffers
      && ViewsLaidOut(cbvHeap.views, cbvHeap.numDescriptors,
                      resourceManager.constantBuffers[PassConstantsName].uploadBuffer,
                      resourceManager.constantBuffers[MeshConstantsName].uploadBuffer)
    }

    /** The constructor and InitializeD3D12: a default resource manager, the
        fence created at 0, a command list open for recording, the CBV heap
        of four shader-visible descriptors, and the swap chain's buffers, of
        which `backBufferIndex` is current. */
    constructor (renderTargets: seq<Handle>, backBufferIndex: nat)
      requires |renderTargets| == FrameCount && backBufferIndex < FrameCount
      ensures Valid()
      ensures fenceValue == 0 && frameIndex == backBufferIndex && eventWaits == 0
      ensures swapChainRenderTargets[..] == renderTargets
      ensures cbvHeap.views == map[] && !commandList.closed && commandList.commands == []
      ensures commandQueue.log == [] && commandAllocator.resets == 0 && device.resources == []
      ensures fresh(device) && fresh(commandList) && fresh(commandQueue) && fresh(fence) && fresh(cbvHeap)
      ensures fresh(commandAllocator)
      ensures fresh(resourceManager) && resourceManager.device == null && resourceManager.commandList == null
    {
      resourceManager := new ResourceManager.Default();
      device := new Device();
      fence := new Fence(0);
      commandQueue := new CommandQueue();
      commandAllocator := new CommandAllocator();
      commandList := new CommandList();
      cbvHeap := new DescriptorHeap(CbvHeapSize, true);
      var targets := new Handle[FrameCount];
      targets[0], targets[1] := renderTargets[0], renderTargets[1];
      swapChainRenderTargets := targets;
      fenceValue := 0;
      frameIndex := backBufferIndex;
      eventWaits := 0;
      new;
      assert swapChainRenderTargets[..] == renderTargets;
    }

    /** Increments m_fenceValue, signals it, and blocks on the event only
        when the GPU reports a smaller completed value.  `observed` is what
        GetCompletedValue reports; on return every submission is retired. */
    method WaitForPreviousFrame(observed: nat)
      requires Counters()
      requires fence.completedValue <= observed <= fenceValue + 1
      modifies this`fenceValue, this`eventWaits, commandQueue, fence
      ensures fenceValue == old(fenceValue) + 1
      ensures commandQueue.log == old(commandQueue.log) + [QueueOp.Signal(fenceValue)]
      ensures fence.completedValue == fenceValue
      ensures eventWaits == old(eventWaits) + if observed < fenceValue then 1 else 0
      ensures Counters() && AllRetired(commandQueue.log, fence.completedValue)
    {
      fenceValue := fenceValue + 1;
      commandQueue.Signal(fence, fenceValue);
      var completedValue := fence.GetCompletedValue(observed);
      if completedValue < fenceValue {
        fence.WaitForValue(fenceValue, fenceValue);
        eventWaits := eventWaits + 1;
      }
      SignalsAppend(old(commandQueue.log), QueueOp.Signal(fenceValue));
      RetiredBySignal(commandQueue.log, fence.completedValue);
    }

    /** BuildConstantBuffers: the pass pool (one element, registered with
        sizeof(MeshConstants)) at heap index 0, then the per-object pool
        (three elements) at indices 1 to 3. */
    method BuildConstantBuffers()
      requires resourceManager.Valid() && resourceManager.device == device
      requires resourceManager.constantBuffers == map[] && resourceManager.currCBVHeapIndex == 0 && cbvHeap.views == map[]
      modifies resourceManager`constantBuffers, resourceManager`currCBVHeapIndex, device, cbvHeap
      ensures resourceManager.Valid()
      ensures resourceManager.constantBuffers.Keys == {PassConstantsName, MeshConstantsName}
      ensures PoolShape(resourceManager.constantBuffers[PassConstantsName], 1)
      ensures PoolShape(resourceManager.constantBuffers[MeshConstantsName], 3)
      ensures fresh(resourceManager.constantBuffers[PassConstantsName]) && fresh(resourceManager.constantBuffers[MeshConstantsName])
      ensures fresh(resourceManager.constantBuffers[PassConstantsName].mappedData)
      ensures fresh(resourceManager.constantBuffers[MeshConstantsName].mappedData)
      ensures cbvHeap.views ==
        PoolViews(resourceManager.constantBuffers[PassConstantsName].uploadBuffer, ConstantRecordByteSize, ConstantRecordByteSize, 0, 1)
        + PoolViews(resourceManager.constantBuffers[MeshConstantsName].uploadBuffer, ConstantRecordByteSize, 3 * ConstantRecordByteSize, 1, 3)
      ensures resourceManager.currCBVHeapIndex == CbvHeapSize
      ensures device.resources == old(device.resources) + PoolResources()
    {
      PaddedSizeExamples();
      assert PassConstantsName[0] != MeshConstantsName[0];
      var stride := ConstantRecordByteSize;
      assert ViewSize(stride, 1) == stride && ViewSize(stride, 3) == 3 * stride;
      resourceManager.AddConstantBuffer(PassConstantsName, stride, 1, cbvHeap);
      var pass := resourceManager.constantBuffers[PassConstantsName];
      ghost var passViews := PoolViews(pass.uploadBuffer, stride, stride, 0, 1);
      assert cbvHeap.views == passViews by {
        assert map[] + passViews == passViews;
      }
      resourceManager.AddConstantBuffer(MeshConstantsName, stride, 3, cbvHeap);
      assert resourceManager.constantBuffers[PassConstantsName] == pass;
    }

    /** One `m_resourceManager.AddMesh` of a mesh whose name is new, while
        the free list is empty: the mesh is stored under its name with the
        next fresh slot and its four staging buffers, whose upload is
        appended to the command list. */
    method RegisterMesh(mesh: Mesh)
      requires resourceManager.device == device && resourceManager.commandList == commandList
      requires !commandList.closed && mesh.name !in resourceManager.meshes
      requires resourceManager.freeCBPerObjectIndex == []
      modifies resourceManager`meshes, resourceManager`freeCBPerObjectIndex, resourceManager`newCBPerObjectIndex
      modifies device, commandList
      ensures !commandList.closed
      ensures resourceManager.freeCBPerObjectIndex == []
      ensures resourceManager.newCBPerObjectIndex == old(resourceManager.newCBPerObjectIndex) + 1
      ensures device.resources == old(device.resources) + MeshResources(mesh.vertexBufferByteSize, mesh.indexBufferByteSize)
      ensures commandList.commands == old(commandList.commands)
        + MeshUpload(mesh.vertexBufferByteSize, mesh.indexBufferByteSize, |old(device.resources)|)
      ensures resourceManager.meshes ==
        old(resourceManager.meshes)[mesh.name := Registered(mesh, old(resourceManager.newCBPerObjectIndex), |old(device.resources)|)]
      ensures SlotsSound(old(resourceManager.meshes), old(resourceManager.Slots()))
        ==> SlotsSound(resourceManager.meshes, resourceManager.Slots())
    {
      var _ := resourceManager.AddMesh(mesh);
    }

    /** The three AddMesh calls of BuildGeometry on a fresh manager: the
        meshes get slots 0, 1 and 2 in call order, whatever slot they
        carried, and each gets the four staging buffers created next. */
    method RegisterMeshes(unitBox1: Mesh, unitBox2: Mesh, grid: Mesh) returns (ghost n1: nat, ghost n2: nat, ghost n3: nat)
      requires resourceManager.device == device && resourceManager.commandList == commandList
      requires !commandList.closed
      requires unitBox1.name != unitBox2.name && unitBox1.name != grid.name && unitBox2.name != grid.name
      requires resourceManager.meshes == map[] && resourceManager.Slots() == Initial
      modifies resourceManager`meshes, resourceManager`freeCBPerObjectIndex, resourceManager`newCBPerObjectIndex
      modifies device, commandList
      ensures !commandList.closed
      ensures resourceManager.meshes ==
        map[][unitBox1.name := Registered(unitBox1, 0, n1)][unitBox2.name := Registered(unitBox2, 1, n2)][grid.name := Registered(grid, 2, n3)]
      ensures n1 == |old(device.resources)| && n2 == n1 + 4 && n3 == n2 + 4
      ensures resourceManager.Slots() == Allocator([], 3)
      ensures SlotsSound(resourceManager.meshes, resourceManager.Slots())
      ensures device.resources == old(device.resources)
        + MeshResources(unitBox1.vertexBufferByteSize, unitBox1.indexBufferByteSize)
        + MeshResources(unitBox2.vertexBufferByteSize, unitBox2.indexBufferByteSize)
        + MeshResources(grid.vertexBufferByteSize, grid.indexBufferByteSize)
      ensures commandList.commands == old(commandList.commands)
        + MeshUpload(unitBox1.vertexBufferByteSize, unitBox1.indexBufferByteSize, n1)
        + MeshUpload(unitBox2.vertexBufferByteSize, unitBox2.indexBufferByteSize, n2)
        + MeshUpload(grid.vertexBufferByteSize, grid.indexBufferByteSize, n3)
    {
      InitialSlotsSound();
      n1 := |device.resources|;
      RegisterMesh(unitBox1);
      n2 := |device.resources|;
      RegisterMesh(unitBox2);
      n3 := |device.resources|;
      RegisterMesh(grid);
    }

    /** The three `UpdateConstantBuffer("MeshConstants", k, ...)` calls of
        BuildGeometry: records k = 0, 1, 2 of the per-object pool then hold
        the three world matrices. */
    method WriteMeshConstants(w0: Float4x4, w1: Float4x4, w2: Float4x4)
      requires resourceManager.Valid()
      requires MeshConstantsName in resourceManager.constantBuffers && PoolShape(resourceManager.constantBuffers[MeshConstantsName], 3)
      modifies resourceManager.constantBuffers[MeshConstantsName].mappedData
      ensures resourceManager.Valid()
      ensures var bytes := resourceManager.constantBuffers[MeshConstantsName].mappedData[..];
        && |bytes| == 3 * ConstantRecordByteSize
        && ElementBytes(bytes, ConstantRecordByteSize, 0) == ConstantRecordBytes(w0)
        && ElementBytes(bytes, ConstantRecordByteSize, 1) == ConstantRecordBytes(w1)
        && ElementBytes(bytes, ConstantRecordByteSize, 2) == ConstantRecordBytes(w2)
    {
      var pool := resourceManager.constantBuffers[MeshConstantsName];
      ghost var stride := ConstantRecordByteSize;
      ghost var r0, r1, r2 := ConstantRecordBytes(w0), ConstantRecordBytes(w1), ConstantRecordBytes(w2);
      assert r0[..stride] == r0 && r1[..stride] == r1 && r2[..stride] == r2;
      ghost var before := pool.mappedData[..];
      ElementOffsetExact(0, stride);
      resourceManager.UpdateConstantBuffer(MeshConstantsName, 0, w0);
      ghost var b1 := pool.mappedData[..];
      assert b1 == Overwrite(before, 0 * stride, r0);
      ElementOffsetExact(1, stride);
      resourceManager.UpdateConstantBuffer(MeshConstantsName, 1, w1);
      ghost var b2 := pool.mappedData[..];
      assert b2 == Overwrite(b1, 1 * stride, r1);
      ElementOffsetExact(2, stride);
      resourceManager.UpdateConstantBuffer(MeshConstantsName, 2, w2);
      assert pool.mappedData[..] == Overwrite(b2, 2 * stride, r2);
      ThreeElementWrites(before, r0, r1, r2);
    }

    /** The meshes BuildGeometry builds: two unit boxes, the second moved by
        (2, 2, 2), and the 20 x 25 grid, each with the slot set by hand
        (the third box, moved by (-2, -2, -2), is built and dropped). */
    static method BuildMeshes() returns (unitBox1: Mesh, unitBox2: Mesh, grid: Mesh)
      ensures unitBox1.name == UnitBox1Name && unitBox2.name == UnitBox2Name && grid.name == GridName
      ensures WellFormed(unitBox1) && WellFormed(unitBox2) && WellFormed(grid)
      ensures unitBox1.cbPerObjectIndex == 0 && unitBox2.cbPerObjectIndex == 1 && grid.cbPerObjectIndex == 2
      ensures unitBox1.world == Identity() && unitBox2.world == TransposedTranslation(FloatTwo) && grid.world == Identity()
      ensures unitBox1 == GenerateUnitBox(UnitBox1Name).(cbPerObjectIndex := 0)
      ensures unitBox2 == GenerateUnitBox(UnitBox2Name).(cbPerObjectIndex := 1, world := TransposedTranslation(FloatTwo))
      ensures grid.vertices == GridVertices(EngineGridWidth, EngineGridLength)
      ensures grid.indices32 == GridIndices(EngineGridWidth, EngineGridLength)
      ensures unitBox1.vertexBufferByteSize == BoxVertexBytes && unitBox1.indexBufferByteSize == BoxIndexBytes
      ensures unitBox2.vertexBufferByteSize == BoxVertexBytes && unitBox2.indexBufferByteSize == BoxIndexBytes
      ensures grid.vertexBufferByteSize == GridVertexBytes && grid.indexBufferByteSize == GridIndexBytes
    {
      unitBox1 := GenerateUnitBox(UnitBox1Name).(cbPerObjectIndex := 0);
      unitBox2 := GenerateUnitBox(UnitBox2Name).(cbPerObjectIndex := 1, world := TransposedTranslation(FloatTwo));
      var unitBox3 := GenerateUnitBox(UnitBox3Name).(cbPerObjectIndex := 2, world := TransposedTranslation(FloatMinusTwo));
      EngineGridShape();
      grid := GenerateGrid(GridName, EngineGridWidth, EngineGridLength);
      grid := grid.(cbPerObjectIndex := 2);
    }

    /** BuildGeometry: two unit boxes and the 20 x 25 grid are registered
        (a third box is built but not registered), and AddMesh overrides the
        slots set by hand with 0, 1 and 2; then each mesh's world matrix is
        written to the per-object pool at indices 0, 1 and 2, so every
        registered mesh finds its own world matrix in its own slot, and the
        meshes' uploads are on the command list. */
    method BuildGeometry()
      requires resourceManager.Valid() && resourceManager.device == device && resourceManager.commandList == commandList
      requires !commandList.closed
      requires MeshConstantsName in resourceManager.constantBuffers && PoolShape(resourceManager.constantBuffers[MeshConstantsName], 3)
      requires resourceManager.meshes == map[] && resourceManager.Slots() == Initial
      modifies resourceManager`meshes, resourceManager`freeCBPerObjectIndex, resourceManager`newCBPerObjectIndex
      modifies device, commandList, resourceManager.constantBuffers[MeshConstantsName].mappedData
      ensures resourceManager.Valid() && !commandList.closed
      ensures resourceManager.meshes.Keys == {UnitBox1Name, UnitBox2Name, GridName}
      ensures resourceManager.meshes[UnitBox2Name].world == TransposedTranslation(FloatTwo)
      ensures resourceManager.Slots() == Allocator([], 3)
      ensures SlotsSound(resourceManager.meshes, resourceManager.Slots())
      ensures WorldsStored(resourceManager.meshes, resourceManager.constantBuffers[MeshConstantsName].mappedData[..])
      ensures device.resources == old(device.resources) + SceneResources()
      ensures commandList.commands == old(commandList.commands) + SceneUploads(|old(device.resources)|)
    {
      var unitBox1, unitBox2, grid := BuildMeshes();
      StoreScene(unitBox1, unitBox2, grid);
    }

    /** BuildGeometry past building the meshes: their registration and their
        world records. */
    method StoreScene(unitBox1: Mesh, unitBox2: Mesh, grid: Mesh)
      requires resourceManager.Valid() && resourceManager.device == device && resourceManager.commandList == commandList
      requires !commandList.closed
      requires MeshConstantsName in resourceManager.constantBuffers && PoolShape(resourceManager.constantBuffers[MeshConstantsName], 3)
      requires resourceManager.meshes == map[] && resourceManager.Slots() == Initial
      requires unitBox1.name == UnitBox1Name && unitBox2.name == UnitBox2Name && grid.name == GridName
      requires WellFormed(unitBox1) && WellFormed(unitBox2) && WellFormed(grid)
      requires unitBox2.world == TransposedTranslation(FloatTwo)
      requires unitBox1.vertexBufferByteSize == BoxVertexBytes && unitBox1.indexBufferByteSize == BoxIndexBytes
      requires unitBox2.vertexBufferByteSize == BoxVertexBytes && unitBox2.indexBufferByteSize == BoxIndexBytes
      requires grid.vertexBufferByteSize == GridVertexBytes && grid.indexBufferByteSize == GridIndexBytes
      modifies resourceManager`meshes, resourceManager`freeCBPerObjectIndex, resourceManager`newCBPerObjectIndex
      modifies device, commandList, resourceManager.constantBuffers[MeshConstantsName].mappedData
      ensures resourceManager.Valid() && !commandList.closed
      ensures resourceManager.meshes.Keys == {UnitBox1Name, UnitBox2Name, GridName}
      ensures resourceManager.meshes[UnitBox2Name].world == TransposedTranslation(FloatTwo)
      ensures resourceManager.Slots() == Allocator([], 3)
      ensures SlotsSound(resourceManager.meshes, resourceManager.Slots())
      ensures WorldsStored(resourceManager.meshes, resourceManager.constantBuffers[MeshConstantsName].mappedData[..])
      ensures device.resources == old(device.resources) + SceneResources()
      ensures commandList.commands == old(commandList.commands) + SceneUploads(|old(device.resources)|)
    {
      SceneNamesDistinct();
      ghost var n1, n2, n3 := RegisterMeshes(unitBox1, unitBox2, grid);
      SceneOfMeshes(old(device.resources), old(commandList.commands), unitBox1, unitBox2, grid, n1);
      WriteMeshConstants(unitBox1.world, unitBox2.world, grid.world);
      SceneWorldsStored(resourceManager.meshes, resourceManager.constantBuffers[MeshConstantsName].mappedData[..],
                        unitBox1, unitBox2, grid, n1, n2, n3);
    }

    /** Initialize: the resource manager is rebuilt on this engine's device
        and command list, the constant pools and the meshes are built, and
        the recorded uploads are submitted and waited for.  Afterwards the
        heap has the four-view layout and every registered mesh's record
        holds its world matrix, so (MeshDescriptorsViewOwnRecord) the
        descriptor each mesh binds views its own world matrix. */
    method Initialize(observed: nat)
      requires Valid() && !commandList.closed && commandList.commands == [] && cbvHeap.views == map[]
      requires fence.completedValue <= observed <= fenceValue + 1
      modifies this`resourceManager, this`fenceValue, this`eventWaits
      modifies device, commandList, commandQueue, fence, cbvHeap
      ensures Valid() && Ready()
      ensures fresh(resourceManager) && fresh(resourceManager.constantBuffers[PassConstantsName].mappedData)
      ensures resourceManager.meshes.Keys == {UnitBox1Name, UnitBox2Name, GridName}
      ensures resourceManager.meshes[UnitBox2Name].world == TransposedTranslation(FloatTwo)
      ensures resourceManager.Slots() == Allocator([], 3)
      ensures WorldsStored(resourceManager.meshes, resourceManager.constantBuffers[MeshConstantsName].mappedData[..])
      ensures DescriptorsLaidOut()
      ensures SlotsSound(resourceManager.meshes, resourceManager.Slots())
      ensures commandQueue.log == old(commandQueue.log) + [Execute(commandList.commands), QueueOp.Signal(fenceValue)]
      ensures fenceValue == old(fenceValue) + 1 && fence.completedValue == fenceValue
      ensures UploadsRecorded(commandList.commands, device.resources, old(device.resources))
      ensures frameIndex == old(frameIndex) && commandAllocator.resets == old(commandAllocator.resets)
      ensures swapChainRenderTargets[..] == old(swapChainRenderTargets[..])
    {
      BuildScene();
      SubmitAndWait(observed);
    }

    /** Initialize up to the list's Close: a fresh resource manager on this
        engine's device and list, the constant pools, the meshes and their
        world records, with the descriptor layout that results. */
    method BuildScene()
      requires !commandList.closed && commandList.commands == []
      requires cbvHeap.views == map[] && cbvHeap.numDescriptors == CbvHeapSize
      modifies this`resourceManager, device, commandList, cbvHeap
      ensures fresh(resourceManager) && resourceManager.Valid() && Ready()
      ensures fresh(resourceManager.constantBuffers[PassConstantsName].mappedData)
      ensures resourceManager.meshes.Keys == {UnitBox1Name, UnitBox2Name, GridName}
      ensures resourceManager.meshes[UnitBox2Name].world == TransposedTranslation(FloatTwo)
      ensures resourceManager.Slots() == Allocator([], 3)
      ensures WorldsStored(resourceManager.meshes, resourceManager.constantBuffers[MeshConstantsName].mappedData[..])
      ensures DescriptorsLaidOut()
      ensures SlotsSound(resourceManager.meshes, resourceManager.Slots())
      ensures UploadsRecorded(commandList.commands, device.resources, old(device.resources))
    {
      RecordScene();
      commandList.Close();
    }

    /** BuildScene before the Close. */
    method RecordScene()
      requires !commandList.closed && commandList.commands == []
      requires cbvHeap.views == map[] && cbvHeap.numDescriptors == CbvHeapSize
      modifies this`resourceManager, device, commandList, cbvHeap
      ensures fresh(resourceManager) && resourceManager.Valid() && !commandList.closed
      ensures resourceManager.device == device && resourceManager.commandList == commandList
      ensures PassConstantsName in resourceManager.constantBuffers && MeshConstantsName in resourceManager.constantBuffers
      ensures fresh(resourceManager.constantBuffers[PassConstantsName].mappedData)
      ensures PoolShape(resourceManager.constantBuffers[PassConstantsName], 1)
      ensures PoolShape(resourceManager.constantBuffers[MeshConstantsName], 3)
      ensures resourceManager.meshes.Keys == {UnitBox1Name, UnitBox2Name, GridName}
      ensures resourceManager.meshes[UnitBox2Name].world == TransposedTranslation(FloatTwo)
      ensures resourceManager.Slots() == Allocator([], 3)
      ensures WorldsStored(resourceManager.meshes, resourceManager.constantBuffers[MeshConstantsName].mappedData[..])
      ensures DescriptorsLaidOut()
      ensures SlotsSound(resourceManager.meshes, resourceManager.Slots())
      ensures UploadsRecorded(commandList.commands, device.resources, old(device.resources))
    {
      BuildPools();
      ghost var pooled := device.resources;
      BuildGeometry();
      assert commandList.commands == SceneUploads(|pooled|);
    }

    /** Initialize's start: the resource manager is rebuilt on this
        engine's device and command list, and BuildConstantBuffers runs. */
    method BuildPools()
      requires cbvHeap.views == map[] && cbvHeap.numDescriptors == CbvHeapSize
      modifies this`resourceManager, device, cbvHeap
      ensures fresh(resourceManager) && resourceManager.Valid()
      ensures resourceManager.device == device && resourceManager.commandList == commandList
      ensures resourceManager.meshes == map[] && resourceManager.Slots() == Initial
      ensures resourceManager.constantBuffers.Keys == {PassConstantsName, MeshConstantsName}
      ensures PoolShape(resourceManager.constantBuffers[PassConstantsName], 1)
      ensures PoolShape(resourceManager.constantBuffers[MeshConstantsName], 3)
      ensures fresh(resourceManager.constantBuffers[PassConstantsName].mappedData)
      ensures fresh(resourceManager.constantBuffers[MeshConstantsName].mappedData)
      ensures DescriptorsLaidOut()
      ensures device.resources == old(device.resources) + PoolResources()
    {
      resourceManager := new ResourceManager(commandList, device);
      BuildConstantBuffers();
      CbvHeapLayout(resourceManager.constantBuffers[PassConstantsName].uploadBuffer,
                    resourceManager.constantBuffers[MeshConstantsName].uploadBuffer);
    }

    /** Initialize's tail: the recorded uploads are executed and waited for. */
    method SubmitAndWait(observed: nat)
      requires Counters() && commandList.closed
      requires fence.completedValue <= observed <= fenceValue + 1
      modifies this`fenceValue, this`eventWaits, commandQueue, fence
      ensures Counters() && AllRetired(commandQueue.log, fence.completedValue)
      ensures commandQueue.log == old(commandQueue.log) + [Execute(commandList.commands), QueueOp.Signal(fenceValue)]
      ensures fenceValue == old(fenceValue) + 1 && fence.completedValue == fenceValue
    {
      commandQueue.ExecuteCommandLists(commandList);
      SignalsAppend(old(commandQueue.log), Execute(commandList.commands));
      WaitForPreviousFrame(observed);
    }

    /** Update, past the camera: the transposed view-projection matrix is
        written to the one pass record; the per-object records are
        untouched. */
    method Update(viewProj: Float4x4)
      requires Valid() && Ready()
      modifies resourceManager.constantBuffers[PassConstantsName].mappedData
      ensures Valid() && Ready()
      ensures ElementBytes(resourceManager.constantBuffers[PassConstantsName].mappedData[..], ConstantRecordByteSize, 0)
        == ConstantRecordBytes(viewProj)
      ensures resourceManager.constantBuffers[MeshConstantsName].mappedData[..]
        == old(resourceManager.constantBuffers[MeshConstantsName].mappedData[..])
    {
      var pool := resourceManager.constantBuffers[PassConstantsName];
      ghost var before := pool.mappedData[..];
      ElementOffsetExact(0, ConstantRecordByteSize);
      resourceManager.UpdateConstantBuffer(PassConstantsName, 0, viewProj);
      ghost var record := ConstantRecordBytes(viewProj);
      assert record[..ConstantRecordByteSize] == record;
      OverwriteReadsBack(before, 0, record);
      assert pool.mappedData[..][0..ConstantRecordByteSize] == record;
    }

    /** The loop over the meshes: each mesh's five commands, in `order`. */
    method RecordDraws(meshes: map<string, Mesh>, order: seq<string>)
      requires !commandList.closed
      requires forall i :: 0 <= i < |order| ==> order[i] in meshes
      modifies commandList
      ensures !commandList.closed
      ensures commandList.commands == old(commandList.commands) + DrawCommands(meshes, order)
    {
      var i := 0;
      while i < |order|
        invariant 0 <= i <= |order|
        invariant !commandList.closed
        invariant commandList.commands == old(commandList.commands) + DrawCommands(meshes, order[..i])
      {
        var mesh := meshes[order[i]];
        commandList.Record(SetVertexBuffer(mesh.vertexBufferGpu, mesh.vertexByteStride, mesh.vertexBufferByteSize));
        commandList.Record(SetIndexBuffer(mesh.indexBufferGpu, mesh.indexFormat, mesh.indexBufferByteSize));
        commandList.Record(SetTriangleListTopology);
        commandList.Record(SetRootDescriptorTable(0, mesh.cbPerObjectIndex + 1));
        commandList.Record(DrawIndexedInstanced(DrawIndexCount(mesh), 1, 0, 0, 0));
        assert order[..i + 1][..i] == order[..i];
        i := i + 1;
      }
      assert order[..i] == order;
    }

    /** Render's recording, from the allocator's Reset (legal, since every
        submission is retired) to the list's Close: the frame for back
        buffer m_frameIndex over the meshes in `order`. */
    method RecordFrame(meshes: map<string, Mesh>, order: seq<string>)
      requires Counters() && AllRetired(commandQueue.log, fence.completedValue) && commandList.closed
      requires forall i :: 0 <= i < |order| ==> order[i] in meshes
      modifies commandAllocator, commandList
      ensures commandList.closed && commandAllocator.resets == old(commandAllocator.resets) + 1
      ensures commandList.commands == FrameCommands(frameIndex, swapChainRenderTargets[frameIndex], meshes, order)
    {
      commandAllocator.Reset(commandQueue, fence);
      commandList.Reset();
      var backBuffer := swapChainRenderTargets[frameIndex];
      RecordPrologue(backBuffer);
      RecordDraws(meshes, order);
      commandList.Record(Transition(backBuffer, RenderTarget, Present));
      commandList.Close();
    }

    /** The frame's fixed opening on a freshly reset list: viewport and
        scissor, the back buffer into RENDER_TARGET, the clears, the render
        targets, the CBV heap, the root signature, and the pass table. */
    method RecordPrologue(backBuffer: Handle)
      requires !commandList.closed && commandList.commands == []
      modifies commandList
      ensures !commandList.closed && commandList.commands == FramePrologue(frameIndex, backBuffer)
    {
      commandList.Record(SetViewport);
      commandList.Record(SetScissorRect);
      commandList.Record(Transition(backBuffer, Present, RenderTarget));
      commandList.Record(ClearRenderTarget(frameIndex));
      commandList.Record(ClearDepthStencil);
      commandList.Record(SetRenderTargets(frameIndex));
      commandList.Record(SetDescriptorHeap);
      commandList.Record(SetRootSignature);
      commandList.Record(SetRootDescriptorTable(1, 0));
    }

    /** Render: resets the allocator (legal, since the previous frame was
        waited for), records the frame for back buffer m_frameIndex,
        submits it, presents, waits for it, and moves to the other back
        buffer.  `order` is the hash map's iteration order. */
    method Render(observed: nat, order: seq<string>)
      requires Valid() && Ready()
      requires IsIterationOrder(order, resourceManager.meshes.Keys)
      requires fence.completedValue <= observed <= fenceValue + 1
      modifies this`fenceValue, this`frameIndex, this`eventWaits
      modifies commandAllocator, commandList, commandQueue, fence
      ensures Valid() && Ready()
      ensures commandList.commands ==
        FrameCommands(old(frameIndex), swapChainRenderTargets[old(frameIndex)], resourceManager.meshes, order)
      ensures commandQueue.log == old(commandQueue.log) + [Execute(commandList.commands), PresentFrame, QueueOp.Signal(fenceValue)]
      ensures fenceValue == old(fenceValue) + 1 && fence.completedValue == fenceValue
      ensures frameIndex == NextFrameIndex(old(frameIndex))
      ensures commandAllocator.resets == old(commandAllocator.resets) + 1
    {
      var meshes := resourceManager.GetAllMeshes();
      RecordFrame(meshes, order);
      PresentFrameAndWait(observed);
    }

    /** One pass of the message loop that finds no window message: Update
        writes the pass record, then Render draws and presents the frame. */
    method Frame(viewProj: Float4x4, observed: nat, order: seq<string>)
      requires Valid() && Ready()
      requires IsIterationOrder(order, resourceManager.meshes.Keys)
      requires fence.completedValue <= observed <= fenceValue + 1
      modifies this`fenceValue, this`frameIndex, this`eventWaits
      modifies commandAllocator, commandList, commandQueue, fence, resourceManager.constantBuffers[PassConstantsName].mappedData
      ensures Valid() && Ready()
      ensures ElementBytes(resourceManager.constantBuffers[PassConstantsName].mappedData[..], ConstantRecordByteSize, 0)
        == ConstantRecordBytes(viewProj)
      ensures resourceManager.constantBuffers[MeshConstantsName].mappedData[..]
        == old(resourceManager.constantBuffers[MeshConstantsName].mappedData[..])
      ensures commandList.commands ==
        FrameCommands(old(frameIndex), swapChainRenderTargets[old(frameIndex)], resourceManager.meshes, order)
      ensures fenceValue == old(fenceValue) + 1 && fence.completedValue == fenceValue
      ensures frameIndex == NextFrameIndex(old(frameIndex))
      ensures commandAllocator.resets == old(commandAllocator.resets) + 1
      ensures resourceManager == old(resourceManager) && resourceManager.meshes == old(resourceManager.meshes)
      ensures swapChainRenderTargets[..] == old(swapChainRenderTargets[..])
    {
      Update(viewProj);
      Render(observed, order);
    }

    /** The message loop after Initialize: frame k runs Update with
        `viewProjs[k]`, then Render, whose wait finds the GPU already done
        when `gpuCaughtUp[k]` holds. */
    method RunFrames(viewProjs: seq<Float4x4>, gpuCaughtUp: seq<bool>, order: seq<string>)
      requires Valid() && Ready()
      requires IsIterationOrder(order, resourceManager.meshes.Keys)
      requires fence.completedValue == fenceValue
      requires WorldsStored(resourceManager.meshes, resourceManager.constantBuffers[MeshConstantsName].mappedData[..])
      requires |gpuCaughtUp| == |viewProjs|
      modifies this`fenceValue, this`frameIndex, this`eventWaits
      modifies commandAllocator, commandList, commandQueue, fence, resourceManager.constantBuffers[PassConstantsName].mappedData
      ensures Valid() && Ready()
      ensures resourceManager == old(resourceManager) && resourceManager.meshes == old(resourceManager.meshes)
      ensures swapChainRenderTargets[..] == old(swapChainRenderTargets[..])
      ensures resourceManager.constantBuffers[MeshConstantsName].mappedData[..]
        == old(resourceManager.constantBuffers[MeshConstantsName].mappedData[..])
      ensures WorldsStored(resourceManager.meshes, resourceManager.constantBuffers[MeshConstantsName].mappedData[..])
      ensures fenceValue == old(fenceValue) + |viewProjs| && fence.completedValue == fenceValue
      ensures frameIndex == FrameIndexAfter(old(frameIndex), |viewProjs|)
      ensures commandAllocator.resets == old(commandAllocator.resets) + |viewProjs|
      ensures |viewProjs| > 0 ==>
        && ElementBytes(resourceManager.constantBuffers[PassConstantsName].mappedData[..], ConstantRecordByteSize, 0)
           == ConstantRecordBytes(viewProjs[|viewProjs| - 1])
        && var last := FrameIndexAfter(old(frameIndex), |viewProjs| - 1);
           commandList.commands == FrameCommands(last, swapChainRenderTargets[last], resourceManager.meshes, order)
    {
      var k := 0;
      while k < |viewProjs|
        invariant 0 <= k <= |viewProjs|
        invariant Valid() && Ready()
        invariant resourceManager == old(resourceManager) && resourceManager.meshes == old(resourceManager.meshes)
        invariant swapChainRenderTargets[..] == old(swapChainRenderTargets[..])
        invariant resourceManager.constantBuffers[MeshConstantsName].mappedData[..]
          == old(resourceManager.constantBuffers[MeshConstantsName].mappedData[..])
        invariant fenceValue == old(fenceValue) + k && fence.completedValue == fenceValue
        invariant frameIndex == FrameIndexAfter(old(frameIndex), k)
        invariant commandAllocator.resets == old(commandAllocator.resets) + k
        invariant k > 0 ==>
          && ElementBytes(resourceManager.constantBuffers[PassConstantsName].mappedData[..], ConstantRecordByteSize, 0)
             == ConstantRecordBytes(viewProjs[k - 1])
          && var last := FrameIndexAfter(old(frameIndex), k - 1);
             commandList.commands == FrameCommands(last, swapChainRenderTargets[last], resourceManager.meshes, order)
      {
        Frame(viewProjs[k], if gpuCaughtUp[k] then fenceValue + 1 else fence.completedValue, order);
        k := k + 1;
      }
    }

    /** Render's submission: the closed list is executed, the swap chain
        presents, WaitForPreviousFrame signals and waits, and m_frameIndex
        moves to the other back buffer. */
    method PresentFrameAndWait(observed: nat)
      requires Counters() && commandList.closed
      requires fence.completedValue <= observed <= fenceValue + 1
      modifies this`fenceValue, this`frameIndex, this`eventWaits, commandQueue, fence
      ensures Counters() && AllRetired(commandQueue.log, fence.completedValue)
      ensures commandQueue.log == old(commandQueue.log) + [Execute(commandList.commands), PresentFrame, QueueOp.Signal(fenceValue)]
      ensures fenceValue == old(fenceValue) + 1 && fence.completedValue == fenceValue
      ensures frameIndex == NextFrameIndex(old(frameIndex))
    {
      ghost var log := commandQueue.log;
      commandQueue.ExecuteCommandLists(commandList);
      commandQueue.Present();
      SubmissionSignalsNothing(log, commandList.commands);
      WaitForPreviousFrame(observed);
      frameIndex := (frameIndex + 1) % FrameCount;
    }
  }

  /** The start of the engine's lifetime: construction and Initialize.
      `gpuCaughtUp` says whether the GPU already reports the value that
      Initialize's wait signals. */
  method Start(renderTargets: seq<Handle>, backBufferIndex: nat, gpuCaughtUp: bool) returns (engine: Engine)
    requires |renderTargets| == FrameCount && backBufferIndex < FrameCount
    ensures engine.Valid() && engine.Ready()
    ensures fresh(engine) && fresh(engine.commandAllocator) && fresh(engine.commandList)
    ensures fresh(engine.commandQueue) && fresh(engine.fence)
    ensures fresh(engine.resourceManager.constantBuffers[PassConstantsName].mappedData)
    ensures engine.swapChainRenderTargets[..] == renderTargets
    ensures engine.resourceManager.meshes.Keys == {UnitBox1Name, UnitBox2Name, GridName}
    ensures engine.fenceValue == 1 && engine.fence.completedValue == 1
    ensures engine.frameIndex == backBufferIndex && engine.commandAllocator.resets == 0
    ensures WorldsStored(engine.resourceManager.meshes,
                         engine.resourceManager.constantBuffers[MeshConstantsName].mappedData[..])
  {
    engine := new Engine(renderTargets, backBufferIndex);
    engine.Initialize(if gpuCaughtUp then engine.fenceValue + 1 else engine.fence.completedValue);
  }

  /** The engine's lifetime as the program's entry point drives it: the
      engine is constructed and initialised, then the message loop runs its
      frames.  `gpuCaughtUp[k]` says whether the GPU already reports the
      fence value the k-th WaitForPreviousFrame signals: wait 0 is
      Initialize's, wait k + 1 is frame k's. */
  method Run(renderTargets: seq<Handle>, backBufferIndex: nat, viewProjs: seq<Float4x4>, gpuCaughtUp: seq<bool>,
             order: seq<string>)
    returns (engine: Engine)
    requires |renderTargets| == FrameCount && backBufferIndex < FrameCount
    requires |gpuCaughtUp| == |viewProjs| + 1
    requires IsIterationOrder(order, {UnitBox1Name, UnitBox2Name, GridName})
    ensures engine.Valid() && engine.Ready()
    ensures engine.swapChainRenderTargets[..] == renderTargets
    ensures engine.resourceManager.meshes.Keys == {UnitBox1Name, UnitBox2Name, GridName}
    ensures engine.fenceValue == |viewProjs| + 1 && engine.fence.completedValue == engine.fenceValue
    ensures engine.frameIndex == FrameIndexAfter(backBufferIndex, |viewProjs|)
    ensures WorldsStored(engine.resourceManager.meshes,
                         engine.resourceManager.constantBuffers[MeshConstantsName].mappedData[..])
    ensures |viewProjs| > 0 ==>
      && ElementBytes(engine.resourceManager.constantBuffers[PassConstantsName].mappedData[..], ConstantRecordByteSize, 0)
         == ConstantRecordBytes(viewProjs[|viewProjs| - 1])
      && var last := FrameIndexAfter(backBufferIndex, |viewProjs| - 1);
         engine.commandList.commands == FrameCommands(last, engine.swapChainRenderTargets[last], engine.resourceManager.meshes, order)
  {
    engine := Start(renderTargets, backBufferIndex, gpuCaughtUp[0]);
    engine.RunFrames(viewProjs, gpuCaughtUp[1..], order);
  }
}
