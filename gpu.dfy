/**
  An abstract Direct3D 12 device, as far as the renderer's bookkeeping sees it.

  Resources are identified by the position at which the device created them;
  a command list is an append-only sequence of recorded commands; the command
  queue is the ordered log of what was submitted to it; the fence carries the
  GPU-reported completion value, which the model treats as an oracle that
  never decreases and never passes the largest value signalled so far.
  Nothing here executes GPU work or holds GPU memory contents.
 */
module Gpu {

  datatype Option<T> = None | Some(value: T)

  type byte = bv8

  /** The resource states the renderer uses.  In Direct3D 12,
      D3D12_RESOURCE_STATE_PRESENT has the same value as COMMON. */
  datatype ResourceState = Common | CopyDest | GenericRead | RenderTarget | DepthWrite

  const Present: ResourceState := Common

  datatype HeapType = DefaultHeap | UploadHeap

  datatype IndexFormat = R32Uint

  /** A COM pointer to a resource: null, or the n-th resource the device created. */
  datatype Handle = Null | Res(id: nat)

  /** What CreateCommittedResource was asked for. */
  datatype ResourceDesc = ResourceDesc(heap: HeapType, byteSize: nat, initialState: ResourceState)

  /** A constant-buffer view: BufferLocation is the GPU virtual address of
      `resource` plus `offset`; the absolute base address is the driver's choice. */
  datatype CbvDesc = CbvDesc(resource: Handle, offset: nat, sizeInBytes: nat)

  datatype Command =
    | Transition(resource: Handle, before: ResourceState, after: ResourceState)
    | CopyBufferRegion(dst: Handle, dstOffset: nat, src: Handle, srcOffset: nat, numBytes: nat)
    | SetViewport
    | SetScissorRect
    | ClearRenderTarget(rtvIndex: nat)
    | ClearDepthStencil
    | SetRenderTargets(rtvIndex: nat)
    | SetDescriptorHeap
    | SetRootSignature
    | SetRootDescriptorTable(rootParameter: nat, heapIndex: nat)
    | SetVertexBuffer(buffer: Handle, strideInBytes: nat, sizeInBytes: nat)
    | SetIndexBuffer(buffer: Handle, format: IndexFormat, sizeInBytes: nat)
    | SetTriangleListTopology
    | DrawIndexedInstanced(indexCount: nat, instanceCount: nat, startIndex: nat, baseVertex: int, startInstance: nat)

  /** What the command queue has been asked to do, in order. */
  datatype QueueOp = Execute(commands: seq<Command>) | PresentFrame | Signal(value: nat)

  /** Every command list submitted to the queue is followed by a signal whose
      value the fence has already reached, so the GPU has retired it. */
  ghost predicate AllRetired(log: seq<QueueOp>, completed: nat) {
    forall i :: 0 <= i < |log| && log[i].Execute? ==>
      exists j :: i < j < |log| && log[j].Signal? && log[j].value <= completed
  }

  lemma RetiredBySignal(log: seq<QueueOp>, completed: nat)
    requires |log| > 0 && log[|log| - 1].Signal? && log[|log| - 1].value <= completed
    ensures AllRetired(log, completed)
  {
    forall i | 0 <= i < |log| && log[i].Execute?
      ensures exists j :: i < j < |log| && log[j].Signal? && log[j].value <= completed
    {
      assert log[|log| - 1].Signal?;
    }
  }

  /** The values signalled on the queue, in order. */
  function Signals(log: seq<QueueOp>): (r: seq<nat>)
    ensures |r| <= |log|
  {
    if log == [] then []
    else if log[|log| - 1].Signal? then Signals(log[..|log| - 1]) + [log[|log| - 1].value]
    else Signals(log[..|log| - 1])
  }

  /** A signal appends its value to the signalled values; any other
      operation appends nothing. */
  lemma SignalsAppend(log: seq<QueueOp>, op: QueueOp)
    ensures Signals(log + [op]) == if op.Signal? then Signals(log) + [op.value] else Signals(log)
  {
    assert (log + [op])[..|log|] == log;
  }

  // ---------------------------------------------------------------------
  // Resource-state machine: replaying recorded commands over tracked states.

  /** One command's effect on the tracked resource states, or None when the
      command finds a resource in the wrong state. */
  function Step(c: Command, states: map<Handle, ResourceState>): Option<map<Handle, ResourceState>> {
    match c
    case Transition(r, before, after) =>
      if r in states && states[r] == before then Some(states[r := after]) else None
    case CopyBufferRegion(dst, _, src, _, _) =>
      if dst in states && states[dst] == CopyDest && src in states && states[src] == GenericRead
      then Some(states) else None
    case _ => Some(states)
  }

  function Replay(cmds: seq<Command>, states: map<Handle, ResourceState>): Option<map<Handle, ResourceState>>
    decreases |cmds|
  {
    if cmds == [] then Some(states)
    else match Step(cmds[0], states)
      case None => None
      case Some(next) => Replay(cmds[1..], next)
  }

  /** A command that neither changes nor checks the resource states. */
  ghost predicate Passive(c: Command) {
    !c.Transition? && !c.CopyBufferRegion?
  }

  /** Replaying commands that are all passive leaves every state as it was. */
  lemma {:induction false} ReplayPassive(cmds: seq<Command>, states: map<Handle, ResourceState>)
    requires forall i :: 0 <= i < |cmds| ==> Passive(cmds[i])
    ensures Replay(cmds, states) == Some(states)
    decreases |cmds|
  {
    if cmds != [] {
      assert Passive(cmds[0]);
      ReplayPassive(cmds[1..], states);
    }
  }

  /** Replaying a concatenation replays the first part, then the second. */
  lemma {:induction false} ReplayAppend(a: seq<Command>, b: seq<Command>, states: map<Handle, ResourceState>)
    ensures Replay(a + b, states) ==
      match Replay(a, states)
      case None => None
      case Some(mid) => Replay(b, mid)
    decreases |a|
  {
    if a == [] {
      assert a + b == b;
    } else {
      assert (a + b)[0] == a[0];
      assert (a + b)[1..] == a[1..] + b;
      match Step(a[0], states)
      case None =>
      case Some(next) => ReplayAppend(a[1..], b, next);
    }
  }

  /** The initial state of each resource the device created. */
  function InitialStates(resources: seq<ResourceDesc>): (r: map<Handle, ResourceState>)
    ensures forall i :: 0 <= i < |resources| ==> Res(i) in r && r[Res(i)] == resources[i].initialState
    ensures forall h :: h in r ==> h.Res? && h.id < |resources|
  {
    map i | 0 <= i < |resources| :: Res(i) := resources[i].initialState
  }

  // ---------------------------------------------------------------------
  // The device objects.

  class Device {
    var resources: seq<ResourceDesc>

    constructor ()
      ensures resources == []
    {
      resources := [];
    }

    /** ID3D12Device::CreateCommittedResource; creation always succeeds here. */
    method CreateCommittedResource(heap: HeapType, byteSize: nat, initialState: ResourceState) returns (h: Handle)
      modifies this
      ensures h == Res(|old(resources)|)
      ensures resources == old(resources) + [ResourceDesc(heap, byteSize, initialState)]
    {
      h := Res(|resources|);
      resources := resources + [ResourceDesc(heap, byteSize, initialState)];
    }

    /** ID3D12Device::CreateConstantBufferView at descriptor `index` of `heap`.
        Like the real call, it does not check `index` against the heap's size. */
    method CreateConstantBufferView(desc: CbvDesc, heap: DescriptorHeap, index: nat)
      modifies heap
      ensures heap.views == old(heap.views)[index := desc]
    {
      heap.views := heap.views[index := desc];
    }
  }

  class DescriptorHeap {
    const numDescriptors: nat
    const shaderVisible: bool
    var views: map<nat, CbvDesc>

    constructor (numDescriptors: nat, shaderVisible: bool)
      ensures this.numDescriptors == numDescriptors && this.shaderVisible == shaderVisible
      ensures views == map[]
    {
      this.numDescriptors := numDescriptors;
      this.shaderVisible := shaderVisible;
      views := map[];
    }
  }

  class CommandList {
    var commands: seq<Command>
    var closed: bool

    /** ID3D12Device::CreateCommandList returns a list open for recording. */
    constructor ()
      ensures commands == [] && !closed
    {
      commands := [];
      closed := false;
    }

    method Record(c: Command)
      requires !closed
      modifies this
      ensures commands == old(commands) + [c] && !closed
    {
      commands := commands + [c];
    }

    method Close()
      requires !closed
      modifies this
      ensures closed && commands == old(commands)
    {
      closed := true;
    }

    /** ID3D12GraphicsCommandList::Reset: only a closed list may be reset. */
    method Reset()
      requires closed
      modifies this
      ensures !closed && commands == []
    {
      closed := false;
      commands := [];
    }
  }

  class Fence {
    /** The value the GPU has reached (ID3D12Fence::GetCompletedValue). */
    var completedValue: nat
    /** The value most recently signalled on the queue. */
    var signaledValue: nat

    constructor (initialValue: nat)
      ensures completedValue == initialValue && signaledValue == initialValue
    {
      completedValue := initialValue;
      signaledValue := initialValue;
    }

    /** Polls the GPU.  `observed` is what the GPU reports: never less than
        what it reported before, never more than what was signalled. */
    method GetCompletedValue(observed: nat) returns (v: nat)
      requires completedValue <= observed <= signaledValue
      modifies this
      ensures v == observed && completedValue == observed && signaledValue == old(signaledValue)
    {
      completedValue := observed;
      v := observed;
    }

    /** SetEventOnCompletion followed by an unbounded wait on the event: the
        call returns once the GPU has reached `value`; `reached` is what it
        has reached by then. */
    method WaitForValue(value: nat, reached: nat)
      requires value <= signaledValue
      requires completedValue <= reached <= signaledValue && value <= reached
      modifies this
      ensures completedValue == reached && signaledValue == old(signaledValue)
    {
      completedValue := reached;
    }
  }

  class CommandQueue {
    var log: seq<QueueOp>

    constructor ()
      ensures log == []
    {
      log := [];
    }

    method ExecuteCommandLists(list: CommandList)
      requires list.closed
      modifies this
      ensures log == old(log) + [Execute(list.commands)]
    {
      log := log + [Execute(list.commands)];
    }

    /** IDXGISwapChain::Present queues a flip on this queue. */
    method Present()
      modifies this
      ensures log == old(log) + [PresentFrame]
    {
      log := log + [PresentFrame];
    }

    method Signal(fence: Fence, value: nat)
      modifies this, fence
      ensures log == old(log) + [QueueOp.Signal(value)]
      ensures fence.signaledValue == value && fence.completedValue == old(fence.completedValue)
    {
      log := log + [QueueOp.Signal(value)];
      fence.signaledValue := value;
    }
  }

  class CommandAllocator {
    var resets: nat

    constructor ()
      ensures resets == 0
    {
      resets := 0;
    }

    /** ID3D12CommandAllocator::Reset is only legal once the GPU has finished
        every command list recorded from this allocator. */
    method Reset(queue: CommandQueue, fence: Fence)
      requires AllRetired(queue.log, fence.completedValue)
      modifies this
      ensures resets == old(resets) + 1
    {
      resets := resets + 1;
    }
  }
}
