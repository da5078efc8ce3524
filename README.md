# dx12_multiple_meshes: the renderer's CPU-side bookkeeping in Dafny

This project models the part of the Direct3D 12 sample renderer that does
its own bookkeeping on the CPU:

- **The resource manager.** It hands out per-object constant slots from a
  last-in-first-out free list, falling back to a high-water counter. It keeps
  meshes in a name-keyed map. It uploads each mesh's vertex and index data
  through a staging script of three commands. It registers constant pools and
  gives every pool element a constant-buffer view at the next free heap index.
- **The persistent upload buffer.** The stride is rounded up to 256 for
  constant buffers. The buffer is mapped once, and `CopyData` writes records
  in place into the mapped bytes.
- **The engine's frame pacing.** `WaitForPreviousFrame` raises the fence value
  by one, signals it and waits for it. `Render` records the frame (one draw
  block per registered mesh, bound at descriptor `cbPerObjectIndex + 1`),
  submits it, presents, waits, and moves the back-buffer index on modulo 2.
  `Initialize` builds the two constant pools and three meshes on a four-entry
  CBV heap, then submits and waits.
- **The mesh generator.** A literal unit box, a 20 x 25 grid built by nested
  loops, and two stubs. Only the integer side is modelled: index lists,
  counts, byte sizes and draw arguments.

The Direct3D objects are reduced to an abstract device (`gpu.dfy`):
- the device is a list of created resources, and a descriptor heap is a map from index to view;
- a command list is an append-only command sequence with an open/closed flag;
- the command queue is the log of what it was asked to do, and resource states are checked by replaying recorded commands;
- the fence's completed value is an oracle parameter (`observed`). It may only grow and never passes the last value signalled.

Module layout, one file each:

| module | contents |
|---|---|
| `Gpu` | device, heap, command list, queue, fence, allocator, state replay |
| `Slots` | the free-list allocator as a value |
| `UploadBuffers` | the stride rounding, 32-bit offsets, and `class UploadBuffer` |
| `Meshes` | mesh, vertex and constant-record layouts |
| `MeshGeneration` | the box, the grid and the stubs |
| `Resources` | `class ResourceManager`, with the staging and view functions |
| `Engines` | `class Engine`: pacing, setup, and the frame |

## Model

| member | source | states |
|---|---|---|
| Gpu.Device.CreateCommittedResource | ResourceManager.cpp:105-125 | a created resource gets the next handle and is appended to the device's resources with its heap, size and initial state |
| Gpu.Device.CreateConstantBufferView | ResourceManager.cpp:73-77 | writes the view at the given heap index, replacing what was there; the heap's size is not checked |
| Gpu.CommandQueue.Signal | Engine.cpp:512 | the signal is logged and the fence's signalled value becomes the given value; the completed value is unchanged |
| Gpu.Fence.GetCompletedValue | Engine.cpp:514 | returns the oracle's value, which is at least the previous value and at most the signalled value |
| Gpu.Fence.WaitForValue | Engine.cpp:516-523 | on return the GPU has reached at least the waited-for value |
| Gpu.CommandAllocator.Reset | Engine.cpp:112 | is only callable once every submitted list has been retired by a signal the fence has reached |
| Gpu.CommandList.Reset | Engine.cpp:114 | only a closed list can be reset, and it comes back open and empty |
| Gpu.ReplayAppend | ResourceManager.cpp:138-146 | replaying a concatenation replays the first part, then the second from where the first left the states |
| Gpu.ReplayPassive | Engine.cpp:116-168 | commands without barriers or copies leave the tracked resource states as they were |
| Gpu.SignalsAppend | Engine.cpp:511-512 | a signal adds its value to the signalled values; nothing else adds any |
| Gpu.RetiredBySignal | Engine.cpp:514-523 | once the last queued operation is a signal the fence has reached, every submitted list is retired |
| Slots.AcquireUndoesRelease | ResourceManager.cpp:18-21 | releasing a slot and then acquiring returns that slot (last in, first out) and restores the allocator |
| Slots.AcquirePreservesAccounts | ResourceManager.cpp:18-25 | an acquired slot is held by nobody, and every slot below the high-water mark stays either held or free, never both |
| Slots.ReleasePreservesAccounts | ResourceManager.cpp:48 | releasing a slot that is held keeps that balance |
| Slots.DoubleReleaseAliases | ResourceManager.cpp:45-49 | a slot released twice in a row is handed to two callers in a row |
| Slots.ReuseBeforeAdvance | ResourceManager.cpp:18-25 | from a fresh allocator, acquire, acquire, release(0), acquire, acquire yields 0, 1, 0, 2 |
| Slots.InitialAccounts | ResourceManager.cpp:23-24 | the fresh allocator is balanced with no slot held |
| UploadBuffers.PaddedSizeBounds | UploadBuffer.h:16-17 | the padded stride is a multiple of 256, at least the raw size and less than 256 above it, as long as size + 255 does not wrap |
| UploadBuffers.PaddedSizeIdempotent | UploadBuffer.h:57-59 | rounding an already rounded stride changes nothing |
| UploadBuffers.PaddedSizeWraps | UploadBuffer.h:17 | in 32-bit arithmetic the sizes 0xFFFFFF01 and 0xFFFFFFFF pad to 0 |
| UploadBuffers.PaddedSizeExamples | UploadBuffer.h:16-17 | 64, 256 and 257 pad to 256, 256 and 512 |
| UploadBuffers.ElementOffsetExact | UploadBuffer.h:54 | when the 32-bit product does not wrap, element i starts at byte i * stride |
| UploadBuffers.BufferByteSize | UploadBuffer.h:20 | the buffer size is computed in 64 bits and never wraps |
| UploadBuffers.OverwriteReadsBack | UploadBuffer.h:54 | after a write the written range reads back as the data and every other byte is unchanged |
| UploadBuffers.WriteIsolatesElements | UploadBuffer.h:54 | writing one element reads back as the record and leaves every other element's bytes as they were |
| UploadBuffers.UploadBuffer.Empty | UploadBuffer.h:62-66 | the default buffer has no resource, no mapping and stride 0 |
| UploadBuffers.UploadBuffer.constructor | UploadBuffer.h:11-33 | pads the stride only for constant buffers, creates one upload-heap resource of stride * count bytes in GENERIC_READ, and leaves it mapped over exactly that many bytes |
| UploadBuffers.UploadBuffer.Destroy | UploadBuffer.h:37-43 | unmaps only when there is a resource, and drops the pointer in every case |
| UploadBuffers.UploadBuffer.CopyData | UploadBuffer.h:50-55 | the mapped bytes become the old bytes with one stride of the record written at the element's 32-bit offset, and nothing else changes |
| UploadBuffers.UploadBuffer.GetElementPaddedByteSize | UploadBuffer.h:57-59 | the result is a multiple of 256, and for a constant buffer it is the stride already stored |
| Meshes.ConstantRecordLayout | ResourceManager.h:42-60 | a constant record is its matrix followed by three zero matrices |
| Meshes.ConstantRecordSizes | ResourceManager.h:42-60 | the byte encoding of a matrix is 64 bytes, four per float, and a record's encoding is 256 bytes, four matrices' worth |
| Meshes.ZeroMatrixBytes | ResourceManager.h:47-49 | every byte of a default-constructed padding matrix is zero |
| Meshes.VertexLayout | Engine.cpp:468-475 | each input-layout offset is four bytes times the floats of the fields before it, and the 60-byte vertex is four bytes times all of its floats |
| MeshGeneration.GenerateTriangle | MeshGenerator.cpp:8-11 | the stub returns a default mesh, with no vertices, no indices and no name |
| MeshGeneration.GenerateUnitCircle | MeshGenerator.cpp:13-16 | the stub returns a default mesh, with no draw arguments |
| MeshGeneration.GenerateUnitBox | MeshGenerator.cpp:18-82 | 8 vertices and 36 indices, 480 and 144 bytes, and one whole-mesh draw entry under the box's name |
| MeshGeneration.BoxVerticesAreCubeCorners | MeshGenerator.cpp:20-30 | the box's vertices are the eight distinct corners of the cube [-1, 1]^3 |
| MeshGeneration.BoxIndicesCoverVertices | MeshGenerator.cpp:33-58 | every box index is below 8, and every vertex is used |
| MeshGeneration.GenerateGrid | MeshGenerator.cpp:84-151 | the grid mesh is well formed under its name, and its vertex and index lists are exactly what the two loop nests push |
| MeshGeneration.ComputeGridVertices | MeshGenerator.cpp:89-101 | the vertex loops push rows 1 to width, each of columns 1 to length |
| MeshGeneration.ComputeGridIndices | MeshGenerator.cpp:104-119 | the index loops push the six indices of each cell, cell rows outermost |
| MeshGeneration.GridVertexCount | MeshGenerator.cpp:89-101 | the grid has width * length vertices |
| MeshGeneration.GridVertexAt | MeshGenerator.cpp:89-101 | the vertex of row r + 1, column c + 1 sits at position r * length + c (row-major) |
| MeshGeneration.GridIndexCount | MeshGenerator.cpp:104-119 | the grid has 6 * (width - 1) * (length - 1) indices |
| MeshGeneration.GridCellAt | MeshGenerator.cpp:104-119 | entry j of cell (row, col) sits at 6 * (row * (length - 1) + col) + j and lists the cell's corners in the source's order, with row pitch width |
| MeshGeneration.CellCorner | MeshGenerator.cpp:106-117 | the six indices of a cell are its tile, above-right, above, tile, next and above-right corners |
| MeshGeneration.GridIndicesInRange | MeshGenerator.cpp:104-119 | when 1 <= width <= length, every index is below width * length |
| MeshGeneration.EngineGridShape | Engine.cpp:395 | the 20 x 25 grid has 500 vertices and 2736 indices, all below 500, and its sizes fit in 32 bits |
| MeshGeneration.GridIndexOutOfRange | MeshGenerator.cpp:106-109 | a 3 x 2 grid has 6 vertices, but its index list names vertex 7 |
| MeshGeneration.GridFirstTriangleDegenerate | MeshGenerator.cpp:106-109 | whenever width + 2 <= length, the first triangle's three corners are vertices 0, width + 1 and width of the first vertex row, so they lie on one line |
| MeshGeneration.RowMajorGridIndicesInRange | MeshGenerator.cpp:104-119 | with row pitch length, the count is unchanged and every index names a vertex for every width and length |
| MeshGeneration.RowMajorCellAt | MeshGenerator.cpp:104-119 | with row pitch length, entry j of cell (row, col) lists that cell's corners |
| MeshGeneration.RowMajorCornerAt | MeshGenerator.cpp:104-119 | with row pitch length, each entry of a cell names the grid vertex at that corner's row and column |
| MeshGeneration.SquareGridIndicesAgree | MeshGenerator.cpp:106-109 | on a square grid the two pitches give the same index list |
| Resources.ConstantRecordFitsOneElement | ResourceManager.h:42-60 | padding leaves the 256-byte record stride unchanged, so each record fills exactly one padded element |
| Resources.StagingLeavesBufferReadable | ResourceManager.cpp:105-146 | from COMMON, with the upload buffer in GENERIC_READ, the script is legal and leaves only the default buffer changed, now in GENERIC_READ |
| Resources.StagingTwiceIsRejected | ResourceManager.cpp:138-140 | the script is rejected when the default buffer is not in COMMON |
| Resources.MeshResourcesStaged | ResourceManager.cpp:26-31 | the four resources a mesh's upload creates start out staged, whatever was created before or after them |
| Resources.MeshUploadLeavesBuffersReadable | ResourceManager.cpp:26-31 | from a mesh's four resources staged (default buffers in COMMON, uploaders in GENERIC_READ) its two staging scripts replay legally, and the result is the same states with both default buffers moved to GENERIC_READ |
| Resources.PoolViewsPlacement | ResourceManager.cpp:68-80 | the view at heap index j points at the start of element j - first of the pool |
| Resources.PoolViewsKeys | ResourceManager.cpp:68-80 | a pool of n elements registered at index first occupies exactly the heap indices first to first + n - 1 |
| Resources.SuccessivePoolsDisjoint | ResourceManager.cpp:74-79 | pools registered one after another get disjoint heap index ranges |
| Resources.PoolViewOverrunsPool | ResourceManager.cpp:71 | every view but a pool's first claims bytes past the end of the pool's resource |
| Resources.ElementViewsInsidePool | ResourceManager.cpp:70-71 | with one element per view, every view lies inside its pool and views do not overlap |
| Resources.AddView | ResourceManager.cpp:68-80 | one more loop iteration extends the pool's views by the view at the next heap index |
| Resources.RegisteredDrawsAllIndices | ResourceManager.cpp:26-34 | a well-formed registered mesh stays well formed and draws its whole index list |
| Resources.InitialSlotsSound | ResourceManager.cpp:10-14 | an empty registry over a fresh allocator keeps sound slot books: no repeats on the free list, everything below the counter, registered slots distinct and not free |
| Resources.AddMeshKeepsSlotsSound | ResourceManager.cpp:16-38 | the slot AddMesh takes is held by no registered mesh, so the books stay sound whether the name is new or taken |
| Resources.DeleteMeshKeepsSlotsSound | ResourceManager.cpp:45-49 | deleting a registered mesh by a copy carrying its stored slot keeps the books sound |
| Resources.StaleDeleteAliases | ResourceManager.cpp:18-20 | deleting through a copy whose slot another mesh holds makes the next AddMesh hand out that mesh's slot, and the books are no longer sound |
| Resources.GetMeshMissAliasesSlot | ResourceManager.cpp:51-54 | a missed lookup inserts a default mesh on slot 0, which aliases the mesh registered there and breaks the books |
| Resources.ResourceManager.Default | ResourceManager.h:27-32 | the default manager has a null device and list, no meshes or pools, heap index 0 and a fresh allocator |
| Resources.ResourceManager.constructor | ResourceManager.cpp:10-14 | the manager records into the given list on the given device and starts empty at heap index 0 |
| Resources.ResourceManager.AddMesh | ResourceManager.cpp:16-38 | takes a slot first in every case; a new name is stored with that slot and its four new resources, and exactly its two staging scripts are appended; a taken name changes nothing else and reports UpdateMesh's exception; sound slot books stay sound |
| Resources.ResourceManager.CreateDefaultBuffer | ResourceManager.cpp:95-154 | creates the default buffer and then the upload buffer, both of the given size, and appends exactly the staging script |
| Resources.ResourceManager.DeleteMesh | ResourceManager.cpp:45-49 | erases the name and pushes the mesh's slot onto the free list, whether or not the name was present; sound books stay sound when the mesh handed in carries its stored slot |
| Resources.ResourceManager.GetMesh | ResourceManager.cpp:51-54 | returns the stored mesh, or inserts and returns a default mesh on a miss |
| Resources.ResourceManager.GetAllMeshes | ResourceManager.cpp:56-59 | returns the whole map |
| Resources.ResourceManager.AddConstantBuffer | ResourceManager.cpp:61-82 | destroys any pool of that name and stores a fresh padded pool; views for its n elements go at the next n heap indices, each at its element's offset and claiming stride * n bytes; the heap index advances by n |
| Resources.ResourceManager.CreatePoolViews | ResourceManager.cpp:68-80 | the loop adds exactly the pool's views and advances the heap index by the element count |
| Resources.ResourceManager.StorePool | ResourceManager.cpp:63 | assigning into the pool map destroys (unmaps) the pool previously held under the name |
| Resources.ResourceManager.RemoveConstantBuffer | ResourceManager.cpp:84-87 | erases the name and destroys its pool, if any; nothing else changes |
| Resources.ResourceManager.UpdateConstantBuffer | ResourceManager.cpp:89-93 | the named pool's mapped bytes get the record's bytes at the element's offset, as CopyData writes them |
| Engines.SceneNamesDistinct | Engine.cpp:382-395 | the three registered meshes have distinct names |
| Engines.FrameIndexAfterModulo | Engine.cpp:186 | after n frames the back-buffer index has moved n places modulo 2 |
| Engines.FrameIndexAlternates | Engine.cpp:186 | the back-buffer index stays below 2, changes every frame, and returns after two frames |
| Engines.CountingUpToValues | Engine.cpp:511-512 | the signalled fence values are 1, 2, 3, and so on |
| Engines.DrawCommands | Engine.cpp:150-168 | the loop records five commands per mesh |
| Engines.FramePrologue | Engine.cpp:116-148 | nine commands precede the draws |
| Engines.DrawCommandsCount | Engine.cpp:150-168 | the draw commands hold one draw per name |
| Engines.DrawCommandsPassive | Engine.cpp:150-168 | no draw command changes a resource's state |
| Engines.DrawCommandsBlocks | Engine.cpp:161-167 | the block of the k-th name binds descriptor slot + 1 and draws the mesh's index count |
| Engines.CountDrawsAppend | Engine.cpp:150-168 | draws of a concatenation add up |
| Engines.IterationOrderCoversMeshes | Engine.cpp:150 | an iteration order of the mesh map has one entry per registered mesh |
| Engines.DistinctNames | Engine.cpp:150 | a name order without repeats is as long as its set of names |
| Engines.SubmissionSignalsNothing | Engine.cpp:180-184 | executing a list and presenting signal no fence value |
| Engines.FrameDrawsEachMeshOnce | Engine.cpp:150-168 | a frame holds exactly one draw per registered mesh |
| Engines.FrameBindsEachMeshSlot | Engine.cpp:148-168 | after the nine prologue commands, the k-th block binds the k-th mesh at descriptor slot + 1 and draws it |
| Engines.FrameParts | Engine.cpp:116-174 | the frame is two passive commands, the barrier into RENDER_TARGET, passive clears, bindings and draws, and the barrier back to PRESENT |
| Engines.RoundTripFromPresent | Engine.cpp:120-174 | from PRESENT the barrier out, passive commands and the barrier back replay to the states they started from |
| Engines.FrameKeepsBackBufferPresentable | Engine.cpp:120-174 | from a back buffer in PRESENT the frame is legal and hands it back in PRESENT with all else unchanged; from any other state its first barrier is rejected |
| Engines.ThreeElementWrites | Engine.cpp:403-414 | records written to elements 0, 1 and 2 of a three-element pool each read back |
| Engines.SceneWorldsStored | Engine.cpp:398-414 | with slots 0, 1 and 2 and those three writes, every registered mesh finds its own world matrix in its own slot |
| Engines.CbvHeapLayout | Engine.cpp:376-377 | the two pools fill the four descriptors: 0 views the pass record, 1 to 3 view the per-object records 0 to 2 |
| Engines.MeshDescriptorsViewOwnRecord | Engine.cpp:161-163 | the descriptor a registered mesh binds views its own slot's record, which holds its world matrix |
| Engines.UploadedKeepsStaged | Engine.cpp:398-401 | uploading one mesh leaves a later mesh's four resources staged |
| Engines.SceneResourcesStaged | Engine.cpp:398-401 | the twelve resources of the three registered meshes start out staged, mesh by mesh |
| Engines.SceneUploadsReplay | Engine.cpp:398-401 | over staged resources the scene's uploads replay as the three mesh uploads, one after the other |
| Engines.SceneBuffersReadable | Engine.cpp:398-401 | after the three uploads all twelve scene resources are in GENERIC_READ |
| Engines.SceneUploadsLeaveBuffersReadable | Engine.cpp:398-401 | from the initial states of the created resources the scene's uploads are legal, change only the six default buffers, and leave all twelve buffers readable |
| Engines.RecordedUploadsLeaveBuffersReadable | Engine.cpp:30-65 | the list Initialize submits replays legally from the initial states of the device's resources and leaves all twelve scene buffers, the six default buffers among them, in GENERIC_READ |
| Engines.SceneOfMeshes | Engine.cpp:398-401 | registering two boxes and the grid with the scene's sizes, one after the other, creates exactly the scene's resources and records exactly its uploads |
| Engines.Engine.constructor | Engine.cpp:16-28 | creates fresh device, fence, queue, allocator and list objects; starts with fence value 0, an open empty list, an empty four-descriptor shader-visible CBV heap, two render targets and the current back buffer; the heap size comes from Engine.cpp:286-295 and the buffers from Engine.cpp:336-346 |
| Engines.Engine.WaitForPreviousFrame | Engine.cpp:506-524 | the fence value rises by exactly 1 and is signalled; the method blocks only when the GPU is behind; on return the GPU has reached it and every submission is retired |
| Engines.Engine.BuildConstantBuffers | Engine.cpp:374-378 | a one-record pass pool at heap index 0 and a three-record per-object pool at 1 to 3, both 256-byte strides and mapped; the heap index ends at 4; exactly the two pools' upload-heap resources are created |
| Engines.Engine.RegisterMesh | Engine.cpp:398-401 | one AddMesh of a new name with an empty free list stores it with the next fresh slot and its four new resources, appends exactly its two staging scripts, and keeps sound books sound |
| Engines.Engine.RegisterMeshes | Engine.cpp:398-401 | on a fresh manager the three meshes get slots 0, 1 and 2 in call order, whatever slot they carried, and four consecutive new resources each; the device gains exactly their resources and the list exactly their uploads, in call order; the books are sound |
| Engines.Engine.WriteMeshConstants | Engine.cpp:403-414 | per-object records 0, 1 and 2 hold the three world matrices |
| Engines.Engine.BuildMeshes | Engine.cpp:382-396 | the two unit boxes are the generated boxes with slots 0 and 1, the second moved by (2, 2, 2); the grid is the 20 x 25 grid with the loops' vertex and index lists and slot 2; each with its byte sizes |
| Engines.Engine.BuildGeometry | Engine.cpp:380-415 | registers the three meshes with slots 0 to 2 and sound books; each finds its world matrix in its own record; the device gains exactly the twelve scene resources and the list exactly the scene's uploads |
| Engines.Engine.StoreScene | Engine.cpp:398-414 | the three AddMesh calls and the three record writes of BuildGeometry, with the same postcondition |
| Engines.Engine.Initialize | Engine.cpp:30-65 | a fresh manager on this device and list, both pools, the three meshes with their records and sound books, and the four-view layout; the device holds the pools' and then the scene's resources, and the submitted list is exactly the scene's uploads; it is executed, signalled and waited for |
| Engines.Engine.BuildScene | Engine.cpp:36-59 | Initialize up to the list's Close, with the same resources, list contents and books |
| Engines.Engine.RecordScene | Engine.cpp:36-45 | BuildScene before the Close: the pools, then the meshes, with the list still open |
| Engines.Engine.BuildPools | Engine.cpp:36-44 | a fresh manager and the two pools, with the heap laid out and exactly the pools' resources created |
| Engines.Engine.SubmitAndWait | Engine.cpp:60-64 | the list is executed, then signalled and waited for |
| Engines.Engine.Update | Engine.cpp:101-105 | the pass record holds the view-projection matrix; the per-object records are untouched |
| Engines.Engine.RecordDraws | Engine.cpp:150-168 | the loop appends each mesh's five commands in iteration order |
| Engines.Engine.RecordPrologue | Engine.cpp:116-148 | the viewport, scissor, barrier to RENDER_TARGET, clears, bindings and pass table for the current back buffer |
| Engines.Engine.RecordFrame | Engine.cpp:112-177 | the allocator reset is legal because everything submitted is retired; the closed list holds exactly the frame's commands |
| Engines.Engine.Render | Engine.cpp:110-187 | records the frame for the current back buffer, executes it, presents, signals the next fence value and waits; every submission is retired and the back-buffer index moves on modulo 2 |
| Engines.Engine.Frame | Main.cpp:41-44 | one idle pass of the message loop: the pass record holds the new matrix, the per-object records and the meshes are untouched, and the list is the frame for the back buffer of the pass, then submitted and waited for |
| Engines.Engine.RunFrames | Main.cpp:32-45 | after n idle passes the fence value has risen by n and is reached, the back-buffer index has moved n places, the allocator was reset n times, the world records still hold, and the pass record and the list are those of the last frame |
| Engines.Start | Main.cpp:28-30 | constructing and initialising the engine leaves it ready to draw: valid, with the three meshes and their world records, fence value 1 reached, the given back buffer current and the allocator never reset |
| Engines.Run | Main.cpp:28-45 | construction, Initialize, then n frames: the fence value is n + 1 and reached, the index is n places on, the world records still hold, and the pass record and the list are those of the last frame |
| Engines.Engine.PresentFrameAndWait | Engine.cpp:180-186 | execute, present and signal, in that order, then the index moves on |

## Left out

- Win32 windowing, input, the camera and the event manager are not part of this model. The view-projection matrix is a parameter of `Update`.
- Direct3D setup beyond what the bookkeeping uses is not modelled: the factory, swap chain creation, RTV/DSV heaps, depth buffer, root signature, shaders and PSO. The render targets and the current back-buffer index are constructor parameters.
- GPU execution, memory contents on the GPU side, and event handles are left out. The fence's completed value is an oracle that never decreases and never passes the last signal.
- Floating point: positions are whole numbers and colours are names. Matrices are IEEE-754 bit patterns that are only stored and copied. `XMMatrixTranslation` and `XMMatrixTranspose` are written out as their results.
- The timer and debug output of `Update` are not modelled. `PassConstants` has no DeltaTime or TotalTime fields, so those two assignments at Engine.cpp:102-103 have no counterpart in the record.
- Resource creation and `Map` never fail in the model. `ThrowIfFailed` and HRESULTs are not modelled.
- `UINT64` fence wrap-around is not modelled. Neither is the 32-bit wrap of `m_currCBVHeapIndex` or of the slot counter.
- Mesh.h is not part of this model. The default mesh is assumed to have an empty name, empty lists, zero sizes, null buffers, slot 0 and an identity world, and a missing draw entry is assumed to have index count 0.
- `m_newCBPerObjectIndex` and `m_freeCBPerObjectIndex` are used but not declared in ResourceManager.h. The counter is assumed to start at 0.
- The unordered maps' iteration order is a parameter of `Render` (`IsIterationOrder`: each registered name exactly once).
- UpdateMesh's `throw` becomes the `UpdateNotImplemented` outcome of `AddMesh`. The exception's propagation out of `BuildGeometry` is not modelled; setup only registers new names.
- Resources.ResourceManager.UpdateConstantBuffer: an unknown name makes the source dereference a null pointer. The model requires the name to be registered. It requires the record size to be at least the stride, as `memcpy` needs. It also requires the element's 32-bit offset plus one stride to stay inside the mapped bytes, as for CopyData below.
- UploadBuffers.UploadBuffer.CopyData: the source checks neither the index nor the record size. The model requires the write to stay inside the mapped region.
- Engines.Engine.BuildMeshes: the third unit box is built and dropped without a postcondition.
- Engines.Engine.Initialize: the legality of the submitted list and the readability of the scene's buffers are proved by `RecordedUploadsLeaveBuffersReadable` over what Initialize states it submitted, not stated in Initialize's own postcondition.
- MeshGeneration.GenerateGrid: requires `GridFitsInt32`, so the `int` loop bounds, the index arithmetic and the byte sizes never overflow 32 bits; the source's behaviour past that is not modelled.
- MeshGeneration.ComputeGridVertices: requires `GridFitsInt32`, for the same 32-bit reason.
- MeshGeneration.ComputeGridIndices: requires `GridFitsInt32`, for the same 32-bit reason.
- Resources.ResourceManager.AddConstantBuffer: requires `numOfElements <= INT32_MAX`, because the source's loop counter is an `int` compared with the unsigned count; larger counts are not modelled.
- Engines.Run: message dispatch, the `WM_QUIT` test and `Engine::Destroy` are not modelled. The loop is given its idle passes as a sequence of view-projection matrices. Whether the GPU has already caught up at each wait is a parameter. The allocator's reset count is stated by `RunFrames`, not by `Run`.
- Engines.Engine.Render: the ordering of the frame's barriers against the resource states of the back buffer is stated by `FrameKeepsBackBufferPresentable` over the frame's commands, not tracked in the engine's state.
- D3D12 gives PRESENT and COMMON the same value; the model uses one state for both.
- The per-mesh vertex and index uploads are recorded into the command list; the byte data itself is not modelled (only sizes).

## Findings

| source | as written | input that shows it | evidently intended | confidence | as-written member | corrected member |
|---|---|---|---|---|---|---|
| MeshGenerator.cpp:106-109 | tile numbers use row pitch `width` (`row * width + col`), but the vertex loops lay out rows of `length` vertices | `GenerateGrid(name, 3, 2)`: 6 vertices, while index 7 is 7; for 20 x 25 the first triangle is (0, 21, 20), and 20 and 21 lie in the same vertex row | row pitch `length`, so each cell names its own four corners | not executed | MeshGeneration.GridIndexOutOfRange, MeshGeneration.GridFirstTriangleDegenerate | MeshGeneration.RowMajorGridIndicesInRange, MeshGeneration.RowMajorCornerAt |
| ResourceManager.cpp:71 | every view's SizeInBytes is `objCBByteSize * numOfElements`, the whole pool | a pool of 3 records of 256 bytes: the view of element 1 starts at 256 and claims 768 bytes of a 768-byte buffer | SizeInBytes = `objCBByteSize`, one element per view | not executed | Resources.PoolViewOverrunsPool | Resources.ElementViewsInsidePool |

The engine's model follows the code as written in both places, because it
models the source: `GenerateGrid` and `AddConstantBuffer` compute what the
source computes. The corrected definitions are `RowMajorGridIndices` and
`ElementViews`, with their properties proved beside the as-written ones.
`SquareGridIndicesAgree` shows that the two index lists coincide on square
grids. `MeshDescriptorsViewOwnRecord` shows that the descriptor each mesh
binds still begins at its own record, so the oversized views do not change
which record a mesh reads.
