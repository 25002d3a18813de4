# Voxel engine core, modelled in Dafny

This project models the grid side of a C# voxel engine for Godot and proves properties of it. There are five parts, each in its own module:

- **VoxelTypes** (`voxel_types.dfy`): the value types. A `Voxel` has an active flag and an opaque RGBA colour. `Index` is the integer triple used for coordinates and extents. `Option` stands for a nullable reference.
- **VoxelTools** (`voxel_tools.dfy`): flat-index addressing. Cell (x, y, z) of a grid with extents W, H and D lives at `x + W * (y + H * z)`. Lemmas cover range, the round trip, injectivity and aliasing.
- **VoxelDataManagers** (`basic_voxel_data_manager.dfy`): the dense voxel store. It is a class over one array. Get, Set and Contains fail softly, and they check only the flat index.
- **Meshing** (`meshing.dfy`): the culled-face mesher.
  - It scans x outermost, then y, then z.
  - For each active voxel it appends one quad per side whose neighbour is off the grid or inactive. Each quad goes into three parallel lists: colour, normal and six vertices.
  - `GenerateMesh` is proved against a reference sequence of faces, `MeshQuads`. The face properties are proved on that sequence.
- **ColliderGen** (`collider_gen.dfy`): the greedy box merger.
  - It scans the grid with a `tested` mask.
  - At each untested active cell it opens a 1 x 1 x 1 box. It grows the box along x, then y, then z, round after round, with TrySpreadX, TrySpreadY and TrySpreadZ.
  - The boxes are proved to partition the active cells, to start greedily in scan order, and to be maximal: when a box closes, each slab beyond it holds a cell outside the grid, an inactive cell or a cell of an earlier box.
  - The scan is parameterised by the bound of its z loop. This lets one proof serve both the code as written and the corrected code.
- **Volumes** (`volume.dfy`): the `Volume` class.
  - It holds the store, a chunk grid (`true` where a chunk node exists) and the duplicate-free dirty-chunk register.
  - `SetVoxelAtVoxelIndex` writes a voxel and marks the chunk that holds it.
  - `Process` drains the register through `UpdateChunk`. When its checks pass, `UpdateChunk` takes a snapshot of the chunk's cells with `GetChunkVoxels` and records the chunk's index in the ghost log `generated`. Only the index is logged. The snapshot's contents are stated by `GetChunkVoxels`'s own contract.
  - `FillVoxels` writes every cell. `CreateChunks` sizes and fills the chunk grid.

Integers are unbounded. The source's truncating C# division is written out as `TruncDiv`. Its float ceiling of the chunk count is written out as `CeilDiv`, the integer ceiling.

Four behaviours of the code a reader may not expect. The model follows the code in each:

- **Normals.** The code records `(-1,0,0)` for the +x face, `(1,0,0)` for -x, `(0,0,-1)` for +z and `(0,0,1)` for -z. These point into the voxel, while the y normals point out of it. `Meshing.Normal` records the code's values.
- **A failed axis is not retried.** When TrySpreadA fails, the merger clears that axis's flag, and TrySpreadA does nothing once its flag is false. `ColliderGen.SpreadBox` states this.
- **Coordinates outside the volume can wrap.** The store checks only the flat index. A coordinate outside the volume whose flat index still falls inside the array addresses another cell (`VoxelDataManagers.OutOfVolumeAliases`). Through `SetVoxelAtVoxelIndex` such a write lands in one cell's slot but marks a different chunk dirty (`Volumes.Volume.AliasedWriteMarksOtherChunk`).
- **Edge chunks read past the volume.** `GetChunkVoxels` (source/Volume.cs:214-223) stores what `GetVoxelAtVoxelPosition` returns for every cell of the chunk. For a cell outside the volume that is another cell's voxel where the flat index aliases (`Volumes.Volume.EdgeCellReadsAliasedVoxel`), so the mesher and the merger build faces and boxes for it. It is null where the flat index falls outside the store, and the mesher and the merger then throw at their first `.active` read of that cell.

## Model

| member | source | states |
|---|---|---|
| VoxelTools.GetFlatIndexFromXYZ | source/VoxelTools.cs:19-22 | for an x inside the row, x is the flat index modulo the row length W and the row number y + H * z is the quotient |
| VoxelTools.GetFlatIndexFromXYZ5 | source/VoxelTools.cs:13-16 | the five-argument overload equals the Index overload for every z extent; the z extent plays no part |
| VoxelTools.FlatIndexInRange | source/VoxelTools.cs:19-22 | in-extent coordinates have a flat index in [0, W*H*D) |
| VoxelTools.FlatIndexRoundTrip | source/VoxelTools.cs:19-22 | decoding the flat index as (i % W, (i / W) % H, i / (W*H)) gives back x, y and z (for in-extent x and y and any z >= 0) |
| VoxelTools.PositionRoundTrip | source/VoxelTools.cs:19-22 | decoding and then encoding any non-negative flat index gives it back |
| VoxelTools.FlatIndexInjective | source/VoxelTools.cs:19-22 | two in-extent coordinates with the same flat index are equal |
| VoxelTools.FlatIndexAliases | source/VoxelTools.cs:19-22 | (x+W, y, z) and (x, y+1, z) share a flat index; so do (x, y+H, z) and (x, y, z+1) |
| VoxelDataManagers.BasicVoxelDataManager.constructor | source/VoxelDataManagers/BasicVoxelDataManager.cs:8-13 | the backing array has exactly width*height*depth slots, all null, and the extents are recorded |
| VoxelDataManagers.BasicVoxelDataManager.GetVoxel | source/VoxelDataManagers/BasicVoxelDataManager.cs:14-19 | null exactly when the flat index is outside [0, Length-1]; otherwise the slot at that index |
| VoxelDataManagers.BasicVoxelDataManager.SetVoxel | source/VoxelDataManagers/BasicVoxelDataManager.cs:20-26 | succeeds exactly when ContainsIndex holds; on success only the slot at the flat index changes and GetVoxel reads the voxel back; on failure the array is unchanged |
| VoxelDataManagers.BasicVoxelDataManager.ContainsIndex | source/VoxelDataManagers/BasicVoxelDataManager.cs:28-31 | every coordinate inside the volume passes the range check, so GetVoxel reads and SetVoxel writes its slot |
| VoxelDataManagers.InVolumeSlotsDistinct | source/VoxelDataManagers/BasicVoxelDataManager.cs:20-26 | distinct coordinates inside the volume address distinct slots, so a write never disturbs another cell of the volume |
| VoxelDataManagers.OutOfVolumeAliases | source/VoxelDataManagers/BasicVoxelDataManager.cs:14-19 | (width, 0, 0) has the flat index, range verdict and stored voxel of (0, 1, 0); it is accepted whenever the volume has a second row |
| Meshing.Flatten | source/Meshing.cs:77-154 | the three lists built from faces have one entry per face, so they always have equal lengths |
| Meshing.FlattenLockStep | source/Meshing.cs:77-154 | entry i of the colours, normals and vertices lists is the colour, normal and vertices of face i |
| Meshing.FlattenPush | source/Meshing.cs:78-87 | emitting one face appends exactly one entry to each of the three lists |
| Meshing.GenerateMesh | source/Meshing.cs:45-159 | the result records exactly the faces of MeshQuads, x outermost, then y, then z |
| Meshing.EmitSlice | source/Meshing.cs:51-156 | the y loop appends the faces of slice x in scan order |
| Meshing.EmitColumn | source/Meshing.cs:53-155 | the z loop appends the faces of column (x, y) in scan order |
| Meshing.EmitVoxel | source/Meshing.cs:55-154 | appends the faces of one voxel: none for an inactive voxel or one with six present, active neighbours; otherwise its exposed faces, top first |
| Meshing.EmitFaces | source/Meshing.cs:76-154 | the six emission blocks append the exposed faces in the order +y, +x, -x, +z, -z, -y |
| Meshing.NeighbourFlags | source/Meshing.cs:56-72 | each flag is set exactly when the neighbour on that side is in the grid and active; an off-grid neighbour does not occlude |
| Meshing.EmitFace | source/Meshing.cs:77-88 | an unset flag appends the voxel's colour, the side's normal and the six scaled corners; a set flag appends nothing |
| Meshing.VoxelQuadsBySide | source/Meshing.cs:77-154 | the faces of an active voxel are its six sides' faces, one after another, in emission order |
| Meshing.ExposedSidesMembers | source/Meshing.cs:56-72 | a side is exposed exactly when it is listed and its neighbour does not occlude |
| Meshing.ExposedSidesAll | source/Meshing.cs:56-72 | with no occluding neighbour among the listed sides, every one of them is exposed |
| Meshing.QuadsOfSidesIndex | source/Meshing.cs:77-154 | the reference list has one face per side, and face i is toward side i |
| Meshing.SidesQuadsReference | source/Meshing.cs:77-154 | the block-by-block emission equals the reference: the faces toward the exposed sides, in the same order |
| Meshing.EverySideEmitted | source/Meshing.cs:77-154 | each of the six sides appears in the emission order |
| Meshing.VoxelQuadsAreExposedFaces | source/Meshing.cs:56-154 | an active voxel emits exactly the faces toward its non-occluding neighbours, in emission order; the face count is the number of non-occluding neighbours |
| Meshing.VoxelQuadsEmpty | source/Meshing.cs:55-74 | a voxel emits nothing if and only if it is inactive or all six neighbours are present and active |
| Meshing.HiddenVoxelEmitsNothing | source/Meshing.cs:74 | a voxel whose six neighbour flags are all set emits nothing, so the skip is sound |
| Meshing.IsolatedVoxelSixFaces | source/Meshing.cs:56-154 | an active voxel with no occluding neighbour emits six faces |
| Meshing.OneHiddenSideFiveFaces | source/Meshing.cs:56-154 | an active voxel with exactly one occluding neighbour emits five faces |
| Meshing.VoxelQuadsAreFaces | source/Meshing.cs:55-154 | every face a voxel emits is the face of an active voxel toward an exposed side |
| Meshing.ColumnQuadsAreFaces | source/Meshing.cs:53-155 | every face emitted for a column is an exposed face of an active voxel |
| Meshing.SliceQuadsAreFaces | source/Meshing.cs:51-156 | every face emitted for a slice is an exposed face of an active voxel |
| Meshing.GridQuadsAreFaces | source/Meshing.cs:49-157 | every face emitted for the grid is an exposed face of an active voxel |
| Meshing.Normal | source/Meshing.cs:78-144 | the normal of a face is the unit step toward the neighbour for the y sides and its negation, pointing into the voxel, for the x and z sides (the values at lines 78, 92, 105, 118, 131 and 144) |
| Meshing.Corners | source/Meshing.cs:77-154 | the six corner indices each face block uses are entries of the corner table, all on the cube face toward its side |
| Meshing.FaceVertices | source/Meshing.cs:80-86 | a face's six vertices all lie in the plane of that face of the scaled voxel cube |
| Meshing.FaceCornersOnSide | source/Meshing.cs:13-18 | each face uses all four cube corners on its side |
| Meshing.MeshEntry | source/Meshing.cs:45-159 | entry i of the mesh has six vertices and belongs to one active voxel and an exposed side: the voxel's colour, the side's normal (as coded) and the corners (vertList[k] + (x, y, z)) * scale, each on that side |
| Meshing.NonEmptyMeshHasActiveVoxel | source/Meshing.cs:49-158 | a non-empty mesh implies an active voxel, so an all-inactive grid gives no faces |
| Meshing.SingleVoxelSixFaces | source/Meshing.cs:49-158 | one active voxel in a 1 x 1 x 1 grid gives six faces |
| Meshing.PairOfVoxelsTenFaces | source/Meshing.cs:49-158 | two active voxels side by side in a 2 x 1 x 1 grid give ten faces |
| ColliderGen.GrowAddsSlab | source/ColliderGen.cs:79 | growing a box along an axis adds exactly the slab beyond it on that axis |
| ColliderGen.TrySpread | source/ColliderGen.cs:53-82 | succeeds exactly when canSpread holds and every slab cell is in the grid, untested and active; success marks exactly the slab tested and grows only the size along the axis; failure changes nothing; a slab that was blocked along another axis stays blocked (TrySpreadY and TrySpreadZ, lines 84-144, are the same method on the other axes) |
| ColliderGen.SlabAfterGrow | source/ColliderGen.cs:79 | growing a box along one axis keeps every cell of its slab along another axis in the new slab |
| ColliderGen.TestSlab | source/ColliderGen.cs:57-69 | the test loops pass exactly when canSpread holds and the whole slab is free |
| ColliderGen.MarkSlab | source/ColliderGen.cs:71-78 | the marking loops set exactly the slab's cells tested |
| ColliderGen.MarkRow | source/ColliderGen.cs:73-77 | the inner marking loop sets exactly row u of the slab tested |
| ColliderGen.SpreadBox | source/ColliderGen.cs:40-42 | a TrySpreadA call keeps the growing box inside the grid, all active and disjoint from earlier boxes; it grows exactly when the flag was set and the slab was free, so once an axis fails it stays failed; a blocked slab along another axis, or along this one when nothing grew, stays blocked; the room left never increases |
| ColliderGen.GrowFree | source/ColliderGen.cs:71-80 | a box grown into a free slab still fits the grid, is all active and shares no cell with an earlier box |
| ColliderGen.VisitCell | source/ColliderGen.cs:28-46 | the step at one cell keeps the scan invariant and adds at most one box, which starts at that cell |
| ColliderGen.VisitUntested | source/ColliderGen.cs:29-45 | an untested cell is marked tested; an active one opens, grows and appends a box that starts at the cell |
| ColliderGen.OpenBox | source/ColliderGen.cs:31-37 | the 1 x 1 x 1 box at an untested active cell satisfies the growth invariant |
| ColliderGen.BoxesSoFarNext | source/ColliderGen.cs:27 | the facts about the boxes so far carry over to the next cell |
| ColliderGen.PassInactive | source/ColliderGen.cs:31 | passing an inactive cell keeps every cell passed that is active in a box |
| ColliderGen.PassTested | source/ColliderGen.cs:28 | a tested cell the scan reaches is already in a box, so skipping it keeps the invariant |
| ColliderGen.CloseBox | source/ColliderGen.cs:44 | appending the grown box restores the scan invariant at the next cell |
| ColliderGen.CloseTested | source/ColliderGen.cs:44 | after the append, the tested cells are exactly those passed or held by a box |
| ColliderGen.ClosePassed | source/ColliderGen.cs:44 | after the append, every active cell passed is in a box |
| ColliderGen.CoveredAppend | source/ColliderGen.cs:44 | a cell is in the extended list exactly when it is in the old list or in the new box |
| ColliderGen.AppendBox | source/ColliderGen.cs:44 | appending a fitting, active, unclaimed box at the scan position keeps the boxes sound, disjoint, greedy and in scan order |
| ColliderGen.GreedyAppend | source/ColliderGen.cs:44 | a box whose start has every earlier active cell already covered keeps the list greedy |
| ColliderGen.GrowRound | source/ColliderGen.cs:40-42 | one round of TrySpreadX, TrySpreadY, TrySpreadZ keeps the growth invariant; a flag that is down has a blocked slab; the round grows the box or drops a flag |
| ColliderGen.GrowBox | source/ColliderGen.cs:33-44 | growth ends; the closed box is blocked along every axis, and the appended box is sound, disjoint from earlier boxes, starts at the cell and keeps the list maximal |
| ColliderGen.MaximalAppend | source/ColliderGen.cs:39-44 | a box blocked along every axis keeps the list maximal once appended |
| ColliderGen.BlockedSlabClosed | source/ColliderGen.cs:57-69 | a slab that fails the test holds a cell outside the grid, an inactive cell or a cell of an earlier box |
| ColliderGen.ScanGrid | source/ColliderGen.cs:22-50 | for the z bound given: the boxes fit, are non-empty, hold only active cells, are pairwise disjoint, start in scan order below the bound, each at the first uncovered active cell, cover every active cell below the bound, and none could have grown along any axis without taking a cell outside the grid, an inactive cell or a cell of an earlier box |
| ColliderGen.ScanSlice | source/ColliderGen.cs:26-48 | the y loop carries the scan invariant and maximality from slice x to slice x + 1 |
| ColliderGen.ScanRow | source/ColliderGen.cs:27-47 | the z loop carries the scan invariant and maximality across row (x, y) |
| ColliderGen.NextRow | source/ColliderGen.cs:26-27 | finishing row (x, y) is starting row (x, y + 1) |
| ColliderGen.NextSlice | source/ColliderGen.cs:25-26 | finishing slice x is starting slice x + 1 |
| ColliderGen.FinishScan | source/ColliderGen.cs:25-50 | after the last slice, every active cell below the z bound is in a box and every start lies below the bound |
| ColliderGen.PartitionCoversExactly | source/ColliderGen.cs:25-45 | under a partition, a cell is covered exactly when it is an active grid cell, and by one box only |
| ColliderGen.NoActiveCellNoBoxes | source/ColliderGen.cs:31 | sound boxes on a grid without an active cell form the empty list |
| ColliderGen.GenerateCollisionBoxes | source/ColliderGen.cs:19-51 | as written (z loop bound Length0): boxes are sound, disjoint, greedy, maximal and in scan order; they cover every active cell with z < Length0, and partition the active cells when Length0 == Length2; dimensions is unused |
| ColliderGen.GenerateCollisionBoxesCorrected | source/ColliderGen.cs:19-51 | with the z loop bounded by Length2: the boxes partition the active cells, greedily, maximally and in scan order |
| ColliderGen.ActivePairIsOneBox | source/ColliderGen.cs:19-51 | on a 2 x 1 x 1 grid of two active voxels, the only greedy, maximal partition is the single 2 x 1 x 1 box |
| ColliderGen.ActivePairMerges | source/ColliderGen.cs:19-51 | the corrected merger on two adjacent active voxels returns exactly [CBox((0, 0, 0), (2, 1, 1))] |
| ColliderGen.ZBoundMissesCell | source/ColliderGen.cs:27 | on a 1 x 1 x 3 grid with active cells at z = 0 and 2, no box covers (0, 0, 2) as written; the corrected merger covers it |
| Volumes.TruncDiv | source/Volume.cs:64 | C# division: for a >= 0 the floor of a / b; for a < 0 one within b above a, rounding toward zero |
| Volumes.TruncDivOdd | source/Volume.cs:64 | truncation is symmetric: TruncDiv(-a, b) == -TruncDiv(a, b) |
| Volumes.TruncDivNearZero | source/Volume.cs:64 | every coordinate strictly between -b and b lies in chunk 0 |
| Volumes.CeilDiv | source/Volume.cs:142-144 | the least q with q * b >= a: the chunk count per axis |
| Volumes.Mark | source/Volume.cs:73-75 | the register afterwards holds exactly the old entries and c, keeps them in place, grows by at most one and stays duplicate-free |
| Volumes.MarkIdempotent | source/Volume.cs:73-75 | marking a chunk twice is marking it once |
| Volumes.MarkMarked | source/Volume.cs:73-75 | marking a chunk already in the register changes nothing |
| Volumes.MarkAll | source/Volume.cs:73-75 | marking any sequence of chunks keeps the register's old entries in place, adds exactly the marked chunks and keeps a duplicate-free register duplicate-free |
| Volumes.MarkRepeated | source/Volume.cs:73-75 | marking the same chunk n >= 1 times adds it at most once |
| Volumes.Volume.constructor | source/Volume.cs:11-20 | a new volume has no store, no chunk grid and an empty register |
| Volumes.Volume.GetVoxelAtVoxelPosition | source/Volume.cs:79-82 | null without a store or when the store rejects the index; otherwise the store's slot |
| Volumes.Volume.SetVoxelAtVoxelIndex | source/Volume.cs:66-77 | succeeds exactly when the voxel, the store and the chunk grid are non-null and the store accepts the index; on success the slot is written, reads back, and the chunk at the index truncated by the chunk extents is marked once; on failure store and register are unchanged |
| Volumes.Volume.GetChunkIndexAtVoxelIndex | source/Volume.cs:63-65 | a non-negative component lies in its chunk, between the chunk's start and the next chunk's start; a negative component truncates to a chunk at or below 0 whose start is at or above it |
| Volumes.Volume.VoxelInItsChunk | source/Volume.cs:63-65 | a coordinate with no negative component lies inside its chunk; a cell of the volume lies in a chunk of the chunk grid |
| Volumes.Volume.ChunkStartInVolume | source/Volume.cs:209-211 | every chunk of the grid starts at a cell of the volume, and that cell maps back to the chunk |
| Volumes.Volume.FillVoxels | source/Volume.cs:105-117 | with a store and a chunk grid, every cell of the volume holds the given colour and state and the register gains exactly the chunks of the chunk grid; otherwise nothing changes |
| Volumes.Volume.FillSlice | source/Volume.cs:109-115 | the y loop fills slice x and marks its chunks |
| Volumes.Volume.FillRow | source/Volume.cs:111-114 | the z loop fills row (x, y) and marks its chunks |
| Volumes.Volume.FillStep | source/Volume.cs:113 | one write fills the next cell, leaves the other cells of the volume alone and marks the cell's chunk |
| Volumes.Volume.StoreFilledAtStart | source/Volume.cs:107 | before the first write every cell of the volume has a slot of its own and none is filled |
| Volumes.Volume.FinishFill | source/Volume.cs:107-116 | after the last slice, every cell is filled and every chunk of the chunk grid marked |
| Volumes.Volume.EdgeCellReadsAliasedVoxel | source/Volume.cs:79-82 | the cell one past the x extent passes the store's check and reads the voxel of (0, 1, 0), so a snapshot reaching past the edge holds that voxel, not null |
| Volumes.Volume.AliasedWriteMarksOtherChunk | source/Volume.cs:69-71 | a write to (-1, 1, 0) is accepted and lands in the slot of (volumeXWidth - 1, 0, 0), yet it marks a chunk at x <= 0 while that cell's chunk is at x >= 1 |
| Volumes.Volume.AllocateChunks | source/Volume.cs:142-144 | the chunk grid has CeilDiv(volume, chunk) slots per axis, all empty |
| Volumes.Volume.CreateChunks | source/Volume.cs:141-155 | as written (z loop bound Length0): allocates the grid and creates a chunk exactly at the slots with z < Length0 |
| Volumes.Volume.CreateChunksCorrected | source/Volume.cs:141-155 | with the z loop bounded by Length2: every slot of the grid holds a chunk |
| Volumes.Volume.CompleteChunkGridRegeneratesAll | source/Volume.cs:157-165 | with a full chunk grid and a store, the chunk of every cell of the volume passes UpdateChunk's checks |
| Volumes.Volume.Ready | source/Volume.cs:48-50 | after setup every cell holds a white voxel in the given state, the chunk grid is as CreateChunks leaves it, and every chunk of the grid is marked dirty |
| Volumes.Volume.Regenerated | source/Volume.cs:58 | a drain regenerates at most as many chunks as the register holds |
| Volumes.Volume.RegeneratedMembers | source/Volume.cs:56-60 | a chunk is regenerated by a drain exactly when it is in the register and passes UpdateChunk's checks; a duplicate-free register regenerates each chunk once |
| Volumes.Volume.ChunkInRange | source/Volume.cs:160-161 | on the grid CreateChunks allocates, the bounds guard accepts exactly the chunks that hold a cell of the volume |
| Volumes.Volume.WillRegenerate | source/Volume.cs:157-165 | with a store and a fully created grid, UpdateChunk's checks pass exactly for the chunks that hold a cell of the volume |
| Volumes.Volume.UpdateChunk | source/Volume.cs:157-165 | a chunk's index is logged as handed on for regeneration exactly when there is a store and a chunk grid, the index is inside the grid and a chunk exists there |
| Volumes.Volume.Process | source/Volume.cs:54-61 | every register entry goes to UpdateChunk once, in marking order, and the register is left empty |
| Volumes.Volume.GetChunkVoxels | source/Volume.cs:207-226 | a fresh chunkXWidth x chunkYHeight x chunkZDepth array whose cell (i, j, k) is the voxel at the chunk's start plus (i, j, k), null where the store gives none |
| Volumes.Volume.CopySlice | source/Volume.cs:219-223 | the y loop copies slice x of the chunk and leaves other cells alone |
| Volumes.Volume.CopyRow | source/Volume.cs:220-222 | the z loop copies row (x, y) of the chunk and leaves other cells alone |
| Volumes.CreateChunkLayers | source/Volume.cs:145-155 | the creation loops put a chunk at every slot with z below the bound and leave the others as they were |
| Volumes.CreateChunkSlice | source/Volume.cs:147-154 | the y loop creates the chunks of slice x below the z bound |
| Volumes.CreateChunkRow | source/Volume.cs:149-153 | the z loop creates the chunks of row (x, y) below the z bound |
| Volumes.ChunkZBoundSkipsChunk | source/Volume.cs:149 | in an 8 x 8 x 16 volume of 8-cell chunks, cell (0, 0, 8) is written and its chunk (0, 0, 1) drained but never regenerated, while chunk (0, 0, 0) is; with the corrected creation that chunk passes UpdateChunk's checks |
| Volumes.DefaultVolumeCreatesEveryChunk | source/Volume.cs:15-20 | with the default extents (16-cell volume, 8-cell chunks) the chunk grid is 2 x 2 x 2 and the creation as written fills every slot |
| Volumes.ChunkBelowCount | source/Volume.cs:142-144 | a cell below the extent lies in a chunk below the chunk count |
| Volumes.StartBelowExtent | source/Volume.cs:209-211 | a chunk below the chunk count starts below the extent and maps back to itself |

## Left out

- source/Chunk.cs is not part of this model. Its work is asynchronous task orchestration, cancellation, and placing meshes and colliders in the scene graph. `UpdateChunk`'s call of `Chunk.Generate` is recorded as the chunk's index in the ghost log `generated`. The snapshot it passes is taken but not logged.
- `Meshing.CompileMesh`, source/PaintBrush.cs, `GenerateAreaNode` and `CreateChunkAt`'s node set-up are Godot scene and rendering calls. A chunk node is modelled as `true` in the chunk grid.
- The world/voxel conversions (`GetVoxelIndexAtWorldPosition`, `GetWorldPositionAtVoxelIndex`, `GetVoxelAtWorldPosition`, `SetVoxelAtWorldPosition`, `IndexToWorldPosition`) use float arithmetic and are left out.
- The chunk-destroy block at the start of `CreateChunks` frees Godot nodes. The model always starts from a fresh grid.
- `_Process`'s frame delta is unused by the source and is not a parameter. So are the random generator in `FillVoxels` and the material resource load.
- `_Ready`'s call of `GenerateAreaNode` is left out of `Ready`.
- `IVoxelDataManager` is an interface with one implementation. `Volume` holds a `BasicVoxelDataManager` directly instead of an interface type.
- `Voxel` is a value here, but in the source it is a class, so reference aliasing is not modelled. The brush (source/PaintBrush.cs:62-65) clears a stored voxel's `active` flag in place and then writes the same object back. In the model that is a read, a new value and a write, which leaves the store in the same state. A chunk snapshot taken earlier would see the change in the source but not in the model.
- The mesher and the merger take grids whose cells are all non-null. A null cell makes the source throw at its first `.active` read.
- Meshing.GenerateMesh: vertex positions and the voxel scale are integer triples rather than float vectors, so float rounding is not modelled.
- Volumes.CeilDiv: the source takes the ceiling of a float division. For chunk counts within float precision that equals the integer ceiling modelled here.
- Integers are unbounded. 32-bit overflow of the flat index, or of the extent product in the store's constructor, is not modelled.
- VoxelDataManagers.BasicVoxelDataManager.constructor: requires a non-negative product of the extents, because with a negative product the source's array allocation throws.
- ColliderGen.GenerateCollisionBoxes: requires `Length0 <= Length2` whenever the grid has a row. On any other grid the source's z loop, bounded by Length0, indexes past the array and throws. The model does not return that failure.
- Volumes.Volume.constructor: requires positive chunk extents and non-negative volume extents. The source's public fields (source/Volume.cs:15-20) accept any values. A zero chunk extent makes the division at source/Volume.cs:64 throw. A non-positive chunk extent or a negative volume extent gives a negative or wrong chunk count at source/Volume.cs:142-144, and the allocation throws. The model does not return these failures.
- Volumes.Volume.CreateChunks: requires `CreateChunksSafe` (at least as many chunks along z as along x, or an empty loop), for the same reason.
- ColliderGen.GenerateCollisionBoxes: the exact box list is not pinned down in general. The contract gives soundness, disjointness, greedy starts in scan order, coverage and maximality. It does not state the growth order's tie-breaks as a reference function. `ColliderGen.ActivePairIsOneBox` pins the list down for one grid.
- ColliderGen.GrowBox: the contract says the closed box is blocked along every axis. It does not say which of the possible maximal boxes the x, then y, then z order picks. That order is visible only in `GrowRound`'s body.

## Findings

| source | as written | input that shows it | evidently intended | confidence | as-written member | corrected member |
|---|---|---|---|---|---|---|
| source/ColliderGen.cs:27 | the z loop runs `z < tested.GetLength(0)`, the x extent | a 1 x 1 x 3 grid with active cells at z = 0 and z = 2 and an inactive one at z = 1: cell (0, 0, 2) gets no box; a 2 x 1 x 1 grid indexes `tested[0,0,1]` out of range | `z < tested.GetLength(2)`, so that the boxes partition the active cells | not executed | ColliderGen.ZBoundMissesCell | ColliderGen.GenerateCollisionBoxesCorrected |
| source/Volume.cs:149 | the chunk-creation z loop runs `z < chunks.GetLength(0)`, the chunk count along x | an 8 x 8 x 16 volume with 8-cell chunks: chunk (0, 0, 1) is never created, so edits in cells with z >= 8 are never meshed; a volume wider than deep indexes past the grid | `z < chunks.GetLength(2)`, so that every chunk of the grid exists | not executed | Volumes.ChunkZBoundSkipsChunk | Volumes.Volume.CreateChunksCorrected |
