# HackVoxel core, modelled in Dafny

HackVoxel is a small voxel sandbox. The world is a set of 16×16×16 chunks
keyed by chunk coordinate. This project models the parts of it that decide
what the world holds and what the player holds:

- **Chunk manager** (`chunk_manager.dfy`, module `ChunkManagement`). The
  `ChunkManager` class holds its `loadedChunks` map and the load, unload and
  render lists. It covers:
  - `initialize` loads the square of radius 10 around the player's chunk;
  - `update` recentres that square when the player changes chunk, and drops
    chunks further than 12;
  - `render` collects the chunks within 8 and sorts them by distance;
  - the point queries `isBlockSolid` / `getBlockType` / `getSurfaceHeight`
    turn a world position into a chunk and a cell;
  - `loadChunk` fills a new chunk with the terrain rule.
- **Coordinates** (`coords.dfy`, module `Coords`). `ChunkCoord`, its
  equality, squared distance and hash, the three radii, the floor
  decomposition of a world coordinate into chunk and local index, and the
  C++ float-to-int cast.
- **Terrain** (`terrain.dfy`, module `Terrain`). The clamped surface height
  and the layering of each column: bedrock, stone, dirt, a sand or grass
  surface, and caves.
- **Load square** (`chunk_range.dfy`, module `ChunkRange`). The x-major list
  `getChunksInRange` builds, and the "required but not loaded" list.
- **Voxel chunk and mesher** (`voxel_mesh.dfy` and `voxel_chunk.dfy`,
  modules `VoxelMesh` and `VoxelChunks`).
  - The `VoxelChunk` class keeps its grid in a 16×16×16 array and its mesh
    in two growing buffers.
  - `generateMesh` is proved to produce exactly the face list of the
    specification function `Faces`: one quad per non-air cell and exposed
    direction, in loop order.
  - Each quad is 20 vertex values and 6 indices.
- **Block interaction** (`block_interaction.dfy`, module `BlockInteraction`).
  `placeBlock` and `mineBlock` on the manager's chunks, the face normal of a
  ray hit, and the placement position next to it. `PlaceBlock` and
  `MineBlock` keep the code's own chunk/local arithmetic. `PlaceBlockIntended`
  and `MineBlockIntended` use the floor decomposition on all three axes
  instead (see Findings); the code's `(int)` cast of y also differs from the
  manager's floor for heights in (−1, 0), which it sends to row 0.
- **Block registry** (`block_database.dfy` and `blocks.dfy`, modules
  `BlockDatabase` and `Blocks`). The 23 block types, their names and
  descriptions, solidity and transparency. It also covers the lazily
  initialised registry object.
- **Hotbar and inventory** (`ui.dfy`, module `Hotbar`). The `UI` class's
  selected slot, its 9-slot hotbar and its 36-slot inventory. It covers
  scrolling, number keys, first-empty insert, first-match remove and count.
- **`fib.cpp`** (`fib.dfy`, module `Fib`). The nearest-Fibonacci search and
  its tie rule.

How values are represented:

- World positions are `real`: the engine's floats, without rounding.
- Block indices and chunk coordinates are unbounded integers.
- The mesh's float buffer holds tagged values: an integer corner coordinate,
  or the atlas tile and corner of a texture coordinate.
- The noise generators are inputs. The manager holds a `Noise` value giving
  the raw surface height, the sand-biome test and the cave test per world
  cell. The chunk constructor takes its column height as a function.

## Model

| member | source | states |
|---|---|---|
| Coords.SameCoordIsEquality | src/chunk_manager.h:17-19 | two chunk coordinates compare equal exactly when both components agree |
| Coords.DistanceSquared | src/chunk_manager.h:22-26 | the squared distance is never negative and is zero only between a coordinate and itself |
| Coords.DiscInsideSquare | src/chunk_manager.h:22-26 | a coordinate within squared distance r² of another lies within r of it on both axes |
| Coords.DistanceProperties | src/chunk_manager.h:22-26 | squared distance is non-negative, symmetric, and zero exactly for equal coordinates |
| Coords.RadiiNested | src/chunk_manager.h:39-41 | render radius 8 ≤ load radius 10 ≤ unload radius 12; the squared thresholds are 64 and 144 |
| Coords.LoadCornerBeyondUnload | src/chunk_manager.h:22-26 | the corner (10,10) of the load square lies further than the unload radius, with squared distance 200 > 144 |
| Coords.Hash | src/chunk_manager.h:30-34 | bit 0 of the hash is bit 0 of x's word: the shifted z never reaches it |
| Coords.HashProperties | src/chunk_manager.h:30-34 | equal coordinates hash equally; z is shifted left by one, so the hash's low bit is x's low bit |
| Coords.LocalIndex | src/chunk_manager.cpp:142-144 | the local index lies in [0,16) and chunk·16 + local equals the floor of the coordinate, negative coordinates included |
| Coords.WorldToChunkCoord | src/chunk_manager.cpp:189-197 | on each horizontal axis, the chunk times 16 plus the in-range local index is the floor of the position |
| Coords.DecompositionUnique | src/chunk_manager.cpp:135-144 | the floor decomposition is the only chunk/local split with the local index in range |
| Coords.IntegerDecomposition | src/chunk_manager.cpp:193-197 | on a whole coordinate n the chunk is n div 16 and the local index n mod 16 (floored) |
| Coords.TruncProperties | src/block_interaction.cpp:96-98 | the `(int)` cast is the floor for non-negative values and one above the floor for negative non-whole values |
| Terrain.Clamp | src/chunk_manager.cpp:218 | the result lies in [lo,hi], is v when v is inside, and the nearer bound otherwise |
| Terrain.SurfaceHeight | src/chunk_manager.cpp:213-218 | every surface height lies in [3,13], below the chunk height 16 |
| Terrain.ColumnBlock | src/chunk_manager.cpp:221-249 | bedrock exactly at y = 0; air exactly above the surface or in a cave cell strictly between y = 1 and surface − 1 |
| Terrain.ColumnLayering | src/chunk_manager.cpp:221-249 | bedrock at y=0; air above the surface; sand or grass on the surface (grass iff no sand biome and surface ≥ 6); dirt just below it; air, stone and dirt each characterised exactly, cave air only for 1 < y < surface−1 |
| Terrain.TerrainColumn | src/chunk_manager.cpp:209-253 | every generated column has bedrock at the bottom, a sand or grass surface over dirt, and only air above, whatever the noise |
| ChunkRange.ChunksInRangeProperties | src/chunk_manager.cpp:270-281 | the list has (2r+1)² entries, holds exactly the coordinates within r on both axes, and is strictly increasing x-major; empty for negative r |
| ChunkRange.XMajorDistinct | src/chunk_manager.cpp:274-278 | a strictly x-major list has no repeated coordinate |
| ChunkRange.NotLoaded | src/chunk_manager.cpp:64-69 | a coordinate is in the result exactly when it is in the input and not loaded; the result is no longer than the input |
| VoxelMesh.AirAt | src/voxel_chunk_new.cpp:79-87 | the cell counts as air exactly when it is outside the chunk or holds Air |
| VoxelMesh.SolidAt | src/voxel_chunk_new.cpp:90-98 | the cell is solid exactly when it is inside the chunk and not Air (so water is solid); never outside |
| VoxelMesh.TextureForBlock | src/voxel_chunk_new.cpp:227-265 | grass uses its top tile exactly upward and the dirt tile exactly downward; every other grass face uses the grass side tile; wood log uses its end tile exactly up and down and its side tile on the other four faces; types without a case fall back to stone |
| VoxelMesh.TextureChoice | src/voxel_chunk_new.cpp:227-265 | only grass and wood log depend on the face direction |
| VoxelMesh.FacesBeforeMembership | src/voxel_chunk_new.cpp:117-164 | a face is in the list built up to a loop position exactly when its cell emits it and it comes before that position in loop order |
| VoxelMesh.FacesBeforeOrdered | src/voxel_chunk_new.cpp:117-164 | the faces appended up to any loop position come in strict x, y, z, direction order |
| VoxelMesh.Faces | src/voxel_chunk_new.cpp:110-164 | the mesh of the whole grid has at most six quads per cell |
| VoxelMesh.FacesDistinct | src/voxel_chunk_new.cpp:117-164 | no face occurs twice in the mesh, so each exposed (cell, direction) pair has exactly one quad |
| VoxelMesh.AirCellSkipped | src/voxel_chunk_new.cpp:123-125 | an air cell adds no face in any direction |
| VoxelMesh.FaceEmittedIff | src/voxel_chunk_new.cpp:127-164 | the mesh holds the face of a cell in a direction exactly when the cell is not air and its neighbour that way is air or outside the chunk |
| VoxelMesh.FacesSound | src/voxel_chunk_new.cpp:123-164 | every face in the mesh belongs to a non-air cell and is emitted by it |
| VoxelMesh.MeshBound | src/voxel_chunk_new.cpp:117-164 | a chunk emits at most six faces per cell |
| VoxelMesh.AppendFace | src/voxel_chunk_new.cpp:191-225 | appending a face appends its 20 vertex values, and six indices based at four times the number of earlier faces |
| VoxelMesh.Corners | src/voxel_chunk_new.cpp:127-164 | the four corners passed to addFace are four different corners of the cell's cube, all on the side it shares with the neighbour the face looks at |
| VoxelMesh.MeshShape | src/voxel_chunk_new.cpp:191-225 | F faces give 20·F vertex values and 6·F indices, and every index names an existing vertex (< size/5) |
| VoxelChunks.ConstructorLayering | src/voxel_chunk_new.cpp:38-53 | constructor layering for a column height: air exactly above the height, bedrock exactly at y=0, grass exactly on the top when the height exceeds 3, dirt and stone characterised exactly |
| VoxelChunks.ConstructorBlock | src/voxel_chunk_new.cpp:38-53 | air exactly above the column height; bedrock exactly at y = 0 when the height is not negative |
| VoxelChunks.VoxelChunk.constructor | src/voxel_chunk_new.cpp:16-61 | the chunk keeps its world position, every cell follows the constructor layering for its column's height, and the mesh matches the grid |
| VoxelChunks.VoxelChunk.IsAir | src/voxel_chunk_new.cpp:79-87 | the answer is the air test of the chunk's grid |
| VoxelChunks.VoxelChunk.IsBlockSolid | src/voxel_chunk_new.cpp:90-98 | the answer is the solidity test of the chunk's grid |
| VoxelChunks.VoxelChunk.GetBlockType | src/voxel_chunk_new.cpp:100-108 | the stored cell inside the chunk, Air outside |
| VoxelChunks.VoxelChunk.SetBlock | src/chunk_manager.cpp:252 | an in-range write stores the type in that cell and leaves every other cell unchanged |
| VoxelChunks.VoxelChunk.AddFace | src/voxel_chunk_new.cpp:191-225 | the buffers grow by the face's quad values and the six indices based at the offset; the offset advances by 4 |
| VoxelChunks.VoxelChunk.GenerateMesh | src/voxel_chunk_new.cpp:110-164 | afterwards the buffers hold exactly the vertices and indices of the face list of the current grid, so rebuilding an unchanged grid gives the same mesh |
| VoxelChunks.VoxelChunk.RegenerateMesh | src/chunk_manager.cpp:258 | the mesh matches the current grid |
| BlockDatabase.EveryTypeNamed | src/block_database.cpp:11-33 | all 23 types have a name-table entry |
| BlockDatabase.BlockName | src/block_database.cpp:49-56 | every type is in the name table and its name is that table entry |
| BlockDatabase.BlockDescription | src/block_database.cpp:58-65 | a described type gets its description-table entry, and the default text is returned exactly for types without an entry |
| BlockDatabase.NoTypeUnknown | src/block_database.cpp:49-56 | getBlockName never falls back to "Unknown Block" for a block type |
| BlockDatabase.DescribedTypes | src/block_database.cpp:36-44 | exactly nine types have a description; the rest, including Air, Leaves and Water, get "No description available" |
| BlockDatabase.IsBlockSolid | src/block_database.cpp:67-69 | every type that is not transparent is solid |
| BlockDatabase.IsBlockTransparent | src/block_database.cpp:71-74 | transparent exactly for Air, Water, Ice and Leaves |
| BlockDatabase.SolidAndTransparent | src/block_database.cpp:67-74 | every non-transparent type is solid; only Ice and Leaves are both; only Air and Water are not solid |
| BlockDatabase.Registry.Initialize | src/block_database.cpp:7-47 | the registry is initialised afterwards, and a second call leaves both tables unchanged |
| BlockDatabase.Registry.GetBlockName | src/block_database.cpp:49-56 | the name of the type in the table (Grass is "Grass Block"); the registry ends up initialised |
| BlockDatabase.Registry.GetBlockDescription | src/block_database.cpp:58-65 | the description of the type, or the default; the registry ends up initialised |
| ChunkManagement.UpdatedKeysMembership | src/chunk_manager.cpp:62-88 | after a recentre a loaded coordinate stays exactly when its squared distance is at most 144, and an unloaded one is added exactly when it lies in the load square |
| ChunkManagement.CornerOfLoadSquare | src/chunk_manager.cpp:62-88 | the load-square corner is loaded when it was absent, and unloaded in the same update when it was present |
| ChunkManagement.KeysAfterUpdate | src/chunk_manager.cpp:80-88 | loading the load list and then unloading the unload list leaves exactly the updated key set |
| ChunkManagement.SortByDistance | src/chunk_manager.cpp:119-123 | the result is a permutation of the input, sorted by squared distance to the player chunk, and keeps coordinates distinct |
| ChunkManagement.ChunkManager.constructor | src/chunk_manager.cpp:8-31 | no chunk loaded, last player chunk (0,0), rendered count 0 |
| ChunkManagement.ChunkManager.GetChunkAt | src/chunk_manager.cpp:183-187 | the chunk stored under the coordinate, or null exactly when none is loaded |
| ChunkManagement.ChunkManager.GetChunk | src/chunk_manager.cpp:178-181 | the chunk under the position's chunk coordinate, or null exactly when none is loaded |
| ChunkManagement.ChunkManager.GetBlockType | src/chunk_manager.cpp:156-176 | Air when the chunk is missing or y is outside [0,16); otherwise the cell at the floor decomposition of the position |
| ChunkManagement.ChunkManager.IsBlockSolid | src/chunk_manager.cpp:133-154 | solid exactly when the point query finds a non-air cell |
| ChunkManagement.ChunkManager.GetSurfaceHeight | src/chunk_manager.cpp:289-300 | −1 without a chunk; otherwise the highest solid y of the column, with no solid cell above it, or −1 when the column is empty |
| ChunkManagement.ChunkManager.NoChunkNoSolid | src/chunk_manager.cpp:289-291 | without a chunk no cell of the column is solid, so −1 is the right answer |
| ChunkManagement.ChunkManager.ShouldRenderChunk | src/chunk_manager.cpp:283-287 | a chunk that is drawn lies within the render radius of the player's chunk on both axes |
| ChunkManagement.ChunkManager.RenderDiscInsideLoadSquare | src/chunk_manager.cpp:283-287 | every chunk within render distance lies inside the load square; the point 10 chunks along x is not rendered |
| ChunkManagement.ChunkManager.GetChunksInRange | src/chunk_manager.cpp:270-281 | the nested loop builds the x-major list of the square, holding exactly the coordinates within range |
| ChunkManagement.ChunkManager.LoadChunk | src/chunk_manager.cpp:199-261 | no-op on a present key; otherwise exactly that key is added, bound to a fresh chunk holding the terrain rule; other entries unchanged |
| ChunkManagement.ChunkManager.NewTerrainChunk | src/chunk_manager.cpp:205-258 | a fresh chunk at the coordinate, every cell given by the terrain rule, mesh current |
| ChunkManagement.ChunkManager.FillTerrain | src/chunk_manager.cpp:209-255 | every cell of the chunk holds the terrain block for its world column and height |
| ChunkManagement.ChunkManager.UnloadChunk | src/chunk_manager.cpp:263-268 | the map loses exactly that key (no-op when absent) |
| ChunkManagement.ChunkManager.Initialize | src/chunk_manager.cpp:37-48 | afterwards a coordinate is loaded exactly when it was loaded before or lies in the load square around the player; old entries are kept, new ones are fresh terrain chunks; the last player chunk is set |
| ChunkManagement.ChunkManager.Update | src/chunk_manager.cpp:50-97 | in the same chunk nothing changes; on a chunk change the load list is the unloaded part of the square, the unload list is exactly the loaded chunks beyond 144, the keys become the updated key set, and kept entries are unchanged |
| ChunkManagement.ChunkManager.Recentre | src/chunk_manager.cpp:57-95 | the chunk-change branch of update with all of its effects, as in Update |
| ChunkManagement.ChunkManager.LoadThenUnload | src/chunk_manager.cpp:80-88 | the keys become old keys plus the load list minus the unload list; kept entries are unchanged and new ones are fresh terrain chunks |
| ChunkManagement.ChunkManager.CollectLoads | src/chunk_manager.cpp:64-69 | the required coordinates not loaded, in order |
| ChunkManagement.ChunkManager.CollectUnloads | src/chunk_manager.cpp:71-78 | exactly the loaded coordinates whose squared distance exceeds 144, each once |
| ChunkManagement.ChunkManager.LoadAll | src/chunk_manager.cpp:81-83 | the keys grow by exactly the listed coordinates; old entries are kept |
| ChunkManagement.ChunkManager.UnloadAll | src/chunk_manager.cpp:86-88 | the map loses exactly the listed coordinates; the remaining entries are unchanged |
| ChunkManagement.ChunkManager.Render | src/chunk_manager.cpp:99-131 | the render list holds exactly the loaded chunks within render distance, paired with their chunk, each once, sorted by squared distance to the player chunk; the rendered count is its length |
| ChunkManagement.ChunkManager.CollectVisible | src/chunk_manager.cpp:108-117 | exactly the loaded chunks within render distance, each once |
| BlockInteraction.LocateAsWritten | src/block_interaction.cpp:92-108 | on each horizontal axis the chunk times 16 plus the local index is the `(int)` cast of the coordinate; the height is the cast of y |
| BlockInteraction.Locate | src/chunk_manager.cpp:156-176 | the corrected decomposition: the x and z local indices lie in [0,16) with chunk·16 + local = floor, the height is the floor of y, and the chunk is the one the manager's queries use |
| BlockInteraction.AxisAsWrittenInRange | src/block_interaction.cpp:92-108 | the as-written local index is in range exactly when the coordinate is non-negative or a multiple of 16; then it equals the floor decomposition; otherwise it lies in (16,32] |
| BlockInteraction.NegativeCoordinateRejected | src/block_interaction.cpp:100-108 | x = −1 gives chunk −2 and local 31, where the floor decomposition gives chunk −1 and local 15 |
| BlockInteraction.LocateAgreesWhenAccepted | src/block_interaction.cpp:92-121 | whenever the as-written x and z indices pass the range check at a height of at least 0, they name the same cell as the floor decomposition; a height in (−1, 0) is cast to row 0 where the floor gives −1 |
| BlockInteraction.LocateMatchesQuery | src/chunk_manager.cpp:156-176 | the manager's block query reads exactly the cell the floor decomposition names |
| BlockInteraction.Decompose | src/block_interaction.cpp:91-108 | the step-by-step local arithmetic yields the as-written decomposition |
| BlockInteraction.WriteCell | src/block_interaction.cpp:128-130 | the cell holds the new type, the mesh is current, and every other cell is unchanged |
| BlockInteraction.PlaceBlock | src/block_interaction.cpp:90-133 | placed exactly when the chunk is loaded, the local indices are in range and the cell is Air; then the cell holds the type, the mesh is rebuilt and nothing else changes; otherwise no chunk changes |
| BlockInteraction.PlaceAt | src/block_interaction.cpp:110-132 | as PlaceBlock, on an already decomposed target |
| BlockInteraction.MineBlock | src/block_interaction.cpp:135-179 | mined exactly when the chunk is loaded, the indices are in range and the cell is neither Air nor Bedrock; then the cell becomes Air, the mesh is rebuilt and nothing else changes; otherwise no chunk changes |
| BlockInteraction.MineAt | src/block_interaction.cpp:155-178 | as MineBlock, on an already decomposed target |
| BlockInteraction.PlaceBlockIntended | src/block_interaction.cpp:90-133 | placeBlock on the floor decomposition: placed exactly when the chunk is loaded, the cell is in range and Air; then the cell holds the type, the mesh is rebuilt, every other cell and every other chunk is unchanged, and the manager's getBlockType at the position reports the placed type; otherwise no chunk changes |
| BlockInteraction.MineBlockIntended | src/block_interaction.cpp:135-179 | mineBlock on the floor decomposition: mined exactly when the chunk is loaded, the cell is in range and neither Air nor Bedrock; then the cell is Air, the mesh is rebuilt, every other cell and every other chunk is unchanged, and getBlockType at the position reports Air; otherwise no chunk changes |
| BlockInteraction.CalculateFaceNormal | src/block_interaction.cpp:216-234 | exactly one component is ±1; x when its offset from the centre is strictly largest, else y when it beats z, else z; the sign is + exactly for a positive offset |
| BlockInteraction.GetPlacementPosition | src/block_interaction.cpp:181-184 | with a unit-axis normal the placement position is a neighbour of the hit block: one step along exactly one axis |
| BlockInteraction.PlacementIsAdjacent | src/block_interaction.cpp:181-184 | the placement position is the hit block moved by one along exactly one axis |
| Hotbar.AvailableCounts | src/ui.cpp:469-476 | the available list holds every type but Air, each exactly once |
| Hotbar.StartingInventory | src/ui.cpp:466-488 | the starting inventory fills all 36 slots: the available types first, then empty slots |
| Hotbar.StartingInventoryCounts | src/ui.cpp:466-488 | the initial inventory holds every non-air type once and 14 Air slots |
| Hotbar.Wrap | src/ui.cpp:126-131 | the result is a hotbar slot: a slot already in range is kept, every value below 0 becomes 8 and every value from 9 up becomes 0 |
| Hotbar.WrapIsModuloForSingleSteps | src/ui.cpp:122-132 | a one-notch scroll wraps like arithmetic mod 9, but a ten-notch scroll from slot 0 lands on 0, not 1 |
| Hotbar.FirstIndex | src/ui.cpp:579-583 | the first position holding the type: in range and holding it, nothing earlier holds it, and the length exactly when absent |
| Hotbar.AddedCounts | src/ui.cpp:577-585 | adding a non-air type raises its count and lowers the air count by one when a slot is free; a full inventory is unchanged; other counts are kept |
| Hotbar.RemovedCounts | src/ui.cpp:587-596 | removing a present type lowers its count and raises the air count by one; an absent type changes nothing; other counts are kept |
| Hotbar.UiBlockName | src/ui.cpp:514-541 | the name is "Unknown" exactly for Air, the one type without a case |
| Hotbar.UiNamesAgreeWithRegistry | src/ui.cpp:514-541 | the UI's name agrees with the registry's for every type but Grass and Air |
| Hotbar.TerrainNamesAgree | src/ui.cpp:518-524 | the UI's names for dirt through sand are the registry's |
| Hotbar.SpecialNamesAgree | src/ui.cpp:525-531 | the UI's names for water through brick are the registry's |
| Hotbar.StoneNamesAgree | src/ui.cpp:532-538 | the UI's names for mossy stone, gravel and the ores are the registry's |
| Hotbar.UiNamesDiffer | src/ui.cpp:514-541 | the UI calls grass "Grass" where the registry says "Grass Block", and air "Unknown" where the registry says "Air" |
| Hotbar.UI.constructor | src/ui.cpp:41-55 | slot 0 selected, inventory closed, the nine building blocks on the hotbar, the inventory laid out |
| Hotbar.UI.InitializeInventoryBlocks | src/ui.cpp:466-488 | the 22 available types fill slots 0..21 in order and Air fills slots 22..35 |
| Hotbar.UI.SelectSlot | src/ui.cpp:112-116 | a slot in [0,9) is selected; anything else leaves the selection |
| Hotbar.UI.GetSelectedBlockType | src/ui.cpp:118-120 | the answer is one of the hotbar's blocks, the one in the selected slot |
| Hotbar.UI.HandleScrollInput | src/ui.cpp:122-132 | the selection moves against the truncated offset and is wrapped back into [0,9) |
| Hotbar.UI.HandleNumberKey | src/ui.cpp:134-139 | keys 1..9 select slots 0..8; other keys leave the selection |
| Hotbar.UI.SetSelectedBlockType | src/ui.cpp:307-309 | only the selected hotbar slot changes, to the given type |
| Hotbar.UI.ToggleInventory | src/ui.cpp:311-313 | the open flag is negated, so two toggles restore it |
| Hotbar.UI.AddBlockToInventory | src/ui.cpp:577-585 | the first Air slot takes the type; without one the inventory is unchanged |
| Hotbar.UI.RemoveBlockFromInventory | src/ui.cpp:587-596 | true exactly when the type is present, and then its first slot becomes Air; otherwise nothing changes |
| Hotbar.UI.GetBlockCount | src/ui.cpp:598-606 | the number of inventory slots holding the type |
| Fib.FibonacciMonotone | fib.cpp:18-22 | the Fibonacci sequence from index 1 is non-decreasing |
| Fib.Difference | fib.cpp:3-9 | the difference is non-negative and is m−n or n−m |
| Fib.DifferenceSymmetric | fib.cpp:3-9 | the difference is symmetric |
| Fib.Fib | fib.cpp:11-30 | inputs ≤ 1 are returned as they are; otherwise the result is a Fibonacci number no further from the input than any other, and on a tie it is the larger one |

## Left out

- OpenGL work is not modelled: buffer upload, draw calls and uniforms, shaders, the UI, highlight, skybox and water rendering, and `main`.
- Console logging is not modelled.
- FastNoiseLite and `simpleNoise` are replaced by the `Noise` inputs and a column-height function. The scaling of the noise into an integer height is part of those inputs; only the clamp is modelled.
- Terrain.ColumnBlock: the cave test is taken per cell at `(x, y, z)`. The source samples at `y * 2`; that is part of the abstract cave input.
- The unused temperature, humidity, ridge, erosion and vegetation noise members are not modelled.
- Floats are modelled as reals, so float rounding is not modelled.
- `distanceSquared` returns a float in the source. Here it is an exact integer, which agrees with the float for coordinate differences below 2^11.
- `setBlock` and `regenerateMesh` have no body in the source files. VoxelChunks.VoxelChunk.SetBlock is an assumed bounds-checked single-cell write. VoxelChunks.VoxelChunk.RegenerateMesh is `generateMesh`.
- `unordered_map` iteration order is not modelled. The loops over `loadedChunks` in `update` and `render` pick keys in an unspecified order.
- `unordered_map` hashing internals are not modelled; the table is a Dafny map.
- ChunkManagement.SortByDistance: `std::sort` is modelled by an insertion sort. Only the sorted permutation is specified; the order of equal-distance chunks is not.
- The texture atlas's pixel generation and float UV arithmetic are not modelled. Texture coordinates are the atlas tile and corner.
- `raycastToBlock`, the player and the camera are float ray marching and physics, and are not modelled.
- `testBlockAt`, `getLoadedChunkCount` and `getRenderedChunkCount` are one-line wrappers and getters, and are not modelled.
- `UI::getBlockColor` (float colours), `setTargetedBlock` and `clearTargetedBlock` are not modelled. The last two only feed the block-info display.
- The older chunk version in `src/voxel_chunk.cpp` is not part of this model; only its `CHUNK_SIZE` of 16 is used.
- The block type enumeration is not defined in any of the files here; `Blocks.BlockType` takes the 23 tags listed in the registry.
- Fib.Fib: the input is bounded by 2^30 − 1 so that the 32-bit loop variables cannot overflow; larger inputs are not modelled.
- Fib.Difference: integers are unbounded, so the model returns the exact |m − n| where the source's 32-bit `m - n` (or the negation of INT_MIN) would overflow; inside Fib both arguments are non-negative 32-bit values, where no overflow occurs.
- Hotbar.UI.HandleScrollInput: the `int` subtraction and the double-to-int cast are unbounded here. Overflow on huge offsets is not modelled.
- ChunkManagement.ChunkManager.GetBlockType and IsBlockSolid read the chunk's cell directly. This is the same as calling the chunk's own `getBlockType` / `isBlockSolid` on the in-range indices the manager has already checked.
- The mesher culls against `isAir`, as the code does, and not against transparency. So water and leaves hide their neighbours' faces.
- The helper methods (NewTerrainChunk, Recentre, LoadThenUnload, CollectLoads, CollectUnloads, LoadAll, UnloadAll, CollectVisible, Decompose, PlaceAt, MineAt, WriteCell, ClearGrid, LayColumns, LayColumn, MeshSlab, MeshRow, MeshCell, FaceIfExposed) only split source functions into parts; they add no behaviour.

## Findings

| source | as written | input that shows it | evidently intended | confidence | as-written member | corrected member |
|---|---|---|---|---|---|---|
| src/block_interaction.cpp:96-108 (and 141-153 in mineBlock) | the local index is `(int)x − 16·floor(x/16)`, then decremented into the previous chunk when x < 0 and the local index is non-zero | x = −1: `floor(−1/16)` = −1, `(int)−1 − (−16)` = 15, then the shift gives chunk −2 and local 31, so the range check rejects placing or mining at any negative coordinate not divisible by 16 | chunk −1, local 15, as the manager's own floor decomposition gives | not executed | BlockInteraction.NegativeCoordinateRejected | BlockInteraction.PlaceBlockIntended |
