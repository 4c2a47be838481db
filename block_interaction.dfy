/** Placing and mining blocks at a world position through the chunk manager,
    the placement position beside a hit block, and the choice of the face a
    ray hit. The ray march that finds the hit is not part of this model. */
module BlockInteraction {
  import opened Blocks
  import opened Coords
  import opened VoxelMesh
  import opened VoxelChunks
  import opened ChunkManagement

  /** What a ray march reports: whether a block was hit, the hit block's
      position, the normal of the face hit, and the distance travelled. */
  datatype RaycastHit = RaycastHit(hit: bool, blockPosition: Vec3, normal: Vec3, distance: real)

  /** A chunk of the table and a cell inside it. */
  datatype Target = Target(chunkX: int, chunkZ: int, localX: int, localY: int, localZ: int)

  /** One horizontal axis of the decomposition placeBlock and mineBlock
      perform: floor division for the chunk, a truncating cast for the
      coordinate, and then, for a negative coordinate whose local part is
      not zero, one more chunk down and CHUNK_SIZE added to the local part. */
  function AxisAsWritten(w: real): (int, int)
  {
    var chunk := ChunkIndex(w);
    var local := Trunc(w) - chunk * CHUNK_SIZE;
    if w < 0.0 && local != 0 then (chunk - 1, CHUNK_SIZE + local) else (chunk, local)
  }

  /** The target placeBlock and mineBlock compute for a position; the height
      is only truncated. */
  function LocateAsWritten(position: Vec3): (t: Target)
    ensures t.chunkX * CHUNK_SIZE + t.localX == Trunc(position.x)
    ensures t.chunkZ * CHUNK_SIZE + t.localZ == Trunc(position.z)
    ensures t.localY == Trunc(position.y)
  {
    var (chunkX, localX) := AxisAsWritten(position.x);
    var (chunkZ, localZ) := AxisAsWritten(position.z);
    Target(chunkX, chunkZ, localX, Trunc(position.y), localZ)
  }

  /** The floor decomposition the manager's own point queries use, on all
      three axes. */
  function Locate(position: Vec3): (t: Target)
    ensures 0 <= t.localX < CHUNK_SIZE && t.chunkX * CHUNK_SIZE + t.localX == position.x.Floor
    ensures 0 <= t.localZ < CHUNK_SIZE && t.chunkZ * CHUNK_SIZE + t.localZ == position.z.Floor
    ensures t.localY == position.y.Floor
    ensures ChunkCoord(t.chunkX, t.chunkZ) == WorldToChunkCoord(position)
  {
    Target(ChunkIndex(position.x), ChunkIndex(position.z), LocalIndex(position.x), position.y.Floor, LocalIndex(position.z))
  }

  /** A cast of a negative whole number keeps it. */
  lemma TruncOfWhole(w: real)
    requires w == w.Floor as real
    ensures Trunc(w) == w.Floor
  {
    if w < 0.0 {
      assert (-w).Floor == -w.Floor;
    }
  }

  /** The chunk index brackets the coordinate. */
  lemma ChunkBounds(w: real)
    ensures (ChunkIndex(w) * CHUNK_SIZE) as real <= w < (ChunkIndex(w) * CHUNK_SIZE + CHUNK_SIZE) as real
    ensures ChunkIndex(w) * CHUNK_SIZE <= w.Floor < ChunkIndex(w) * CHUNK_SIZE + CHUNK_SIZE
  {
    var c := ChunkIndex(w);
    assert (c as real) <= w / 16.0 < (c as real) + 1.0;
  }

  /** The as-written axis lands inside the chunk exactly for a non-negative
      coordinate or a multiple of CHUNK_SIZE, and whenever it does it agrees
      with the floor decomposition. Every other negative coordinate is sent
      to a local index from 17 to 32. */
  lemma {:induction false} AxisAsWrittenInRange(w: real)
    ensures 0 <= AxisAsWritten(w).1 < CHUNK_SIZE <==>
      w >= 0.0 || w == (ChunkIndex(w) * CHUNK_SIZE) as real
    ensures 0 <= AxisAsWritten(w).1 < CHUNK_SIZE ==>
      AxisAsWritten(w) == (ChunkIndex(w), LocalIndex(w))
    ensures !(0 <= AxisAsWritten(w).1 < CHUNK_SIZE) ==> CHUNK_SIZE < AxisAsWritten(w).1 <= 2 * CHUNK_SIZE
  {
    var c := ChunkIndex(w);
    ChunkBounds(w);
    TruncProperties(w);
    if w == w.Floor as real {
      TruncOfWhole(w);
    } else {
      assert w != (c * CHUNK_SIZE) as real;
    }
  }

  /** The shift goes wrong at x = -1: that block is cell 15 of chunk -1, but
      the code asks chunk -2 for cell 31, which its bounds check refuses. */
  lemma NegativeCoordinateRejected()
    ensures AxisAsWritten(-1.0) == (-2, 31)
    ensures ChunkIndex(-1.0) == -1 && LocalIndex(-1.0) == 15
  {
    assert ChunkIndex(-1.0) == -1 by {
      assert -1.0 / 16.0 == -0.0625;
    }
    assert Trunc(-1.0) == -1 by {
      TruncOfWhole(-1.0);
    }
  }

  /** The two decompositions name the same cell whenever the as-written one
      is accepted at a height that is not negative. Below zero the cast and
      the floor part: a height in (-1, 0) is cast to row 0. */
  lemma LocateAgreesWhenAccepted(position: Vec3)
    ensures var t := LocateAsWritten(position);
      0 <= t.localX < CHUNK_SIZE && 0 <= t.localZ < CHUNK_SIZE && position.y >= 0.0 ==> t == Locate(position)
    ensures -1.0 < position.y < 0.0 ==> LocateAsWritten(position).localY == 0 && Locate(position).localY == -1
  {
    AxisAsWrittenInRange(position.x);
    AxisAsWrittenInRange(position.z);
    TruncProperties(position.y);
  }

  /** The corrected decomposition reads the very cell the manager's
      getBlockType reports, for every height inside the chunk. */
  lemma LocateMatchesQuery(manager: ChunkManager, position: Vec3)
    requires manager.Valid()
    requires ChunkCoord(Locate(position).chunkX, Locate(position).chunkZ) in manager.loadedChunks
    requires 0 <= position.y.Floor < CHUNK_SIZE
    ensures var t := Locate(position);
      manager.GetBlockType(position) ==
        manager.loadedChunks[ChunkCoord(t.chunkX, t.chunkZ)].blocks[t.localX, position.y.Floor, t.localZ]
  {
  }

  /** The cell t names in a table, when its chunk is loaded and it is inside
      the grid. */
  predicate Addressable(manager: ChunkManager, t: Target)
    reads manager`loadedChunks
  {
    ChunkCoord(t.chunkX, t.chunkZ) in manager.loadedChunks && InBounds(t.localX, t.localY, t.localZ)
  }

  /** The decomposition both placeBlock and mineBlock open with, step by
      step: the chunk by floor division, the local cell by truncation, then
      the shift for negative coordinates. */
  method Decompose(position: Vec3) returns (t: Target)
    ensures t == LocateAsWritten(position)
  {
    var chunkX, chunkZ := ChunkIndex(position.x), ChunkIndex(position.z);
    var localX := Trunc(position.x) - chunkX * CHUNK_SIZE;
    var localY := Trunc(position.y);
    var localZ := Trunc(position.z) - chunkZ * CHUNK_SIZE;
    if position.x < 0.0 && localX != 0 {
      chunkX := chunkX - 1;
      localX := CHUNK_SIZE + localX;
    }
    if position.z < 0.0 && localZ != 0 {
      chunkZ := chunkZ - 1;
      localZ := CHUNK_SIZE + localZ;
    }
    t := Target(chunkX, chunkZ, localX, localY, localZ);
  }

  /** The write placeBlock and mineBlock end with: one cell set, then the
      chunk remeshed. */
  method WriteCell(chunk: VoxelChunk, x: int, y: int, z: int, blockType: BlockType)
    requires chunk.Valid() && InBounds(x, y, z)
    modifies chunk, chunk.blocks
    ensures chunk.blocks[x, y, z] == blockType && chunk.MeshCurrent()
    ensures forall a, b, c | InBounds(a, b, c) && (a != x || b != y || c != z) ::
      chunk.blocks[a, b, c] == old(chunk.blocks[a, b, c])
  {
    chunk.SetBlock(x, y, z, blockType);
    chunk.RegenerateMesh();
  }

  /** The chunk t's coordinates name; only meaningful when it is loaded. */
  function ChunkOf(manager: ChunkManager, t: Target): VoxelChunk
    requires ChunkCoord(t.chunkX, t.chunkZ) in manager.loadedChunks
    reads manager`loadedChunks
  {
    manager.loadedChunks[ChunkCoord(t.chunkX, t.chunkZ)]
  }

  /** placeBlock: rejected when the target chunk is not loaded, the cell is
      outside it, or the cell is not air; otherwise the cell becomes
      blockType and the chunk is remeshed. No other cell and no other chunk
      changes. */
  method PlaceBlock(position: Vec3, blockType: BlockType, manager: ChunkManager) returns (placed: bool)
    requires manager.Valid()
    modifies manager.Chunks(), manager.Grids()
    ensures manager.Valid()
    ensures var t := LocateAsWritten(position);
      placed <==> (Addressable(manager, t) && old(ChunkOf(manager, t).blocks[t.localX, t.localY, t.localZ]) == Air)
    ensures var t := LocateAsWritten(position);
      placed ==>
        ChunkOf(manager, t).blocks[t.localX, t.localY, t.localZ] == blockType && ChunkOf(manager, t).MeshCurrent()
        && forall a, b, c | InBounds(a, b, c) && (a != t.localX || b != t.localY || c != t.localZ) ::
          ChunkOf(manager, t).blocks[a, b, c] == old(ChunkOf(manager, t).blocks[a, b, c])
    ensures !placed ==> unchanged(manager.Chunks()) && unchanged(manager.Grids())
    ensures var t := LocateAsWritten(position);
      forall k | k in manager.loadedChunks && k != ChunkCoord(t.chunkX, t.chunkZ) ::
        unchanged(manager.loadedChunks[k]) && unchanged(manager.loadedChunks[k].blocks)
  {
    var t := Decompose(position);
    placed := PlaceAt(t, blockType, manager);
  }

  /** The acceptance rules and the write of placeBlock, once the target is
      known. */
  method PlaceAt(t: Target, blockType: BlockType, manager: ChunkManager) returns (placed: bool)
    requires manager.Valid()
    modifies manager.Chunks(), manager.Grids()
    ensures manager.Valid()
    ensures placed <==> (Addressable(manager, t) && old(ChunkOf(manager, t).blocks[t.localX, t.localY, t.localZ]) == Air)
    ensures placed ==>
      ChunkOf(manager, t).blocks[t.localX, t.localY, t.localZ] == blockType && ChunkOf(manager, t).MeshCurrent()
      && forall a, b, c | InBounds(a, b, c) && (a != t.localX || b != t.localY || c != t.localZ) ::
        ChunkOf(manager, t).blocks[a, b, c] == old(ChunkOf(manager, t).blocks[a, b, c])
    ensures !placed ==> unchanged(manager.Chunks()) && unchanged(manager.Grids())
    ensures forall k | k in manager.loadedChunks && k != ChunkCoord(t.chunkX, t.chunkZ) ::
      unchanged(manager.loadedChunks[k]) && unchanged(manager.loadedChunks[k].blocks)
  {
    var chunk := manager.GetChunkAt(t.chunkX, t.chunkZ);
    if chunk == null {
      return false;
    }
    if t.localX < 0 || t.localX >= CHUNK_SIZE || t.localY < 0 || t.localY >= CHUNK_SIZE
       || t.localZ < 0 || t.localZ >= CHUNK_SIZE {
      return false;
    }
    var solid := chunk.IsBlockSolid(t.localX, t.localY, t.localZ);
    assert solid <==> chunk.blocks[t.localX, t.localY, t.localZ] != Air;
    if solid {
      return false;
    }
    WriteCell(chunk, t.localX, t.localY, t.localZ, blockType);
    return true;
  }

  /** mineBlock: the same target; rejected when the chunk is not loaded, the
      cell is outside it, or the cell is air or bedrock; otherwise the cell
      becomes air and the chunk is remeshed. No other cell and no other
      chunk changes. */
  method MineBlock(position: Vec3, manager: ChunkManager) returns (mined: bool)
    requires manager.Valid()
    modifies manager.Chunks(), manager.Grids()
    ensures manager.Valid()
    ensures var t := LocateAsWritten(position);
      mined <==> (Addressable(manager, t) && old(ChunkOf(manager, t).blocks[t.localX, t.localY, t.localZ]) !in {Air, Bedrock})
    ensures var t := LocateAsWritten(position);
      mined ==>
        ChunkOf(manager, t).blocks[t.localX, t.localY, t.localZ] == Air && ChunkOf(manager, t).MeshCurrent()
        && forall a, b, c | InBounds(a, b, c) && (a != t.localX || b != t.localY || c != t.localZ) ::
          ChunkOf(manager, t).blocks[a, b, c] == old(ChunkOf(manager, t).blocks[a, b, c])
    ensures !mined ==> unchanged(manager.Chunks()) && unchanged(manager.Grids())
    ensures var t := LocateAsWritten(position);
      forall k | k in manager.loadedChunks && k != ChunkCoord(t.chunkX, t.chunkZ) ::
        unchanged(manager.loadedChunks[k]) && unchanged(manager.loadedChunks[k].blocks)
  {
    var t := Decompose(position);
    mined := MineAt(t, manager);
  }

  /** The acceptance rules and the write of mineBlock, once the target is
      known. */
  method MineAt(t: Target, manager: ChunkManager) returns (mined: bool)
    requires manager.Valid()
    modifies manager.Chunks(), manager.Grids()
    ensures manager.Valid()
    ensures mined <==> (Addressable(manager, t) && old(ChunkOf(manager, t).blocks[t.localX, t.localY, t.localZ]) !in {Air, Bedrock})
    ensures mined ==>
      ChunkOf(manager, t).blocks[t.localX, t.localY, t.localZ] == Air && ChunkOf(manager, t).MeshCurrent()
      && forall a, b, c | InBounds(a, b, c) && (a != t.localX || b != t.localY || c != t.localZ) ::
        ChunkOf(manager, t).blocks[a, b, c] == old(ChunkOf(manager, t).blocks[a, b, c])
    ensures !mined ==> unchanged(manager.Chunks()) && unchanged(manager.Grids())
    ensures forall k | k in manager.loadedChunks && k != ChunkCoord(t.chunkX, t.chunkZ) ::
      unchanged(manager.loadedChunks[k]) && unchanged(manager.loadedChunks[k].blocks)
  {
    var chunk := manager.GetChunkAt(t.chunkX, t.chunkZ);
    if chunk == null {
      return false;
    }
    if t.localX < 0 || t.localX >= CHUNK_SIZE || t.localY < 0 || t.localY >= CHUNK_SIZE
       || t.localZ < 0 || t.localZ >= CHUNK_SIZE {
      return false;
    }
    var blockType := chunk.GetBlockType(t.localX, t.localY, t.localZ);
    if blockType == Air || blockType == Bedrock {
      return false;
    }
    WriteCell(chunk, t.localX, t.localY, t.localZ, Air);
    return true;
  }

  /** placeBlock as evidently intended: the target is the floor
      decomposition the manager's queries use, so a placed block is what
      getBlockType then reports at that position, negative coordinates
      included. Otherwise the rules and the write are placeBlock's. */
  method PlaceBlockIntended(position: Vec3, blockType: BlockType, manager: ChunkManager) returns (placed: bool)
    requires manager.Valid()
    modifies manager.Chunks(), manager.Grids()
    ensures manager.Valid()
    ensures var t := Locate(position);
      placed <==> (Addressable(manager, t) && old(ChunkOf(manager, t).blocks[t.localX, t.localY, t.localZ]) == Air)
    ensures var t := Locate(position);
      placed ==>
        ChunkOf(manager, t).blocks[t.localX, t.localY, t.localZ] == blockType && ChunkOf(manager, t).MeshCurrent()
        && forall a, b, c | InBounds(a, b, c) && (a != t.localX || b != t.localY || c != t.localZ) ::
          ChunkOf(manager, t).blocks[a, b, c] == old(ChunkOf(manager, t).blocks[a, b, c])
    ensures placed ==> manager.GetBlockType(position) == blockType
    ensures !placed ==> unchanged(manager.Chunks()) && unchanged(manager.Grids())
    ensures var t := Locate(position);
      forall k | k in manager.loadedChunks && k != ChunkCoord(t.chunkX, t.chunkZ) ::
        unchanged(manager.loadedChunks[k]) && unchanged(manager.loadedChunks[k].blocks)
  {
    placed := PlaceAt(Locate(position), blockType, manager);
  }

  /** mineBlock as evidently intended: after a successful mine getBlockType
      reports air at the position. Otherwise the rules and the write are
      mineBlock's. */
  method MineBlockIntended(position: Vec3, manager: ChunkManager) returns (mined: bool)
    requires manager.Valid()
    modifies manager.Chunks(), manager.Grids()
    ensures manager.Valid()
    ensures var t := Locate(position);
      mined <==> (Addressable(manager, t) && old(ChunkOf(manager, t).blocks[t.localX, t.localY, t.localZ]) !in {Air, Bedrock})
    ensures var t := Locate(position);
      mined ==>
        ChunkOf(manager, t).blocks[t.localX, t.localY, t.localZ] == Air && ChunkOf(manager, t).MeshCurrent()
        && forall a, b, c | InBounds(a, b, c) && (a != t.localX || b != t.localY || c != t.localZ) ::
          ChunkOf(manager, t).blocks[a, b, c] == old(ChunkOf(manager, t).blocks[a, b, c])
    ensures mined ==> manager.GetBlockType(position) == Air
    ensures !mined ==> unchanged(manager.Chunks()) && unchanged(manager.Grids())
    ensures var t := Locate(position);
      forall k | k in manager.loadedChunks && k != ChunkCoord(t.chunkX, t.chunkZ) ::
        unchanged(manager.loadedChunks[k]) && unchanged(manager.loadedChunks[k].blocks)
  {
    mined := MineAt(Locate(position), manager);
  }

  /** p and q differ by one along exactly one axis. */
  predicate Adjacent(p: Vec3, q: Vec3)
  {
    (Abs(p.x - q.x) == 1.0 && p.y == q.y && p.z == q.z)
    || (p.x == q.x && Abs(p.y - q.y) == 1.0 && p.z == q.z)
    || (p.x == q.x && p.y == q.y && Abs(p.z - q.z) == 1.0)
  }

  /** getPlacementPosition: the hit block moved one step along the normal,
      so a unit-axis normal gives a neighbouring block. */
  function GetPlacementPosition(hit: RaycastHit): (p: Vec3)
    ensures UnitAxis(hit.normal) ==> Adjacent(p, hit.blockPosition)
  {
    Vec3(hit.blockPosition.x + hit.normal.x, hit.blockPosition.y + hit.normal.y,
         hit.blockPosition.z + hit.normal.z)
  }

  function Abs(r: real): real
  {
    if r < 0.0 then -r else r
  }

  /** Exactly one component is 1 or -1 and the others are 0. */
  predicate UnitAxis(n: Vec3)
  {
    (n.x in {1.0, -1.0} && n.y == 0.0 && n.z == 0.0)
    || (n.x == 0.0 && n.y in {1.0, -1.0} && n.z == 0.0)
    || (n.x == 0.0 && n.y == 0.0 && n.z in {1.0, -1.0})
  }

  /** calculateFaceNormal: the axis along which the hit point lies farthest
      from the block's centre (x only when strictly farthest, then y over z
      only when strictly farther), signed +1 when the hit lies on the
      positive side. */
  function CalculateFaceNormal(rayDir: Vec3, blockPos: Vec3, hitPos: Vec3): (n: Vec3)
    ensures UnitAxis(n)
    ensures var lx, ly, lz := hitPos.x - (blockPos.x + 0.5), hitPos.y - (blockPos.y + 0.5), hitPos.z - (blockPos.z + 0.5);
      (n.x != 0.0 ==> Abs(lx) > Abs(ly) && Abs(lx) > Abs(lz) && (n.x == 1.0 <==> lx > 0.0))
      && (n.y != 0.0 ==> Abs(ly) >= Abs(lx) && Abs(ly) > Abs(lz) && (n.y == 1.0 <==> ly > 0.0))
      && (n.z != 0.0 ==> Abs(lz) >= Abs(lx) && Abs(lz) >= Abs(ly) && (n.z == 1.0 <==> lz > 0.0))
  {
    var localHit := Vec3(hitPos.x - (blockPos.x + 0.5), hitPos.y - (blockPos.y + 0.5), hitPos.z - (blockPos.z + 0.5));
    var ax, ay, az := Abs(localHit.x), Abs(localHit.y), Abs(localHit.z);
    if ax > ay && ax > az then Vec3(if localHit.x > 0.0 then 1.0 else -1.0, 0.0, 0.0)
    else if ay > az then Vec3(0.0, if localHit.y > 0.0 then 1.0 else -1.0, 0.0)
    else Vec3(0.0, 0.0, if localHit.z > 0.0 then 1.0 else -1.0)
  }

  /** A block placed against the face the ray hit sits next to the hit
      block: one coordinate moved by one, the other two kept. */
  lemma PlacementIsAdjacent(rayDir: Vec3, blockPos: Vec3, hitPos: Vec3, distance: real)
    ensures Adjacent(GetPlacementPosition(RaycastHit(true, blockPos, CalculateFaceNormal(rayDir, blockPos, hitPos), distance)),
                     blockPos)
  {
  }
}
