/** The chunk manager: a table from chunk coordinates to loaded chunks, kept
    around the player as the player moves, the world-space block queries that
    go through it, and the list of chunks to draw this frame. */
module ChunkManagement {
  import opened Blocks
  import opened Coords
  import opened Terrain
  import opened ChunkRange
  import opened VoxelMesh
  import opened VoxelChunks

  /** The chunk holds the generated terrain of coord, and its buffers hold
      that terrain's mesh. */
  ghost predicate HoldsTerrain(noise: Noise, chunk: VoxelChunk, coord: ChunkCoord)
    requires chunk.Valid()
    reads chunk, chunk.blocks
  {
    (forall x, y, z | InBounds(x, y, z) :: chunk.blocks[x, y, z] == TerrainBlock(noise, coord, x, y, z))
    && chunk.MeshCurrent()
  }

  /** The keys the table holds after a move to player chunk p from a table
      whose keys were old: the earlier chunks within the unload radius, and
      every square coordinate that was missing. */
  ghost function UpdatedKeys(before: set<ChunkCoord>, p: ChunkCoord): set<ChunkCoord>
  {
    (set c | c in before && DistanceSquared(c, p) <= UNLOAD_DISTANCE * UNLOAD_DISTANCE)
    + (set c | c in ChunksInRange(p, LOAD_DISTANCE) && c !in before)
  }

  /** A chunk of the load square can be dropped by the very move that asks
      for it: at the square's corner a chunk that was loaded is unloaded,
      while one that was missing is loaded and stays. */
  lemma {:induction false} CornerOfLoadSquare(before: set<ChunkCoord>, p: ChunkCoord)
    ensures var corner := ChunkCoord(p.x + LOAD_DISTANCE, p.z + LOAD_DISTANCE);
      corner in ChunksInRange(p, LOAD_DISTANCE) &&
      (corner in before ==> corner !in UpdatedKeys(before, p)) &&
      (corner !in before ==> corner in UpdatedKeys(before, p))
  {
    var corner := ChunkCoord(p.x + LOAD_DISTANCE, p.z + LOAD_DISTANCE);
    ChunksInRangeProperties(p, LOAD_DISTANCE);
    assert InSquare(corner, p, LOAD_DISTANCE);
    LoadCornerBeyondUnload(p);
  }

  /** After a move, the table holds every chunk of the unload disc that was
      loaded before, and every chunk of the load square it did not hold. */
  lemma UpdatedKeysMembership(before: set<ChunkCoord>, p: ChunkCoord, c: ChunkCoord)
    ensures c in UpdatedKeys(before, p) <==>
      if c in before then DistanceSquared(c, p) <= UNLOAD_DISTANCE * UNLOAD_DISTANCE
      else InSquare(c, p, LOAD_DISTANCE)
  {
    ChunksInRangeProperties(p, LOAD_DISTANCE);
  }

  /** The order chunksToRender is sorted in: non-decreasing squared distance
      to the player's chunk. */
  predicate SortedByDistance(s: seq<(ChunkCoord, VoxelChunk)>, p: ChunkCoord)
  {
    forall i, j | 0 <= i < j < |s| :: DistanceSquared(s[i].0, p) <= DistanceSquared(s[j].0, p)
  }

  /** No coordinate appears twice. */
  predicate DistinctCoords(s: seq<(ChunkCoord, VoxelChunk)>)
  {
    forall i, j | 0 <= i < j < |s| :: s[i].0 != s[j].0
  }

  /** std::sort of the render list with the near-to-far comparator, as an
      insertion sort: the result is a permutation of the input ordered by
      distance to p. */
  method SortByDistance(items: seq<(ChunkCoord, VoxelChunk)>, p: ChunkCoord)
    returns (sorted: seq<(ChunkCoord, VoxelChunk)>)
    ensures multiset(sorted) == multiset(items)
    ensures SortedByDistance(sorted, p)
    ensures DistinctCoords(items) ==> DistinctCoords(sorted)
  {
    sorted := [];
    for i := 0 to |items|
      invariant multiset(sorted) == multiset(items[..i])
      invariant SortedByDistance(sorted, p)
      invariant DistinctCoords(items) ==> DistinctCoords(sorted)
    {
      var e := items[i];
      var k := 0;
      while k < |sorted| && DistanceSquared(sorted[k].0, p) <= DistanceSquared(e.0, p)
        invariant 0 <= k <= |sorted|
        invariant forall j | 0 <= j < k :: DistanceSquared(sorted[j].0, p) <= DistanceSquared(e.0, p)
      {
        k := k + 1;
      }
      InsertStep(items, i, sorted, k, p);
      sorted := sorted[..k] + [e] + sorted[k..];
    }
    assert items[..|items|] == items;
  }

  /** The positions of s[..k] + [e] + s[k..]. */
  lemma InsertShape<T>(s: seq<T>, k: int, e: T)
    requires 0 <= k <= |s|
    ensures |s[..k] + [e] + s[k..]| == |s| + 1
    ensures forall i | 0 <= i < |s| + 1 ::
      (s[..k] + [e] + s[k..])[i] == if i < k then s[i] else if i == k then e else s[i - 1]
    ensures multiset(s[..k] + [e] + s[k..]) == multiset(s) + multiset{e}
  {
    assert s == s[..k] + s[k..];
  }

  /** Inserting items[i] after every entry no farther than it keeps the
      prefix sorted, a permutation of items[..i + 1], and free of repeats. */
  lemma InsertStep(items: seq<(ChunkCoord, VoxelChunk)>, i: int, s: seq<(ChunkCoord, VoxelChunk)>, k: int, p: ChunkCoord)
    requires 0 <= i < |items| && 0 <= k <= |s|
    requires multiset(s) == multiset(items[..i]) && SortedByDistance(s, p)
    requires DistinctCoords(items) ==> DistinctCoords(s)
    requires forall j | 0 <= j < k :: DistanceSquared(s[j].0, p) <= DistanceSquared(items[i].0, p)
    requires k < |s| ==> DistanceSquared(items[i].0, p) < DistanceSquared(s[k].0, p)
    ensures multiset(s[..k] + [items[i]] + s[k..]) == multiset(items[..i + 1])
    ensures SortedByDistance(s[..k] + [items[i]] + s[k..], p)
    ensures DistinctCoords(items) ==> DistinctCoords(s[..k] + [items[i]] + s[k..])
  {
    var e := items[i];
    var r := s[..k] + [e] + s[k..];
    InsertShape(s, k, e);
    assert items[..i + 1] == items[..i] + [e];
    forall a, b | 0 <= a < b < |r|
      ensures DistanceSquared(r[a].0, p) <= DistanceSquared(r[b].0, p)
    {
      if a == k && k < b {
        assert DistanceSquared(s[k].0, p) <= DistanceSquared(s[b - 1].0, p);
      }
    }
    if DistinctCoords(items) {
      forall m | 0 <= m < |s|
        ensures s[m].0 != e.0
      {
        assert s[m] in multiset(items[..i]);
        var q :| 0 <= q < i && items[q] == s[m];
      }
    }
  }

  /** Loading the missing square coordinates and then dropping the far
      chunks of the earlier table leaves exactly UpdatedKeys: nothing loaded
      by the move is on the unload list, which was taken before loading. */
  lemma KeysAfterUpdate(before: set<ChunkCoord>, p: ChunkCoord, toLoad: seq<ChunkCoord>, toUnload: seq<ChunkCoord>)
    requires toLoad == NotLoaded(ChunksInRange(p, LOAD_DISTANCE), before)
    requires forall c :: c in toUnload <==> c in before && DistanceSquared(c, p) > UNLOAD_DISTANCE * UNLOAD_DISTANCE
    ensures (before + set c | c in toLoad) - (set c | c in toUnload) == UpdatedKeys(before, p)
  {
  }

  class ChunkManager {
    var loadedChunks: map<ChunkCoord, VoxelChunk>
    var lastPlayerChunk: ChunkCoord
    var lastRenderedCount: int
    var chunksToLoad: seq<ChunkCoord>
    var chunksToUnload: seq<ChunkCoord>
    var chunksToRender: seq<(ChunkCoord, VoxelChunk)>
    /** The manager's noise generators, as the values they yield. */
    const noise: Noise

    /** Every table entry is a well-formed chunk placed at its own key, and
        no two entries share a grid (each key owns its chunk, as the
        unique_ptr values of the table do). */
    ghost predicate Valid()
      reads this`loadedChunks
    {
      (forall c | c in loadedChunks ::
        loadedChunks[c].Valid() && loadedChunks[c].worldX == c.x && loadedChunks[c].worldZ == c.z)
      && (forall c, d | c in loadedChunks && d in loadedChunks && c != d ::
        loadedChunks[c].blocks != loadedChunks[d].blocks)
    }

    /** The loaded chunk objects. */
    ghost function Chunks(): set<VoxelChunk>
      reads this`loadedChunks
    {
      loadedChunks.Values
    }

    /** The grids of the loaded chunks: what the world queries read. */
    ghost function Grids(): set<array3<BlockType>>
      reads this`loadedChunks
    {
      set c | c in loadedChunks :: loadedChunks[c].blocks
    }

    constructor (noise: Noise)
      ensures Valid() && this.noise == noise
      ensures loadedChunks == map[] && lastPlayerChunk == ChunkCoord(0, 0) && lastRenderedCount == 0
    {
      this.noise := noise;
      loadedChunks := map[];
      lastPlayerChunk := ChunkCoord(0, 0);
      lastRenderedCount := 0;
      chunksToLoad := [];
      chunksToUnload := [];
      chunksToRender := [];
    }

    /** getChunkAt: the chunk stored under (chunkX, chunkZ), null when none
        is loaded there. */
    function GetChunkAt(chunkX: int, chunkZ: int): (r: VoxelChunk?)
      reads this
      ensures r != null <==> ChunkCoord(chunkX, chunkZ) in loadedChunks
      ensures r != null ==> r == loadedChunks[ChunkCoord(chunkX, chunkZ)]
    {
      var coord := ChunkCoord(chunkX, chunkZ);
      if coord in loadedChunks then loadedChunks[coord] else null
    }

    /** getChunk: the chunk containing a world position. */
    function GetChunk(p: Vec3): (r: VoxelChunk?)
      reads this
      ensures r != null <==> WorldToChunkCoord(p) in loadedChunks
      ensures r != null ==> r == loadedChunks[WorldToChunkCoord(p)]
    {
      var coord := WorldToChunkCoord(p);
      GetChunkAt(coord.x, coord.z)
    }

    /** getBlockType at a world position: air where no chunk is loaded or
        the height is outside the chunk, otherwise the cell the floor of the
        position falls in. */
    function GetBlockType(p: Vec3): (r: BlockType)
      requires Valid()
      reads this, Grids()
      ensures WorldToChunkCoord(p) !in loadedChunks ==> r == Air
      ensures !(0 <= p.y.Floor < CHUNK_SIZE) ==> r == Air
      ensures WorldToChunkCoord(p) in loadedChunks && 0 <= p.y.Floor < CHUNK_SIZE ==>
        r == loadedChunks[WorldToChunkCoord(p)].blocks[LocalIndex(p.x), p.y.Floor, LocalIndex(p.z)]
    {
      var chunkX, chunkZ := ChunkIndex(p.x), ChunkIndex(p.z);
      var chunk := GetChunkAt(chunkX, chunkZ);
      if chunk == null then Air
      else
        var localX, localY, localZ := p.x.Floor - chunkX * CHUNK_SIZE, p.y.Floor, p.z.Floor - chunkZ * CHUNK_SIZE;
        if localX < 0 || localX >= CHUNK_SIZE || localY < 0 || localY >= CHUNK_SIZE
           || localZ < 0 || localZ >= CHUNK_SIZE then Air
        else chunk.blocks[localX, localY, localZ]
    }

    /** isBlockSolid at a world position: the same lookup, reporting whether
        the cell is anything but air. */
    function IsBlockSolid(p: Vec3): (r: bool)
      requires Valid()
      reads this, Grids()
      ensures r <==> GetBlockType(p) != Air
    {
      var chunkX, chunkZ := ChunkIndex(p.x), ChunkIndex(p.z);
      var chunk := GetChunkAt(chunkX, chunkZ);
      if chunk == null then false
      else
        var localX, localY, localZ := p.x.Floor - chunkX * CHUNK_SIZE, p.y.Floor, p.z.Floor - chunkZ * CHUNK_SIZE;
        if localX < 0 || localX >= CHUNK_SIZE || localY < 0 || localY >= CHUNK_SIZE
           || localZ < 0 || localZ >= CHUNK_SIZE then false
        else chunk.blocks[localX, localY, localZ] != Air
    }

    /** getSurfaceHeight: scanning down from the top of the chunk, the
        highest solid cell of the column, or -1 when there is none or no
        chunk is loaded. */
    method GetSurfaceHeight(worldX: real, worldZ: real) returns (h: int)
      requires Valid()
      ensures -1 <= h < CHUNK_SIZE
      ensures GetChunk(Vec3(worldX, 0.0, worldZ)) == null ==> h == -1
      ensures h >= 0 ==> IsBlockSolid(ColumnPoint(worldX, h, worldZ))
      ensures forall y | h < y < CHUNK_SIZE :: !IsBlockSolid(ColumnPoint(worldX, y, worldZ))
    {
      var chunk := GetChunk(Vec3(worldX, 0.0, worldZ));
      if chunk == null {
        NoChunkNoSolid(worldX, worldZ);
        return -1;
      }
      var y := CHUNK_SIZE - 1;
      while y >= 0
        invariant -1 <= y < CHUNK_SIZE
        invariant forall v | y < v < CHUNK_SIZE :: !IsBlockSolid(ColumnPoint(worldX, v, worldZ))
      {
        if IsBlockSolid(ColumnPoint(worldX, y, worldZ)) {
          return y;
        }
        y := y - 1;
      }
      return -1;
    }

    /** Every cell of a column whose chunk is not loaded reads as not solid. */
    lemma NoChunkNoSolid(worldX: real, worldZ: real)
      requires Valid() && GetChunk(Vec3(worldX, 0.0, worldZ)) == null
      ensures forall y :: !IsBlockSolid(ColumnPoint(worldX, y, worldZ))
    {
      forall y
        ensures !IsBlockSolid(ColumnPoint(worldX, y, worldZ))
      {
        assert WorldToChunkCoord(ColumnPoint(worldX, y, worldZ)) == WorldToChunkCoord(Vec3(worldX, 0.0, worldZ));
      }
    }

    /** shouldRenderChunk: within the render radius of the player's chunk,
        which keeps a drawn chunk within that radius on both axes. */
    predicate ShouldRenderChunk(coord: ChunkCoord, playerPosition: Vec3): (r: bool)
      ensures r ==> InSquare(coord, WorldToChunkCoord(playerPosition), RENDER_DISTANCE)
    {
      DiscInsideSquare(coord, WorldToChunkCoord(playerPosition), RENDER_DISTANCE);
      DistanceSquared(coord, WorldToChunkCoord(playerPosition)) <= RENDER_DISTANCE * RENDER_DISTANCE
    }

    /** Every chunk drawn lies in the square the manager loads around the
        player, though not every chunk of that square is drawn. */
    lemma RenderDiscInsideLoadSquare(coord: ChunkCoord, playerPosition: Vec3)
      ensures ShouldRenderChunk(coord, playerPosition) ==>
        InSquare(coord, WorldToChunkCoord(playerPosition), LOAD_DISTANCE)
      ensures var p := WorldToChunkCoord(playerPosition);
        !ShouldRenderChunk(ChunkCoord(p.x + LOAD_DISTANCE, p.z), playerPosition)
    {
      var p := WorldToChunkCoord(playerPosition);
      if !InSquare(coord, p, LOAD_DISTANCE) {
        OutsideSquareOutsideDisc(coord.x - p.x, coord.z - p.z, LOAD_DISTANCE);
      }
    }

    /** getChunksInRange: the square of coordinates around center, built row
        by row. */
    method GetChunksInRange(center: ChunkCoord, range: int) returns (chunks: seq<ChunkCoord>)
      ensures chunks == ChunksInRange(center, range)
      ensures forall c :: c in chunks <==> InSquare(c, center, range)
    {
      chunks := [];
      var x := center.x - range;
      while x <= center.x + range
        invariant center.x - range <= x && (range < 0 || x <= center.x + range + 1)
        invariant range >= 0 ==> chunks == Rows(center, range, x - (center.x - range))
        invariant range < 0 ==> chunks == []
      {
        ghost var before := chunks;
        var z := center.z - range;
        while z <= center.z + range
          invariant center.z - range <= z <= center.z + range + 1
          invariant chunks == before + Row(x, center.z - range, z - (center.z - range))
        {
          chunks := chunks + [ChunkCoord(x, z)];
          z := z + 1;
        }
        x := x + 1;
      }
      ChunksInRangeProperties(center, range);
    }

    /** loadChunk: nothing when coord is already loaded; otherwise a new
        chunk whose every cell is written from the terrain rule, remeshed,
        and stored under coord. */
    method LoadChunk(coord: ChunkCoord)
      requires Valid()
      modifies this`loadedChunks
      ensures Valid()
      ensures loadedChunks.Keys == old(loadedChunks).Keys + {coord}
      ensures forall c | c in old(loadedChunks) :: loadedChunks[c] == old(loadedChunks)[c]
      ensures coord in old(loadedChunks) ==> loadedChunks == old(loadedChunks)
      ensures coord !in old(loadedChunks) ==>
        coord in loadedChunks && loadedChunks == old(loadedChunks)[coord := loadedChunks[coord]]
        && fresh(loadedChunks[coord]) && fresh(loadedChunks[coord].blocks)
        && HoldsTerrain(noise, loadedChunks[coord], coord)
    {
      if coord in loadedChunks {
        return;
      }
      var chunk := NewTerrainChunk(coord);
      loadedChunks := loadedChunks[coord := chunk];
    }

    /** The chunk loadChunk builds for coord: constructed, overwritten cell
        by cell with the terrain rule, then remeshed. */
    method NewTerrainChunk(coord: ChunkCoord) returns (chunk: VoxelChunk)
      ensures fresh(chunk) && fresh(chunk.blocks) && chunk.Valid()
      ensures chunk.worldX == coord.x && chunk.worldZ == coord.z
      ensures HoldsTerrain(noise, chunk, coord)
    {
      chunk := new VoxelChunk(coord.x, coord.z, noise.chunkHeight);
      FillTerrain(chunk, coord);
      chunk.RegenerateMesh();
    }

    /** The terrain loop of loadChunk: every column of chunk, bottom to top,
        written cell by cell from the surface height, biome and cave tests of
        its world position. */
    method FillTerrain(chunk: VoxelChunk, coord: ChunkCoord)
      requires chunk.Valid()
      modifies chunk.blocks
      ensures forall a, b, c | InBounds(a, b, c) :: chunk.blocks[a, b, c] == TerrainBlock(noise, coord, a, b, c)
    {
      for x := 0 to CHUNK_SIZE
        invariant forall a, b, c | InBounds(a, b, c) && a < x ::
          chunk.blocks[a, b, c] == TerrainBlock(noise, coord, a, b, c)
      {
        for z := 0 to CHUNK_SIZE
          invariant forall a, b, c | InBounds(a, b, c) && (a < x || (a == x && c < z)) ::
            chunk.blocks[a, b, c] == TerrainBlock(noise, coord, a, b, c)
        {
          var worldX, worldZ := coord.x * CHUNK_SIZE + x, coord.z * CHUNK_SIZE + z;
          var surfaceHeight := Clamp(noise.rawHeight(worldX, worldZ), MIN_SURFACE, MAX_SURFACE);
          var sandy := noise.sandBiome(worldX, worldZ);
          for y := 0 to CHUNK_SIZE
            invariant forall a, b, c | InBounds(a, b, c) && (a < x || (a == x && (c < z || (c == z && b < y)))) ::
              chunk.blocks[a, b, c] == TerrainBlock(noise, coord, a, b, c)
          {
            var blockType := ColumnBlock(surfaceHeight, sandy, noise.cave(worldX, y, worldZ), y);
            assert blockType == TerrainBlock(noise, coord, x, y, z);
            chunk.SetBlock(x, y, z, blockType);
          }
        }
      }
    }

    /** unloadChunk: drops coord from the table; nothing when it is absent. */
    method UnloadChunk(coord: ChunkCoord)
      requires Valid()
      modifies this`loadedChunks
      ensures Valid()
      ensures loadedChunks == old(loadedChunks) - {coord}
    {
      if coord in loadedChunks {
        loadedChunks := loadedChunks - {coord};
      }
    }

    /** initialize: loads the whole load square around the player's chunk
        and records that chunk as the last one seen. */
    method Initialize(playerPosition: Vec3)
      requires Valid()
      modifies this`loadedChunks, this`lastPlayerChunk
      ensures Valid()
      ensures lastPlayerChunk == WorldToChunkCoord(playerPosition)
      ensures forall c :: c in loadedChunks <==>
        c in old(loadedChunks) || InSquare(c, WorldToChunkCoord(playerPosition), LOAD_DISTANCE)
      ensures forall c | c in old(loadedChunks) :: loadedChunks[c] == old(loadedChunks)[c]
      ensures forall c | c in loadedChunks && c !in old(loadedChunks) ::
        fresh(loadedChunks[c]) && HoldsTerrain(noise, loadedChunks[c], c)
    {
      var playerChunk := WorldToChunkCoord(playerPosition);
      var initialChunks := GetChunksInRange(playerChunk, LOAD_DISTANCE);
      LoadAll(initialChunks);
      lastPlayerChunk := playerChunk;
    }

    /** update: when the player has entered another chunk, loads every
        coordinate of the new load square that is missing and then drops
        every chunk that was loaded before and lies beyond the unload radius;
        otherwise nothing changes. */
    method Update(playerPosition: Vec3)
      requires Valid()
      modifies this`loadedChunks, this`lastPlayerChunk, this`chunksToLoad, this`chunksToUnload
      ensures Valid()
      ensures WorldToChunkCoord(playerPosition) == old(lastPlayerChunk) ==>
        loadedChunks == old(loadedChunks) && lastPlayerChunk == old(lastPlayerChunk)
        && chunksToLoad == old(chunksToLoad) && chunksToUnload == old(chunksToUnload)
      ensures var p := WorldToChunkCoord(playerPosition);
        p != old(lastPlayerChunk) ==>
          lastPlayerChunk == p
          && chunksToLoad == NotLoaded(ChunksInRange(p, LOAD_DISTANCE), old(loadedChunks).Keys)
          && (forall c :: c in chunksToUnload <==>
                c in old(loadedChunks) && DistanceSquared(c, p) > UNLOAD_DISTANCE * UNLOAD_DISTANCE)
          && loadedChunks.Keys == UpdatedKeys(old(loadedChunks).Keys, p)
      ensures forall c | c in loadedChunks && c in old(loadedChunks) :: loadedChunks[c] == old(loadedChunks)[c]
      ensures forall c | c in loadedChunks && c !in old(loadedChunks) ::
        fresh(loadedChunks[c]) && HoldsTerrain(noise, loadedChunks[c], c)
    {
      var currentPlayerChunk := WorldToChunkCoord(playerPosition);
      if currentPlayerChunk != lastPlayerChunk {
        Recentre(currentPlayerChunk);
      }
    }

    /** The body of update once the player is in another chunk p: both
        lists are taken from the table as it was, then the loads are applied
        before the unloads. */
    method Recentre(p: ChunkCoord)
      requires Valid()
      modifies this`loadedChunks, this`lastPlayerChunk, this`chunksToLoad, this`chunksToUnload
      ensures Valid()
      ensures lastPlayerChunk == p
      ensures chunksToLoad == NotLoaded(ChunksInRange(p, LOAD_DISTANCE), old(loadedChunks).Keys)
      ensures forall c :: c in chunksToUnload <==>
        c in old(loadedChunks) && DistanceSquared(c, p) > UNLOAD_DISTANCE * UNLOAD_DISTANCE
      ensures loadedChunks.Keys == UpdatedKeys(old(loadedChunks).Keys, p)
      ensures forall c | c in loadedChunks && c in old(loadedChunks) :: loadedChunks[c] == old(loadedChunks)[c]
      ensures forall c | c in loadedChunks && c !in old(loadedChunks) ::
        fresh(loadedChunks[c]) && HoldsTerrain(noise, loadedChunks[c], c)
    {
      var requiredChunks := GetChunksInRange(p, LOAD_DISTANCE);
      chunksToLoad := CollectLoads(requiredChunks);
      chunksToUnload := CollectUnloads(p);
      ghost var before := loadedChunks.Keys;
      LoadThenUnload(chunksToLoad, chunksToUnload);
      KeysAfterUpdate(before, p, chunksToLoad, chunksToUnload);
      lastPlayerChunk := p;
    }

    /** The two loops that close update: every coordinate of toLoad is
        loaded, then every coordinate of toUnload is dropped. */
    method LoadThenUnload(toLoad: seq<ChunkCoord>, toUnload: seq<ChunkCoord>)
      requires Valid()
      modifies this`loadedChunks
      ensures Valid()
      ensures loadedChunks.Keys == (old(loadedChunks).Keys + set c | c in toLoad) - set c | c in toUnload
      ensures forall c | c in loadedChunks && c in old(loadedChunks) :: loadedChunks[c] == old(loadedChunks)[c]
      ensures forall c | c in loadedChunks && c !in old(loadedChunks) ::
        fresh(loadedChunks[c]) && HoldsTerrain(noise, loadedChunks[c], c)
    {
      LoadAll(toLoad);
      UnloadAll(toUnload);
    }

    /** The load-list loop of update: the coordinates of required, in order,
        that the table does not hold. */
    method CollectLoads(required: seq<ChunkCoord>) returns (toLoad: seq<ChunkCoord>)
      ensures toLoad == NotLoaded(required, loadedChunks.Keys)
    {
      toLoad := [];
      for i := 0 to |required|
        invariant toLoad == NotLoaded(required[..i], loadedChunks.Keys)
      {
        assert required[..i + 1][..i] == required[..i];
        if required[i] !in loadedChunks {
          toLoad := toLoad + [required[i]];
        }
      }
      assert required[..|required|] == required;
    }

    /** The unload-list loop of update: one pass over the table, in whatever
        order it yields its keys, keeping those beyond the unload radius of p. */
    method CollectUnloads(p: ChunkCoord) returns (toUnload: seq<ChunkCoord>)
      ensures forall c :: c in toUnload <==>
        c in loadedChunks && DistanceSquared(c, p) > UNLOAD_DISTANCE * UNLOAD_DISTANCE
      ensures forall i, j | 0 <= i < j < |toUnload| :: toUnload[i] != toUnload[j]
    {
      toUnload := [];
      var remaining := loadedChunks.Keys;
      while remaining != {}
        invariant remaining <= loadedChunks.Keys
        invariant forall c :: c in toUnload <==>
          c in loadedChunks && c !in remaining && DistanceSquared(c, p) > UNLOAD_DISTANCE * UNLOAD_DISTANCE
        invariant forall i, j | 0 <= i < j < |toUnload| :: toUnload[i] != toUnload[j]
        decreases remaining
      {
        var coord :| coord in remaining;
        if DistanceSquared(coord, p) > UNLOAD_DISTANCE * UNLOAD_DISTANCE {
          toUnload := toUnload + [coord];
        }
        remaining := remaining - {coord};
      }
    }

    /** The load loop: loadChunk on each coordinate in turn. Chunks already
        held stay the same objects; every added one is new and holds its
        terrain. */
    method LoadAll(coords: seq<ChunkCoord>)
      requires Valid()
      modifies this`loadedChunks
      ensures Valid()
      ensures loadedChunks.Keys == old(loadedChunks).Keys + set c | c in coords
      ensures forall c | c in old(loadedChunks) :: loadedChunks[c] == old(loadedChunks)[c]
      ensures forall c | c in loadedChunks && c !in old(loadedChunks) ::
        fresh(loadedChunks[c]) && HoldsTerrain(noise, loadedChunks[c], c)
    {
      for i := 0 to |coords|
        invariant Valid()
        invariant loadedChunks.Keys == old(loadedChunks).Keys + set c | c in coords[..i]
        invariant forall c | c in old(loadedChunks) :: c in loadedChunks && loadedChunks[c] == old(loadedChunks)[c]
        invariant forall c | c in loadedChunks && c !in old(loadedChunks) ::
          fresh(loadedChunks[c]) && HoldsTerrain(noise, loadedChunks[c], c)
      {
        assert coords[..i + 1] == coords[..i] + [coords[i]];
        LoadChunk(coords[i]);
      }
      assert coords[..|coords|] == coords;
    }

    /** The unload loop: unloadChunk on each coordinate in turn. */
    method UnloadAll(coords: seq<ChunkCoord>)
      requires Valid()
      modifies this`loadedChunks
      ensures Valid()
      ensures loadedChunks == old(loadedChunks) - set c | c in coords
      ensures loadedChunks.Keys == old(loadedChunks).Keys - set c | c in coords
      ensures forall c | c in loadedChunks :: c in old(loadedChunks) && loadedChunks[c] == old(loadedChunks)[c]
    {
      for i := 0 to |coords|
        invariant Valid()
        invariant loadedChunks == old(loadedChunks) - set c | c in coords[..i]
      {
        assert coords[..i + 1] == coords[..i] + [coords[i]];
        UnloadChunk(coords[i]);
      }
      assert coords[..|coords|] == coords;
    }

    /** render without the drawing: the loaded chunks within the render
        radius, each paired with its chunk, ordered near to far from the
        player's chunk, and their number recorded. */
    method Render(playerPosition: Vec3)
      requires Valid()
      modifies this`chunksToRender, this`lastRenderedCount
      ensures forall e | e in chunksToRender ::
        e.0 in loadedChunks && e.1 == loadedChunks[e.0] && ShouldRenderChunk(e.0, playerPosition)
      ensures forall c | c in loadedChunks && ShouldRenderChunk(c, playerPosition) ::
        (c, loadedChunks[c]) in chunksToRender
      ensures DistinctCoords(chunksToRender)
      ensures SortedByDistance(chunksToRender, WorldToChunkCoord(playerPosition))
      ensures lastRenderedCount == |chunksToRender|
    {
      var playerChunk := WorldToChunkCoord(playerPosition);
      var visible := CollectVisible(playerPosition);
      chunksToRender := SortByDistance(visible, playerChunk);
      assert forall e :: e in chunksToRender <==> e in visible by {
        assert forall e :: e in chunksToRender <==> e in multiset(chunksToRender);
        assert forall e :: e in visible <==> e in multiset(visible);
      }
      lastRenderedCount := |chunksToRender|;
    }

    /** The collection loop of render: one pass over the table, in whatever
        order it yields its entries, keeping those shouldRenderChunk accepts. */
    method CollectVisible(playerPosition: Vec3) returns (visible: seq<(ChunkCoord, VoxelChunk)>)
      ensures forall e | e in visible ::
        e.0 in loadedChunks && e.1 == loadedChunks[e.0] && ShouldRenderChunk(e.0, playerPosition)
      ensures forall c | c in loadedChunks && ShouldRenderChunk(c, playerPosition) ::
        (c, loadedChunks[c]) in visible
      ensures DistinctCoords(visible)
    {
      visible := [];
      var remaining := loadedChunks.Keys;
      while remaining != {}
        invariant remaining <= loadedChunks.Keys
        invariant forall e | e in visible ::
          e.0 in loadedChunks && e.0 !in remaining && e.1 == loadedChunks[e.0] && ShouldRenderChunk(e.0, playerPosition)
        invariant forall c | c in loadedChunks && c !in remaining && ShouldRenderChunk(c, playerPosition) ::
          (c, loadedChunks[c]) in visible
        invariant DistinctCoords(visible)
        decreases remaining
      {
        var coord :| coord in remaining;
        if ShouldRenderChunk(coord, playerPosition) {
          visible := visible + [(coord, loadedChunks[coord])];
        }
        remaining := remaining - {coord};
      }
    }
  }
}
