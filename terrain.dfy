/** The chunk manager's terrain rule: a clamped surface height per column and
    the layering of each column from bedrock up to the surface. The noise
    generators behind it are inputs of the model. */
module Terrain {
  import opened Blocks
  import opened Coords

  /** The noise the manager and the chunk constructor sample, each already
      reduced to the value the code goes on to use:
      rawHeight  - the height noise scaled and cast to int, before clamping;
      sandBiome  - whether the biome noise exceeds 0.3 in that column;
      cave       - whether the cave noise exceeds 0.4 at that cell;
      chunkHeight - the column height the chunk constructor derives from its
                    own trigonometric noise.
      All are indexed by world coordinates. */
  datatype Noise = Noise(
    rawHeight: (int, int) -> int,
    sandBiome: (int, int) -> bool,
    cave: (int, int, int) -> bool,
    chunkHeight: (int, int) -> int)

  const MIN_SURFACE: int := 3
  const MAX_SURFACE: int := 13

  /** std::clamp(v, lo, hi). */
  function Clamp(v: int, lo: int, hi: int): (r: int)
    requires lo <= hi
    ensures lo <= r <= hi
    ensures lo <= v <= hi ==> r == v
    ensures v < lo ==> r == lo
    ensures v > hi ==> r == hi
  {
    if v < lo then lo else if hi < v then hi else v
  }

  /** The surface height of the column at world (wx, wz). */
  function SurfaceHeight(noise: Noise, wx: int, wz: int): (h: int)
    ensures MIN_SURFACE <= h <= MAX_SURFACE < CHUNK_SIZE
  {
    Clamp(noise.rawHeight(wx, wz), MIN_SURFACE, MAX_SURFACE)
  }

  /** The block loadChunk writes at height y of a column whose surface is
      surface, given the column's biome test and the cell's cave test. */
  function ColumnBlock(surface: int, sandy: bool, cave: bool, y: int): (r: BlockType)
    ensures r == Bedrock <==> y == 0
    ensures r == Air <==> y != 0 && (y > surface || (cave && 1 < y < surface - 1))
  {
    if y == 0 then Bedrock
    else if y <= surface then
      if cave && y > 1 && y < surface - 1 then Air
      else if y == surface then
        if sandy then Sand else if surface < 6 then Sand else Grass
      else if y > surface - 3 then Dirt
      else Stone
    else Air
  }

  /** The layering of a column: bedrock at the bottom, air above the
      surface, sand or grass on the surface, dirt just below it, and cave air
      only strictly between y = 1 and the dirt. */
  lemma ColumnLayering(surface: int, sandy: bool, cave: bool, y: int)
    requires MIN_SURFACE <= surface <= MAX_SURFACE && 0 <= y
    ensures y == 0 ==> ColumnBlock(surface, sandy, cave, y) == Bedrock
    ensures y > surface ==> ColumnBlock(surface, sandy, cave, y) == Air
    ensures y == surface ==> ColumnBlock(surface, sandy, cave, y) in {Sand, Grass}
    ensures y == surface ==> (ColumnBlock(surface, sandy, cave, y) == Grass <==> !sandy && surface >= 6)
    ensures y == surface - 1 ==> ColumnBlock(surface, sandy, cave, y) == Dirt
    ensures ColumnBlock(surface, sandy, cave, y) == Air <==> y > surface || (cave && 1 < y < surface - 1)
    ensures ColumnBlock(surface, sandy, cave, y) == Stone <==> 0 < y <= surface - 3 && !(cave && 1 < y)
    ensures ColumnBlock(surface, sandy, cave, y) == Dirt <==>
      surface - 3 < y < surface && !(cave && 1 < y < surface - 1)
  {
  }

  /** The block of local cell (x, y, z) in the chunk at coord. */
  function TerrainBlock(noise: Noise, coord: ChunkCoord, x: int, y: int, z: int): BlockType
  {
    var wx, wz := coord.x * CHUNK_SIZE + x, coord.z * CHUNK_SIZE + z;
    ColumnBlock(SurfaceHeight(noise, wx, wz), noise.sandBiome(wx, wz), noise.cave(wx, y, wz), y)
  }

  /** Every generated column has bedrock at the bottom and is solid from the
      top of the stone up to its surface, whatever the noise. */
  lemma TerrainColumn(noise: Noise, coord: ChunkCoord, x: int, z: int)
    ensures TerrainBlock(noise, coord, x, 0, z) == Bedrock
    ensures var h := SurfaceHeight(noise, coord.x * CHUNK_SIZE + x, coord.z * CHUNK_SIZE + z);
      TerrainBlock(noise, coord, x, h, z) in {Sand, Grass} &&
      TerrainBlock(noise, coord, x, h - 1, z) == Dirt &&
      forall y | h < y :: TerrainBlock(noise, coord, x, y, z) == Air
  {
    var wx, wz := coord.x * CHUNK_SIZE + x, coord.z * CHUNK_SIZE + z;
    var h := SurfaceHeight(noise, wx, wz);
    ColumnLayering(h, noise.sandBiome(wx, wz), noise.cave(wx, h, wz), h);
    ColumnLayering(h, noise.sandBiome(wx, wz), noise.cave(wx, h - 1, wz), h - 1);
  }
}
