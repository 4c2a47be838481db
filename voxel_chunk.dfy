/** A chunk object: its 16x16x16 block grid, filled by the constructor's
    height-map layering, the bounds-safe cell queries, and the CPU side of the
    face-culling mesher that rebuilds the vertex and index buffers. */
module VoxelChunks {
  import opened Blocks
  import opened Coords
  import opened VoxelMesh

  /** The constructor's layering of a column whose height is height. */
  function ConstructorBlock(height: int, y: int): (r: BlockType)
    ensures r == Air <==> y > height
    ensures r == Bedrock <==> y == 0 <= height
  {
    if y <= height then
      if y == 0 then Bedrock
      else if y == height && height > 3 then Grass
      else if y > height - 3 then Dirt
      else Stone
    else Air
  }

  /** Bedrock at the bottom, grass only at the top of a column taller than
      three, dirt in the three cells below the top, stone beneath, and air
      above the column. */
  lemma ConstructorLayering(height: int, y: int)
    requires 0 <= y
    ensures ConstructorBlock(height, y) == Air <==> y > height
    ensures ConstructorBlock(height, y) == Bedrock <==> y == 0 <= height
    ensures ConstructorBlock(height, y) == Grass <==> 0 < y == height && height > 3
    ensures ConstructorBlock(height, y) == Dirt <==>
      0 < y <= height && height - 3 < y && !(y == height && height > 3)
    ensures ConstructorBlock(height, y) == Stone <==> 0 < y <= height - 3
  {
  }

  lemma IdxInverseAll()
    ensures forall x, y, z | InBounds(x, y, z) ::
      Idx(x, y, z) / (CHUNK_SIZE * CHUNK_SIZE) == x && Idx(x, y, z) / CHUNK_SIZE % CHUNK_SIZE == y
      && Idx(x, y, z) % CHUNK_SIZE == z
  {
    forall x, y, z | InBounds(x, y, z)
      ensures Idx(x, y, z) / (CHUNK_SIZE * CHUNK_SIZE) == x && Idx(x, y, z) / CHUNK_SIZE % CHUNK_SIZE == y
        && Idx(x, y, z) % CHUNK_SIZE == z
    {
      IdxInverse(x, y, z);
    }
  }

  class VoxelChunk {
    const worldX: int
    const worldZ: int
    /** blocks[x][y][z] of the source. */
    const blocks: array3<BlockType>
    /** Five values per vertex: x, y, z, u, v. */
    var vertices: seq<MeshValue>
    var indices: seq<int>

    predicate Valid()
    {
      blocks.Length0 == CHUNK_SIZE && blocks.Length1 == CHUNK_SIZE && blocks.Length2 == CHUNK_SIZE
    }

    /** The grid as a flat sequence in x-major order. */
    ghost function Cells(): (g: seq<BlockType>)
      requires Valid()
      reads blocks
      ensures |g| == CELLS
      ensures forall x, y, z | InBounds(x, y, z) :: g[Idx(x, y, z)] == blocks[x, y, z]
    {
      IdxInverseAll();
      seq(CELLS, i requires 0 <= i < CELLS reads blocks => blocks[i / 256, i / 16 % 16, i % 16])
    }

    /** Every cell follows the constructor layering for the height
        columnHeight gives its column's world position. */
    ghost predicate LaidOut(columnHeight: (int, int) -> int)
      requires Valid()
      reads blocks
    {
      forall a, b, c | InBounds(a, b, c) ::
        blocks[a, b, c] == ConstructorBlock(columnHeight(worldX * CHUNK_SIZE + a, worldZ * CHUNK_SIZE + c), b)
    }

    /** The buffers hold the faces the mesher emits before position
        (x, y, z, d) of its walk over g, and offset counts their vertices. */
    ghost predicate MeshedBefore(g: seq<BlockType>, x: int, y: int, z: int, d: int, offset: int)
      reads this
    {
      |g| == CELLS && 0 <= x <= CHUNK_SIZE && 0 <= y <= CHUNK_SIZE && 0 <= z <= CHUNK_SIZE && 0 <= d <= 6
      && vertices == VerticesOf(FacesBefore(g, x, y, z, d))
      && indices == IndicesOf(FacesBefore(g, x, y, z, d))
      && offset == 4 * |FacesBefore(g, x, y, z, d)|
    }

    /** The buffers hold exactly the face-culled mesh of the current grid. */
    ghost predicate MeshCurrent()
      requires Valid()
      reads this, blocks
    {
      vertices == VerticesOf(Faces(Cells())) && indices == IndicesOf(Faces(Cells()))
    }

    /** Fills the grid with air, then lays out every column from the height
        the noise gives its world position, then builds the mesh. */
    constructor (worldX: int, worldZ: int, columnHeight: (int, int) -> int)
      ensures Valid() && fresh(blocks)
      ensures this.worldX == worldX && this.worldZ == worldZ
      ensures LaidOut(columnHeight)
      ensures MeshCurrent()
    {
      this.worldX := worldX;
      this.worldZ := worldZ;
      blocks := new BlockType[CHUNK_SIZE, CHUNK_SIZE, CHUNK_SIZE];
      vertices := [];
      indices := [];
      new;
      ClearGrid();
      LayColumns(columnHeight);
      GenerateMesh();
    }

    /** The constructor's first pass: every cell set to air, x, y, z in order. */
    method ClearGrid()
      requires Valid()
      modifies blocks
      ensures forall a, b, c | InBounds(a, b, c) :: blocks[a, b, c] == Air
    {
      for x := 0 to CHUNK_SIZE
        invariant forall a, b, c | InBounds(a, b, c) && a < x :: blocks[a, b, c] == Air
      {
        for y := 0 to CHUNK_SIZE
          invariant forall a, b, c | InBounds(a, b, c) && (a < x || (a == x && b < y)) :: blocks[a, b, c] == Air
        {
          for z := 0 to CHUNK_SIZE
            invariant forall a, b, c | InBounds(a, b, c) && (a < x || (a == x && (b < y || (b == y && c < z)))) ::
              blocks[a, b, c] == Air
          {
            blocks[x, y, z] := Air;
          }
        }
      }
    }

    /** The constructor's second pass: each column (x, z) takes the layering
        of the height the noise gives its world position. */
    method LayColumns(columnHeight: (int, int) -> int)
      requires Valid()
      modifies blocks
      ensures LaidOut(columnHeight)
    {
      for x := 0 to CHUNK_SIZE
        invariant forall a, b, c | InBounds(a, b, c) && a < x ::
          blocks[a, b, c] == ConstructorBlock(columnHeight(worldX * CHUNK_SIZE + a, worldZ * CHUNK_SIZE + c), b)
      {
        for z := 0 to CHUNK_SIZE
          invariant forall a, b, c | InBounds(a, b, c) && (a < x || (a == x && c < z)) ::
            blocks[a, b, c] == ConstructorBlock(columnHeight(worldX * CHUNK_SIZE + a, worldZ * CHUNK_SIZE + c), b)
        {
          var height := columnHeight(worldX * CHUNK_SIZE + x, worldZ * CHUNK_SIZE + z);
          LayColumn(x, z, height);
        }
      }
    }

    /** One column of the second pass, bottom to top: bedrock at y = 0, grass
        on top of a column taller than three, dirt just below the top, stone
        deeper, air above. */
    method LayColumn(x: int, z: int, height: int)
      requires Valid() && 0 <= x < CHUNK_SIZE && 0 <= z < CHUNK_SIZE
      modifies blocks
      ensures forall b | 0 <= b < CHUNK_SIZE :: blocks[x, b, z] == ConstructorBlock(height, b)
      ensures forall a, b, c | InBounds(a, b, c) && (a != x || c != z) :: blocks[a, b, c] == old(blocks[a, b, c])
    {
      for y := 0 to CHUNK_SIZE
        invariant forall b | 0 <= b < y :: blocks[x, b, z] == ConstructorBlock(height, b)
        invariant forall a, b, c | InBounds(a, b, c) && (a != x || c != z) :: blocks[a, b, c] == old(blocks[a, b, c])
      {
        if y <= height {
          if y == 0 {
            blocks[x, y, z] := Bedrock;
          } else if y == height && height > 3 {
            blocks[x, y, z] := Grass;
          } else if y > height - 3 {
            blocks[x, y, z] := Dirt;
          } else {
            blocks[x, y, z] := Stone;
          }
        } else {
          blocks[x, y, z] := Air;
        }
      }
    }

    /** isAir: out of range counts as air. */
    function IsAir(x: int, y: int, z: int): (r: bool)
      requires Valid()
      reads blocks
      ensures r == AirAt(Cells(), x, y, z)
    {
      if !InBounds(x, y, z) then true else blocks[x, y, z] == Air
    }

    /** isBlockSolid: out of range is not solid; any non-air cell is. */
    function IsBlockSolid(x: int, y: int, z: int): (r: bool)
      requires Valid()
      reads blocks
      ensures r == SolidAt(Cells(), x, y, z)
    {
      if !InBounds(x, y, z) then false else blocks[x, y, z] != Air
    }

    /** getBlockType: Air out of range, the stored cell otherwise. */
    function GetBlockType(x: int, y: int, z: int): (r: BlockType)
      requires Valid()
      reads blocks
      ensures r == CellAt(Cells(), x, y, z)
    {
      if !InBounds(x, y, z) then Air else blocks[x, y, z]
    }

    /** Writes one cell; a position outside the grid is ignored. */
    method SetBlock(x: int, y: int, z: int, t: BlockType)
      requires Valid()
      modifies blocks
      ensures InBounds(x, y, z) ==> blocks[x, y, z] == t
      ensures forall a, b, c | InBounds(a, b, c) && (a != x || b != y || c != z) ::
        blocks[a, b, c] == old(blocks[a, b, c])
    {
      if InBounds(x, y, z) {
        blocks[x, y, z] := t;
      }
    }

    /** Appends one quad: 20 values and 6 indices offset by indexOffset, and
        advances the offset by the quad's four vertices. */
    method AddFace(p1: Point, p2: Point, p3: Point, p4: Point, indexOffset: int, blockType: BlockType,
                   faceDirection: int)
      returns (newOffset: int)
      modifies this
      ensures vertices == old(vertices) + QuadValues(p1, p2, p3, p4, TextureForBlock(blockType, faceDirection))
      ensures indices == old(indices) + QuadIndices(indexOffset)
      ensures newOffset == indexOffset + 4
    {
      var face := QuadValues(p1, p2, p3, p4, TextureForBlock(blockType, faceDirection));
      var inds := [0, 1, 2, 2, 3, 0];
      for k := 0 to |face|
        invariant vertices == old(vertices) + face[..k]
        invariant indices == old(indices)
      {
        vertices := vertices + [face[k]];
      }
      for k := 0 to |inds|
        invariant vertices == old(vertices) + face
        invariant indices == old(indices) + QuadIndices(indexOffset)[..k]
      {
        assert QuadIndices(indexOffset)[..k + 1] == QuadIndices(indexOffset)[..k] + [inds[k] + indexOffset];
        indices := indices + [inds[k] + indexOffset];
      }
      newOffset := indexOffset + 4;
    }

    /** Clears both buffers and emits, cell by cell in x, y, z order, one quad
        per direction whose neighbour is air. */
    method GenerateMesh()
      requires Valid()
      modifies this
      ensures MeshCurrent()
    {
      vertices := [];
      indices := [];
      var indexOffset := 0;
      ghost var g := Cells();
      for x := 0 to CHUNK_SIZE
        invariant MeshedBefore(g, x, 0, 0, 0, indexOffset)
      {
        indexOffset := MeshSlab(x, indexOffset, g);
      }
      assert Cells() == g;
      assert Faces(g) == FacesBefore(g, CHUNK_SIZE, 0, 0, 0);
    }

    /** The mesher's middle loop for slab x: the rows y = 0 .. 15 in order. */
    method MeshSlab(x: int, indexOffset: int, ghost g: seq<BlockType>) returns (newOffset: int)
      requires Valid() && g == Cells() && 0 <= x < CHUNK_SIZE
      requires MeshedBefore(g, x, 0, 0, 0, indexOffset)
      modifies this
      ensures MeshedBefore(g, x + 1, 0, 0, 0, newOffset)
    {
      newOffset := indexOffset;
      for y := 0 to CHUNK_SIZE
        invariant MeshedBefore(g, x, y, 0, 0, newOffset)
      {
        newOffset := MeshRow(x, y, newOffset, g);
      }
    }

    /** The mesher's innermost loop for row (x, y): the cells z = 0 .. 15 in
        order. */
    method MeshRow(x: int, y: int, indexOffset: int, ghost g: seq<BlockType>) returns (newOffset: int)
      requires Valid() && g == Cells() && 0 <= x < CHUNK_SIZE && 0 <= y < CHUNK_SIZE
      requires MeshedBefore(g, x, y, 0, 0, indexOffset)
      modifies this
      ensures MeshedBefore(g, x, y + 1, 0, 0, newOffset)
    {
      newOffset := indexOffset;
      for z := 0 to CHUNK_SIZE
        invariant MeshedBefore(g, x, y, z, 0, newOffset)
      {
        newOffset := MeshCell(x, y, z, newOffset, g);
      }
    }

    /** The body of the mesher's innermost loop for cell (x, y, z): nothing
        for air, otherwise one addFace per direction 0..5 whose neighbour is
        air. */
    method MeshCell(x: int, y: int, z: int, indexOffset: int, ghost g: seq<BlockType>)
      returns (newOffset: int)
      requires Valid() && g == Cells() && InBounds(x, y, z)
      requires MeshedBefore(g, x, y, z, 0, indexOffset)
      modifies this
      ensures MeshedBefore(g, x, y, z + 1, 0, newOffset)
    {
      newOffset := indexOffset;
      var blockType := blocks[x, y, z];
      if blockType == Air {
        AirCellSkipped(g, x, y, z, 6);
        return;
      }
      newOffset := FaceIfExposed(x, y, z, 0, newOffset, blockType, g);  // front (+Z)
      newOffset := FaceIfExposed(x, y, z, 1, newOffset, blockType, g);  // back (-Z)
      newOffset := FaceIfExposed(x, y, z, 2, newOffset, blockType, g);  // right (+X)
      newOffset := FaceIfExposed(x, y, z, 3, newOffset, blockType, g);  // left (-X)
      newOffset := FaceIfExposed(x, y, z, 4, newOffset, blockType, g);  // top (+Y)
      newOffset := FaceIfExposed(x, y, z, 5, newOffset, blockType, g);  // bottom (-Y)
    }

    /** One face test of the mesher: if the neighbour in direction d is air,
        append the quad with the corners the mesher lists for d. */
    method FaceIfExposed(x: int, y: int, z: int, d: int, indexOffset: int, blockType: BlockType,
                         ghost g: seq<BlockType>)
      returns (newOffset: int)
      requires Valid() && g == Cells() && InBounds(x, y, z) && 0 <= d < 6
      requires blockType == CellAt(g, x, y, z) && blockType != Air
      requires MeshedBefore(g, x, y, z, d, indexOffset)
      modifies this
      ensures MeshedBefore(g, x, y, z, d + 1, newOffset)
      ensures Valid() && g == Cells()
    {
      newOffset := indexOffset;
      var n := Neighbour(x, y, z, d);
      var c := Corners(Face(x, y, z, d, blockType));
      if IsAir(n.0, n.1, n.2) {
        EmitStep(g, x, y, z, d, c.p1, c.p2, c.p3, c.p4, vertices, indices);
        newOffset := AddFace(c.p1, c.p2, c.p3, c.p4, newOffset, blockType, d);
      } else {
        SkipStep(g, x, y, z, d);
      }
    }

    /** Rebuilds the mesh after cells change. */
    method RegenerateMesh()
      requires Valid()
      modifies this
      ensures MeshCurrent()
    {
      GenerateMesh();
    }
  }
}
